/**
 * UTC timestamps with second precision in the fixed-width form `YYYY-MM-DDTHH:MM:SSZ`
 * (the `strptime`/`strftime` format "%Y-%m-%dT%H:%M:%SZ"), and the Hive-style
 * partition path derived from one.
 */
module Timestamp {
  import opened Wrappers
  import opened Strings

  datatype DateTime = DateTime(year: int, month: int, day: int, hour: int, minute: int, second: int)

  predicate IsLeapYear(y: int) { y % 4 == 0 && (y % 100 != 0 || y % 400 == 0) }

  function DaysInMonth(y: int, m: int): (d: int)
    requires 1 <= m <= 12
    ensures 28 <= d <= 31
    ensures d == 29 <==> m == 2 && IsLeapYear(y)
  {
    if m == 2 then (if IsLeapYear(y) then 29 else 28)
    else if m == 4 || m == 6 || m == 9 || m == 11 then 30
    else 31
  }

  /** The instants Python's `datetime` can represent (years 1 to 9999). */
  predicate Valid(t: DateTime) {
    && 1 <= t.year <= 9999
    && 1 <= t.month <= 12
    && 1 <= t.day <= DaysInMonth(t.year, t.month)
    && 0 <= t.hour < 24
    && 0 <= t.minute < 60
    && 0 <= t.second < 60
  }

  /** Digits and separators in the places the format demands. */
  predicate HasShape(s: string) {
    && |s| == 20
    && AllDigits(s[0..4]) && s[4] == '-'
    && AllDigits(s[5..7]) && s[7] == '-'
    && AllDigits(s[8..10]) && s[10] == 'T'
    && AllDigits(s[11..13]) && s[13] == ':'
    && AllDigits(s[14..16]) && s[16] == ':'
    && AllDigits(s[17..19]) && s[19] == 'Z'
  }

  /** The calendar fields a well-shaped string spells out, valid or not. */
  function Fields(s: string): DateTime
    requires HasShape(s)
  {
    DateTime(DigitsValue(s[0..4]), DigitsValue(s[5..7]), DigitsValue(s[8..10]),
             DigitsValue(s[11..13]), DigitsValue(s[14..16]), DigitsValue(s[17..19]))
  }

  /** `t.strftime("%Y-%m-%dT%H:%M:%SZ")`, the year written with four digits. */
  function Format(t: DateTime): (s: string)
    requires Valid(t)
    ensures HasShape(s)
  {
    var s := Pad4(t.year) + "-" + Pad2(t.month) + "-" + Pad2(t.day) + "T"
      + Pad2(t.hour) + ":" + Pad2(t.minute) + ":" + Pad2(t.second) + "Z";
    FormatSlices(t, s);
    s
  }

  lemma FormatSlices(t: DateTime, s: string)
    requires Valid(t)
    requires s == Pad4(t.year) + "-" + Pad2(t.month) + "-" + Pad2(t.day) + "T"
      + Pad2(t.hour) + ":" + Pad2(t.minute) + ":" + Pad2(t.second) + "Z"
    ensures |s| == 20
    ensures s[0..4] == Pad4(t.year) && s[4] == '-'
    ensures s[5..7] == Pad2(t.month) && s[7] == '-'
    ensures s[8..10] == Pad2(t.day) && s[10] == 'T'
    ensures s[11..13] == Pad2(t.hour) && s[13] == ':'
    ensures s[14..16] == Pad2(t.minute) && s[16] == ':'
    ensures s[17..19] == Pad2(t.second) && s[19] == 'Z'
  {
  }

  /**
   * `datetime.strptime(s, "%Y-%m-%dT%H:%M:%SZ")`: a string in the fixed-width form that
   * names a real instant parses to it; anything else is rejected (`ValueError`). What
   * parses formats back to the very same string.
   */
  function Parse(s: string): (r: Option<DateTime>)
    ensures r.Some? ==> Valid(r.value) && Format(r.value) == s
  {
    if HasShape(s) && Valid(Fields(s)) then
      FormatFields(s);
      Some(Fields(s))
    else None
  }

  lemma FormatFields(s: string)
    requires HasShape(s) && Valid(Fields(s))
    ensures Format(Fields(s)) == s
  {
    var t := Fields(s);
    Pad4OfDigits(s[0..4]);
    Pad2OfDigits(s[5..7]);
    Pad2OfDigits(s[8..10]);
    Pad2OfDigits(s[11..13]);
    Pad2OfDigits(s[14..16]);
    Pad2OfDigits(s[17..19]);
    var f := Format(t);
    FormatSlices(t, f);
    forall i | 0 <= i < 20 ensures f[i] == s[i] {
      if i < 4 { assert f[i] == f[0..4][i]; assert s[i] == s[0..4][i]; }
      else if 5 <= i < 7 { assert f[i] == f[5..7][i - 5]; assert s[i] == s[5..7][i - 5]; }
      else if 8 <= i < 10 { assert f[i] == f[8..10][i - 8]; assert s[i] == s[8..10][i - 8]; }
      else if 11 <= i < 13 { assert f[i] == f[11..13][i - 11]; assert s[i] == s[11..13][i - 11]; }
      else if 14 <= i < 16 { assert f[i] == f[14..16][i - 14]; assert s[i] == s[14..16][i - 14]; }
      else if 17 <= i < 19 { assert f[i] == f[17..19][i - 17]; assert s[i] == s[17..19][i - 17]; }
    }
  }

  /** Every instant survives formatting and parsing unchanged. */
  lemma ParseFormat(t: DateTime)
    requires Valid(t)
    ensures Parse(Format(t)) == Some(t)
  {
    var s := Format(t);
    FormatSlices(t, s);
    assert Fields(s) == t;
  }

  /**
   * The Hive-style partition directory of an instant,
   * `f"year={t.year}/month={t.month:02d}/day={t.day:02d}/hour={t.hour:02d}"`:
   * the year unpadded, the other fields zero-padded to two digits.
   */
  function PartitionPath(t: DateTime): (p: string)
    requires Valid(t)
    ensures |p| == |NatToString(t.year)| + 29 && p[..5] == "year=" && p[5..|p| - 24] == NatToString(t.year)
    ensures p[|p| - 17..|p| - 15] == Pad2(t.month) && p[|p| - 10..|p| - 8] == Pad2(t.day) && p[|p| - 2..] == Pad2(t.hour)
  {
    "year=" + NatToString(t.year) + PathAfterYear(t)
  }

  /** The fixed-width part of the partition path that follows the year. */
  function PathAfterYear(t: DateTime): (s: string)
    requires Valid(t)
    ensures |s| == 24 && s[0] == '/'
    ensures s[7..9] == Pad2(t.month) && s[14..16] == Pad2(t.day) && s[22..24] == Pad2(t.hour)
  {
    "/month=" + Pad2(t.month) + "/day=" + Pad2(t.day) + "/hour=" + Pad2(t.hour)
  }

  /** Solver aid: the partition path written out field by field. */
  lemma PartitionPathSpelled(t: DateTime)
    requires Valid(t)
    ensures PartitionPath(t) == "year=" + NatToString(t.year) + "/month=" + Pad2(t.month) + "/day=" + Pad2(t.day) + "/hour=" + Pad2(t.hour)
  {
  }

  predicate SameHour(a: DateTime, b: DateTime) {
    a.year == b.year && a.month == b.month && a.day == b.day && a.hour == b.hour
  }

  /** Two instants share a partition directory exactly when they fall in the same hour. */
  lemma PartitionPathSameHour(a: DateTime, b: DateTime)
    requires Valid(a) && Valid(b)
    ensures PartitionPath(a) == PartitionPath(b) <==> SameHour(a, b)
  {
    if PartitionPath(a) == PartitionPath(b) {
      var ya, yb := NatToString(a.year), NatToString(b.year);
      var ra, rb := PathAfterYear(a), PathAfterYear(b);
      // the part after the year has a fixed width, so the years have equal length
      SplitAtSameLength("year=" + ya, ra, "year=" + yb, rb);
      assert ya == ("year=" + ya)[5..] == ("year=" + yb)[5..] == yb;
      NatToStringInjective(a.year, b.year);
      assert Pad2(a.month) == Pad2(b.month) && Pad2(a.day) == Pad2(b.day) && Pad2(a.hour) == Pad2(b.hour);
    }
  }

  lemma SplitAtSameLength(x: string, y: string, x': string, y': string)
    requires x + y == x' + y' && |y| == |y'|
    ensures x == x' && y == y'
  {
    assert x == (x + y)[..|x|];
    assert y == (x + y)[|x|..];
  }

  /** The worked example: "2024-03-20T10:00:00Z" lies under year=2024/month=03/day=20/hour=10. */
  lemma PartitionPathExample()
    ensures Parse("2024-03-20T10:00:00Z") == Some(DateTime(2024, 3, 20, 10, 0, 0))
    ensures PartitionPath(DateTime(2024, 3, 20, 10, 0, 0)) == "year=2024/month=03/day=20/hour=10"
  {
    FormatExample();
    ParseFormat(DateTime(2024, 3, 20, 10, 0, 0));
    PathExample();
  }

  lemma PathExample()
    ensures Valid(DateTime(2024, 3, 20, 10, 0, 0))
    ensures PartitionPath(DateTime(2024, 3, 20, 10, 0, 0)) == "year=2024/month=03/day=20/hour=10"
  {
    var t := DateTime(2024, 3, 20, 10, 0, 0);
    ExampleDigits();
    AfterYearExample();
    ExamplePathText();
  }

  lemma ExamplePathText()
    ensures "year=" + "2024" + "/month=03/day=20/hour=10" == "year=2024/month=03/day=20/hour=10"
  {
  }

  lemma AfterYearExample()
    ensures Valid(DateTime(2024, 3, 20, 10, 0, 0))
    ensures PathAfterYear(DateTime(2024, 3, 20, 10, 0, 0)) == "/month=03/day=20/hour=10"
  {
    ExampleDigits();
    assert PathAfterYear(DateTime(2024, 3, 20, 10, 0, 0)) == "/month=" + "03" + "/day=" + "20" + "/hour=" + "10";
  }

  lemma FormatExample()
    ensures Valid(DateTime(2024, 3, 20, 10, 0, 0))
    ensures Format(DateTime(2024, 3, 20, 10, 0, 0)) == "2024-03-20T10:00:00Z"
  {
    var t := DateTime(2024, 3, 20, 10, 0, 0);
    ExampleDigits();
    assert Format(t) == "2024" + "-" + "03" + "-" + "20" + "T" + "10" + ":" + "00" + ":" + "00" + "Z";
    ExampleFormatText();
  }

  lemma ExampleFormatText()
    ensures "2024" + "-" + "03" + "-" + "20" + "T" + "10" + ":" + "00" + ":" + "00" + "Z" == "2024-03-20T10:00:00Z"
  {
  }

  lemma ExampleDigits()
    ensures Pad2(0) == "00" && Pad2(3) == "03" && Pad2(10) == "10" && Pad2(20) == "20"
    ensures Pad4(2024) == "2024" && NatToString(2024) == "2024"
  {
    assert Pad2(24) == "24";
    assert NatToString(2) == "2";
    assert NatToString(20) == "20";
    assert NatToString(202) == "202";
  }
}
