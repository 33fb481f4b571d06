/**
 * Decimal rendering and parsing of naturals, Python's string ordering, ASCII lower-casing
 * and two facts about splitting a string at a separator. Strings are `seq<char>` and
 * characters compare by code point, as Python's `str` does.
 */
module Strings {

  predicate IsDigit(c: char) { '0' <= c <= '9' }

  predicate AllDigits(s: string) { forall i :: 0 <= i < |s| ==> IsDigit(s[i]) }

  function DigitChar(d: nat): (c: char)
    requires d < 10
    ensures IsDigit(c) && DigitValue(c) == d
  {
    (('0' as int) + d) as char
  }

  function DigitValue(c: char): (d: nat)
    requires IsDigit(c)
    ensures d < 10
  {
    (c as int) - ('0' as int)
  }

  /** The value of a string of decimal digits, most significant first. */
  function DigitsValue(s: string): nat
    requires AllDigits(s)
  {
    if s == [] then 0 else 10 * DigitsValue(s[..|s| - 1]) + DigitValue(s[|s| - 1])
  }

  /** Python's `str(n)` for a non-negative integer: unpadded decimal. */
  function NatToString(n: nat): (s: string)
    ensures |s| > 0 && AllDigits(s)
    ensures n < 10 <==> |s| == 1
  {
    if n < 10 then [DigitChar(n)] else NatToString(n / 10) + [DigitChar(n % 10)]
  }

  lemma {:induction false} NatToStringValue(n: nat)
    ensures DigitsValue(NatToString(n)) == n
  {
    var s := NatToString(n);
    if n >= 10 {
      NatToStringValue(n / 10);
      assert s[..|s| - 1] == NatToString(n / 10);
    }
  }

  /** Distinct numbers render as distinct strings. */
  lemma NatToStringInjective(a: nat, b: nat)
    ensures NatToString(a) == NatToString(b) <==> a == b
  {
    if NatToString(a) == NatToString(b) {
      NatToStringValue(a);
      NatToStringValue(b);
    }
  }

  /** Appending one digit multiplies the value so far by ten and adds the digit. */
  lemma DigitsValueSnoc(s: string, c: char)
    requires AllDigits(s) && IsDigit(c)
    ensures AllDigits(s + [c]) && DigitsValue(s + [c]) == 10 * DigitsValue(s) + DigitValue(c)
  {
    assert (s + [c])[..|s|] == s;
  }

  /** Python's `f"{n:02d}"` for 0 <= n < 100. */
  function Pad2(n: nat): (s: string)
    requires n < 100
    ensures |s| == 2 && AllDigits(s) && DigitsValue(s) == n
  {
    var hi, lo := DigitChar(n / 10), DigitChar(n % 10);
    DigitsValueSnoc([], hi);
    DigitsValueSnoc([hi], lo);
    [hi] + [lo]
  }

  /** A two-digit suffix contributes its value below a hundredfold prefix. */
  lemma DigitsValueTwoMore(x: string, y: string)
    requires AllDigits(x) && |y| == 2 && AllDigits(y)
    ensures AllDigits(x + y) && DigitsValue(x + y) == 100 * DigitsValue(x) + DigitsValue(y)
  {
    DigitsValueSnoc(x, y[0]);
    DigitsValueSnoc(x + [y[0]], y[1]);
    DigitsValueSnoc([], y[0]);
    DigitsValueSnoc([y[0]], y[1]);
    assert x + y == x + [y[0]] + [y[1]];
    assert y == [y[0]] + [y[1]];
  }

  /** Four digits, zero-padded: the fixed-width year of a timestamp. */
  function Pad4(n: nat): (s: string)
    requires n < 10000
    ensures |s| == 4 && AllDigits(s) && DigitsValue(s) == n
  {
    DigitsValueTwoMore(Pad2(n / 100), Pad2(n % 100));
    Pad2(n / 100) + Pad2(n % 100)
  }

  /** A two-digit string is the padded rendering of its own value. */
  lemma Pad2OfDigits(s: string)
    requires |s| == 2 && AllDigits(s)
    ensures DigitsValue(s) < 100 && Pad2(DigitsValue(s)) == s
  {
    DigitsValueSnoc([], s[0]);
    DigitsValueSnoc([s[0]], s[1]);
    assert s == [s[0]] + [s[1]];
    var v := DigitsValue(s);
    assert v == 10 * DigitValue(s[0]) + DigitValue(s[1]);
    assert v / 10 == DigitValue(s[0]) && v % 10 == DigitValue(s[1]);
    CharOfDigit(s[0]);
    CharOfDigit(s[1]);
  }

  /** A four-digit string is the padded rendering of its own value. */
  lemma Pad4OfDigits(s: string)
    requires |s| == 4 && AllDigits(s)
    ensures DigitsValue(s) < 10000 && Pad4(DigitsValue(s)) == s
  {
    var hi, lo := s[..2], s[2..];
    assert s == hi + lo;
    DigitsValueTwoMore(hi, lo);
    Pad2OfDigits(hi);
    Pad2OfDigits(lo);
    var h, l := DigitsValue(hi), DigitsValue(lo);
    DivModHundred(h, l);
    assert Pad4(100 * h + l) == Pad2(h) + Pad2(l);
  }

  lemma DivModHundred(h: nat, l: nat)
    requires h < 100 && l < 100
    ensures 100 * h + l < 10000 && (100 * h + l) / 100 == h && (100 * h + l) % 100 == l
  {
  }

  lemma CharOfDigit(c: char)
    requires IsDigit(c)
    ensures DigitChar(DigitValue(c)) == c
  {
  }

  /** Python's `a < b` on `str`: lexicographic by code point, a proper prefix is smaller. */
  predicate Less(a: string, b: string) {
    if |b| == 0 then false
    else if |a| == 0 then true
    else a[0] < b[0] || (a[0] == b[0] && Less(a[1..], b[1..]))
  }

  lemma {:induction false} LessIrreflexive(a: string)
    ensures !Less(a, a)
  {
    if |a| > 0 {
      LessIrreflexive(a[1..]);
    }
  }

  lemma {:induction false} LessTransitive(a: string, b: string, c: string)
    requires Less(a, b) && Less(b, c)
    ensures Less(a, c)
  {
    if |a| > 0 && a[0] == b[0] && b[0] == c[0] {
      LessTransitive(a[1..], b[1..], c[1..]);
    }
  }

  /** Any two strings are ordered one way or the other, or are equal. */
  lemma {:induction false} LessTrichotomy(a: string, b: string)
    ensures Less(a, b) || a == b || Less(b, a)
  {
    if |a| > 0 && |b| > 0 && a[0] == b[0] {
      LessTrichotomy(a[1..], b[1..]);
      if a[1..] == b[1..] {
        assert a == [a[0]] + a[1..] && b == [b[0]] + b[1..];
      }
    }
  }

  function LowerChar(c: char): (l: char)
    ensures 'A' <= c <= 'Z' ==> 'a' <= l <= 'z'
    ensures !('A' <= c <= 'Z') ==> l == c
  {
    if 'A' <= c <= 'Z' then ((c as int) + 32) as char else c
  }

  /** Python's `str.lower()` restricted to ASCII letters. */
  function Lower(s: string): (r: string)
    ensures |r| == |s| && forall i :: 0 <= i < |s| ==> r[i] == LowerChar(s[i])
  {
    seq(|s|, i requires 0 <= i < |s| => LowerChar(s[i]))
  }

  /** Splitting at the first separator: the separator-free heads agree, and so do the tails. */
  lemma {:induction false} SplitFirst(sep: char, a: string, x: string, b: string, y: string)
    requires sep !in a && sep !in b
    requires a + [sep] + x == b + [sep] + y
    ensures a == b && x == y
  {
    var s := a + [sep] + x;
    assert s[|a|] == sep && (b + [sep] + y)[|b|] == sep;
    assert |a| == |b|;
    assert a == s[..|a|] == b;
    assert x == s[|a| + 1..] == y;
  }

  /** Splitting at the last separator: the separator-free tails agree, and so do the heads. */
  lemma {:induction false} SplitLast(sep: char, x: string, a: string, y: string, b: string)
    requires sep !in a && sep !in b
    requires x + [sep] + a == y + [sep] + b
    ensures x == y && a == b
  {
    var s := x + [sep] + a;
    assert s[|s| - 1 - |a|] == sep && (y + [sep] + b)[|s| - 1 - |b|] == sep;
    assert |a| == |b|;
    assert x == s[..|x|] == y;
    assert a == s[|x| + 1..] == b;
  }

  /** A string of digits holds no separator of the key formats. */
  lemma DigitsHaveNo(c: char, s: string)
    requires AllDigits(s) && !IsDigit(c)
    ensures c !in s
  {
  }
}
