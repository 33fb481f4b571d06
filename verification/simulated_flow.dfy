/**
 * The in-process simulation of the pipeline (`demo/simulated_flow_demo.py`): a FIFO
 * buffer standing in for the Kafka topic, a consumer that drains it, the Lambda step
 * that stamps each event with the processing time, the grouping of events into
 * partition directories, and the "query" that shows the five most recent events.
 */
module SimulatedFlow {
  import opened Wrappers
  import opened Strings
  import opened Timestamp
  import opened ParkingEvents

  /** The module-global `kafka_messages` deque: events are appended at the tail and popped at the head. */
  class KafkaBuffer {
    var messages: seq<Event>

    constructor ()
      ensures messages == []
    {
      messages := [];
    }

    /**
     * `simulate_kafka_producer(event)`: appends the event and reports it under partition 0
     * at offset `len(kafka_messages) - 1`, the length of the buffer before the append.
     */
    method Produce(event: Event) returns (ok: bool, offset: nat)
      modifies this
      ensures messages == old(messages) + [event]
      ensures ok && offset == |old(messages)| && messages[offset] == event
    {
      messages := messages + [event];
      offset := |messages| - 1;
      ok := true;
    }

    /** `simulate_kafka_consumer()`: pops every buffered event, oldest first, into a list. */
    method Consume() returns (events: seq<Event>)
      modifies this
      ensures events == old(messages) && messages == []
    {
      events := [];
      while |messages| > 0
        invariant events + messages == old(messages)
        decreases |messages|
      {
        var event := messages[0];
        messages := messages[1..];
        events := events + [event];
      }
    }

    /**
     * The producing loop of `main`: every event is appended in list order, and the offsets
     * reported are consecutive, continuing from the current length of the buffer.
     */
    method ProduceAll(events: seq<Event>) returns (offsets: seq<nat>)
      modifies this
      ensures messages == old(messages) + events
      ensures |offsets| == |events|
      ensures forall i :: 0 <= i < |events| ==> offsets[i] == |old(messages)| + i && messages[offsets[i]] == events[i]
    {
      offsets := [];
      for i := 0 to |events|
        invariant messages == old(messages) + events[..i]
        invariant |offsets| == i
        invariant forall j :: 0 <= j < i ==> offsets[j] == |old(messages)| + j
      {
        var _, offset := Produce(events[i]);
        offsets := offsets + [offset];
        assert events[..i + 1] == events[..i] + [events[i]];
      }
      assert events[..|events|] == events;
    }
  }

  /** Producing into an empty buffer, the n-th event (counting from 0) gets offset n. */
  method ProduceFromEmpty(events: seq<Event>) returns (offsets: seq<nat>)
    ensures offsets == seq(|events|, i requires 0 <= i < |events| => i)
  {
    var buffer := new KafkaBuffer();
    offsets := buffer.ProduceAll(events);
  }

  /** A processed event: the original fields plus `processed_at` and the calendar fields of the processing time. */
  datatype EnrichedEvent = EnrichedEvent(event: Event, processedAt: string, year: nat, month: nat, day: nat, hour: nat)

  /**
   * The event stamped with one clock reading: the original event unchanged, `processed_at`
   * the reading in the fixed-width form, and year, month, day and hour those of the same
   * reading, so that the partition fields name the hour in which the event was processed.
   */
  function Enrich(event: Event, now: DateTime): (p: EnrichedEvent)
    requires Valid(now)
    ensures p.event == event
    ensures Parse(p.processedAt) == Some(now)
    ensures p.year == now.year && p.month == now.month && p.day == now.day && p.hour == now.hour
  {
    ParseFormat(now);
    EnrichedEvent(event, Format(now), now.year, now.month, now.day, now.hour)
  }

  /**
   * The enrichment as written: `processed_at`, year, month, day and hour are each taken
   * from a separate call to `datetime.utcnow()`, `readings[0]` to `readings[4]` in that order.
   */
  function EnrichAsWritten(event: Event, readings: seq<DateTime>): (p: EnrichedEvent)
    requires Readings(readings)
    ensures p.event == event && Parse(p.processedAt) == Some(readings[0])
    ensures p.year == readings[1].year && p.month == readings[2].month && p.day == readings[3].day && p.hour == readings[4].hour
  {
    ParseFormat(readings[0]);
    assert Valid(readings[1]) && Valid(readings[2]) && Valid(readings[3]) && Valid(readings[4]);
    EnrichedEvent(event, Format(readings[0]), readings[1].year, readings[2].month, readings[3].day, readings[4].hour)
  }

  /** The five `datetime.utcnow()` readings one event's enrichment takes, in call order. */
  predicate Readings(readings: seq<DateTime>) {
    |readings| == 5 && forall i :: 0 <= i < 5 ==> Valid(readings[i])
  }

  /** The five readings are one instant: the clock did not move during the enrichment. */
  predicate Steady(readings: seq<DateTime>)
    requires |readings| == 5
  {
    forall i :: 0 <= i < 5 ==> readings[i] == readings[0]
  }

  /** When the five readings are one instant, the as-written enrichment agrees with `Enrich`. */
  lemma EnrichAsWrittenSameHour(event: Event, readings: seq<DateTime>)
    requires Readings(readings) && Steady(readings)
    ensures EnrichAsWritten(event, readings) == Enrich(event, readings[0])
  {
    assert readings[1] == readings[0] && readings[2] == readings[0] && readings[3] == readings[0] && readings[4] == readings[0];
  }

  /**
   * Readings straddling New Year (the year read at 23:59:59 on 31 December 2024, the month
   * one second later) give the partition fields of 1 January 2024 at 00h, an hour a whole
   * year before every one of the five readings.
   */
  lemma EnrichAcrossNewYear(event: Event)
    ensures var lastSecond, newYear := DateTime(2024, 12, 31, 23, 59, 59), DateTime(2025, 1, 1, 0, 0, 0);
      var p := EnrichAsWritten(event, [lastSecond, lastSecond, newYear, newYear, newYear]);
      p.year == 2024 && p.month == 1 && p.day == 1 && p.hour == 0
      && (p.year, p.month, p.day, p.hour) != (lastSecond.year, lastSecond.month, lastSecond.day, lastSecond.hour)
      && (p.year, p.month, p.day, p.hour) != (newYear.year, newYear.month, newYear.day, newYear.hour)
  {
  }

  /**
   * `simulate_lambda_processing(events)`: one enriched event per input event, in order;
   * `clock[i]` holds the five readings the i-th enrichment takes. Where those readings are
   * one instant, the result is `Enrich` at that instant.
   */
  method SimulateLambdaProcessing(events: seq<Event>, clock: seq<seq<DateTime>>) returns (processed: seq<EnrichedEvent>)
    requires |clock| == |events| && forall i :: 0 <= i < |clock| ==> Readings(clock[i])
    ensures |processed| == |events|
    ensures forall i :: 0 <= i < |events| ==> processed[i] == EnrichAsWritten(events[i], clock[i])
    ensures forall i :: 0 <= i < |events| ==> processed[i].event == events[i]
    ensures forall i :: 0 <= i < |events| && Readings(clock[i]) && Steady(clock[i]) ==> processed[i] == Enrich(events[i], clock[i][0])
  {
    processed := [];
    for i := 0 to |events|
      invariant |processed| == i
      invariant EnrichedUpTo(processed, events, clock, i)
    {
      EnrichedGrows(processed, events, clock, i);
      processed := processed + [EnrichAsWritten(events[i], clock[i])];
    }
  }

  /** The first `n` events are enriched with their own readings. */
  predicate EnrichedUpTo(processed: seq<EnrichedEvent>, events: seq<Event>, clock: seq<seq<DateTime>>, n: nat) {
    && n <= |processed| && n <= |events| && n <= |clock|
    && forall j :: 0 <= j < n ==>
      && Readings(clock[j]) && processed[j] == EnrichAsWritten(events[j], clock[j])
      && (Steady(clock[j]) ==> processed[j] == Enrich(events[j], clock[j][0]))
  }

  lemma EnrichedGrows(processed: seq<EnrichedEvent>, events: seq<Event>, clock: seq<seq<DateTime>>, i: nat)
    requires EnrichedUpTo(processed, events, clock, i) && |processed| == i
    requires i < |events| && i < |clock| && Readings(clock[i])
    ensures EnrichedUpTo(processed + [EnrichAsWritten(events[i], clock[i])], events, clock, i + 1)
  {
    var next := processed + [EnrichAsWritten(events[i], clock[i])];
    forall j | 0 <= j < i + 1
      ensures Readings(clock[j]) && next[j] == EnrichAsWritten(events[j], clock[j])
      ensures Steady(clock[j]) ==> next[j] == Enrich(events[j], clock[j][0])
    {
      if j == i {
        if Steady(clock[i]) {
          EnrichAsWrittenSameHour(events[i], clock[i]);
        }
      } else {
        assert next[j] == processed[j];
      }
    }
  }

  /** `f"year={year}/month={month}/day={day}/hour={hour}"`, every field unpadded. */
  function PartitionLabel(p: EnrichedEvent): string {
    "year=" + NatToString(p.year) + "/month=" + NatToString(p.month)
      + "/day=" + NatToString(p.day) + "/hour=" + NatToString(p.hour)
  }

  /** For a two-digit number, `str(n)` is `f"{n:02d}"`. */
  lemma UnpaddedTwoDigits(n: nat)
    ensures 10 <= n < 100 ==> NatToString(n) == Pad2(n)
  {
    if 10 <= n < 100 {
      assert NatToString(n / 10) == [DigitChar(n / 10)];
    }
  }

  /**
   * Every field is written unpadded, so the label is the zero-padded form of the same
   * fields exactly when month, day and hour all have two digits.
   */
  lemma LabelUnpadded(p: EnrichedEvent)
    requires p.month < 100 && p.day < 100 && p.hour < 100
    ensures PartitionLabel(p) == "year=" + NatToString(p.year) + "/month=" + Pad2(p.month) + "/day=" + Pad2(p.day) + "/hour=" + Pad2(p.hour)
      <==> p.month >= 10 && p.day >= 10 && p.hour >= 10
  {
    UnpaddedTwoDigits(p.month);
    UnpaddedTwoDigits(p.day);
    UnpaddedTwoDigits(p.hour);
  }

  /**
   * The simulated directory of an event enriched at `t` is the handler's partition path of
   * `t` exactly when month, day and hour all have two digits: in the other hours the two
   * name different directories.
   */
  lemma LabelAgainstPath(event: Event, t: DateTime)
    requires Valid(t)
    ensures PartitionLabel(Enrich(event, t)) == PartitionPath(t) <==> t.month >= 10 && t.day >= 10 && t.hour >= 10
  {
    var p := Enrich(event, t);
    assert p.year == t.year && p.month == t.month && p.day == t.day && p.hour == t.hour;
    LabelUnpadded(p);
    PartitionPathSpelled(t);
  }

  /** The partition labels of the events in the order of first occurrence. */
  function FirstSeen(es: seq<EnrichedEvent>): seq<string> {
    if es == [] then []
    else
      var prefix := FirstSeen(es[..|es| - 1]);
      var l := PartitionLabel(es[|es| - 1]);
      if l in prefix then prefix else prefix + [l]
  }

  /** `FirstSeen` lists exactly the labels some event carries, each once. */
  lemma FirstSeenLabels(es: seq<EnrichedEvent>)
    ensures forall l :: l in FirstSeen(es) <==> exists j :: 0 <= j < |es| && PartitionLabel(es[j]) == l
    ensures NoDuplicates(FirstSeen(es))
  {
    forall l ensures l in FirstSeen(es) <==> exists j :: 0 <= j < |es| && PartitionLabel(es[j]) == l {
      if l in FirstSeen(es) {
        var j := FirstSeenWitness(es, l);
      }
      if exists j :: 0 <= j < |es| && PartitionLabel(es[j]) == l {
        var j :| 0 <= j < |es| && PartitionLabel(es[j]) == l;
        FirstSeenComplete(es, j);
      }
    }
    FirstSeenDistinct(es);
  }

  /** A listed label is carried by some event. */
  lemma {:induction false} FirstSeenWitness(es: seq<EnrichedEvent>, l: string) returns (j: nat)
    requires l in FirstSeen(es)
    ensures j < |es| && PartitionLabel(es[j]) == l
  {
    var init := es[..|es| - 1];
    if l in FirstSeen(init) {
      j := FirstSeenWitness(init, l);
      assert init[j] == es[j];
    } else {
      j := |es| - 1;
    }
  }

  /** The label of every event is listed. */
  lemma {:induction false} FirstSeenComplete(es: seq<EnrichedEvent>, j: nat)
    requires j < |es|
    ensures PartitionLabel(es[j]) in FirstSeen(es)
  {
    var init := es[..|es| - 1];
    if j < |init| {
      FirstSeenComplete(init, j);
      assert init[j] == es[j];
    }
  }

  predicate NoDuplicates(ls: seq<string>) {
    forall a, b :: 0 <= a < b < |ls| ==> ls[a] != ls[b]
  }

  /** No label is listed twice. */
  lemma {:induction false} FirstSeenDistinct(es: seq<EnrichedEvent>)
    ensures NoDuplicates(FirstSeen(es))
  {
    if es != [] {
      var init := es[..|es| - 1];
      FirstSeenDistinct(init);
      var prefix, l := FirstSeen(init), PartitionLabel(es[|es| - 1]);
      if l !in prefix {
        var ls := prefix + [l];
        assert FirstSeen(es) == ls;
        forall a, b | 0 <= a < b < |ls| ensures ls[a] != ls[b] {
          assert ls[a] == prefix[a] && prefix[a] in prefix;
          if b < |prefix| {
            assert ls[b] == prefix[b];
          } else {
            assert ls[b] == l;
          }
        }
      }
    }
  }

  /** The events whose partition label is `l`, in input order. */
  function Bucket(es: seq<EnrichedEvent>, l: string): (b: seq<EnrichedEvent>)
    ensures |b| <= |es|
    ensures forall x :: x in b ==> x in es && PartitionLabel(x) == l
  {
    if es == [] then []
    else
      var last := es[|es| - 1];
      Bucket(es[..|es| - 1], l) + (if PartitionLabel(last) == l then [last] else [])
  }

  /**
   * The grouping loop of `simulate_s3_storage(events)`: `order` lists the keys of the
   * `partitions` dict in insertion order, and `buckets` maps each key to its list.
   */
  method SimulateS3Storage(events: seq<EnrichedEvent>) returns (order: seq<string>, buckets: map<string, seq<EnrichedEvent>>)
    ensures order == FirstSeen(events)
    ensures forall l :: l in buckets <==> l in order
    ensures forall l :: l in buckets ==> buckets[l] == Bucket(events, l)
  {
    order, buckets := [], map[];
    assert GroupedAs([], order, buckets);
    for i := 0 to |events|
      invariant GroupedAs(events[..i], order, buckets)
    {
      var e := events[i];
      var l := PartitionLabel(e);
      if l in buckets {
        GroupIntoExisting(events, i, order, buckets);
        buckets := buckets[l := buckets[l] + [e]];
      } else {
        GroupIntoNew(events, i, order, buckets);
        order := order + [l];
        buckets := buckets[l := [e]];
      }
    }
    assert events[..|events|] == events;
    assert GroupedAs(events, order, buckets);
  }

  /** `order` and `buckets` are the dict built from `es`: keys in insertion order, each with its events. */
  ghost predicate GroupedAs(es: seq<EnrichedEvent>, order: seq<string>, buckets: map<string, seq<EnrichedEvent>>) {
    && order == FirstSeen(es)
    && (forall l :: l in buckets <==> l in order)
    && (forall l :: l in buckets ==> buckets[l] == Bucket(es, l))
  }

  /** Loop step for a label already among the keys, stated on the prefix `es[..i + 1]`. */
  lemma GroupIntoExisting(es: seq<EnrichedEvent>, i: nat, order: seq<string>, buckets: map<string, seq<EnrichedEvent>>)
    requires i < |es| && GroupedAs(es[..i], order, buckets) && PartitionLabel(es[i]) in buckets
    ensures var l := PartitionLabel(es[i]);
      GroupedAs(es[..i + 1], order, buckets[l := buckets[l] + [es[i]]])
  {
    PrefixGrows(es, i);
    AppendToBucket(es[..i], es[i], order, buckets);
  }

  /** Loop step for a label not yet among the keys, stated on the prefix `es[..i + 1]`. */
  lemma GroupIntoNew(es: seq<EnrichedEvent>, i: nat, order: seq<string>, buckets: map<string, seq<EnrichedEvent>>)
    requires i < |es| && GroupedAs(es[..i], order, buckets) && PartitionLabel(es[i]) !in buckets
    ensures var l := PartitionLabel(es[i]);
      GroupedAs(es[..i + 1], order + [l], buckets[l := [es[i]]])
  {
    PrefixGrows(es, i);
    OpenBucket(es[..i], es[i], order, buckets);
  }

  /** The prefix one longer is the prefix with the next event appended. */
  lemma PrefixGrows(es: seq<EnrichedEvent>, i: nat)
    requires i < |es|
    ensures es[..i + 1] == es[..i] + [es[i]]
  {
  }

  /** An event whose label is already a key is appended to that key's list; the key order stays. */
  lemma AppendToBucket(es: seq<EnrichedEvent>, x: EnrichedEvent, order: seq<string>, buckets: map<string, seq<EnrichedEvent>>)
    requires GroupedAs(es, order, buckets) && PartitionLabel(x) in buckets
    ensures var l := PartitionLabel(x);
      GroupedAs(es + [x], order, buckets[l := buckets[l] + [x]])
  {
    FirstSeenSnoc(es, x);
    assert FirstSeen(es + [x]) == order;
    BucketsAppend(es, x, buckets);
    var b' := buckets[PartitionLabel(x) := buckets[PartitionLabel(x)] + [x]];
    assert b'.Keys == buckets.Keys;
  }

  /** Appending to the list of the event's own label keeps every list equal to its bucket. */
  lemma BucketsAppend(es: seq<EnrichedEvent>, x: EnrichedEvent, buckets: map<string, seq<EnrichedEvent>>)
    requires forall l :: l in buckets ==> buckets[l] == Bucket(es, l)
    requires PartitionLabel(x) in buckets
    ensures var l := PartitionLabel(x);
      forall l' :: l' in buckets[l := buckets[l] + [x]] ==> buckets[l := buckets[l] + [x]][l'] == Bucket(es + [x], l')
  {
    var l := PartitionLabel(x);
    var b' := buckets[l := buckets[l] + [x]];
    forall l' | l' in b' ensures b'[l'] == Bucket(es + [x], l') {
      BucketSnoc(es, x, l');
    }
  }

  /** An event with a new label adds that label last, with a list holding just the event. */
  lemma OpenBucket(es: seq<EnrichedEvent>, x: EnrichedEvent, order: seq<string>, buckets: map<string, seq<EnrichedEvent>>)
    requires GroupedAs(es, order, buckets) && PartitionLabel(x) !in buckets
    ensures var l := PartitionLabel(x);
      GroupedAs(es + [x], order + [l], buckets[l := [x]])
  {
    var l := PartitionLabel(x);
    var b' := buckets[l := [x]];
    FirstSeenSnoc(es, x);
    BucketEmptyIfUnseen(es, l);
    forall l' | l' in b' ensures b'[l'] == Bucket(es + [x], l') {
      BucketSnoc(es, x, l');
    }
  }

  /** Solver aid: FirstSeen's recursive case, read at the end of a longer sequence. */
  lemma FirstSeenSnoc(es: seq<EnrichedEvent>, x: EnrichedEvent)
    ensures var l := PartitionLabel(x);
      FirstSeen(es + [x]) == if l in FirstSeen(es) then FirstSeen(es) else FirstSeen(es) + [l]
  {
    assert (es + [x])[..|es|] == es;
  }

  /** Solver aid: Bucket's recursive case, read at the end of a longer sequence. */
  lemma BucketSnoc(es: seq<EnrichedEvent>, x: EnrichedEvent, l: string)
    ensures Bucket(es + [x], l) == Bucket(es, l) + (if PartitionLabel(x) == l then [x] else [])
  {
    assert (es + [x])[..|es|] == es;
  }

  /** No event carries a label that was never seen, so its bucket is empty. */
  lemma BucketEmptyIfUnseen(es: seq<EnrichedEvent>, l: string)
    requires l !in FirstSeen(es)
    ensures Bucket(es, l) == []
  {
    var b := Bucket(es, l);
    if b != [] {
      assert b[0] in es;
      var k :| 0 <= k < |es| && es[k] == b[0];
      FirstSeenComplete(es, k);
    }
  }

  /** Every event lies in the bucket of its own label, which is one of the listed labels. */
  lemma {:induction false} EventInOwnBucket(es: seq<EnrichedEvent>, j: nat)
    requires j < |es|
    ensures PartitionLabel(es[j]) in FirstSeen(es)
    ensures es[j] in Bucket(es, PartitionLabel(es[j]))
  {
    FirstSeenComplete(es, j);
    if j < |es| - 1 {
      EventInOwnBucket(es[..|es| - 1], j);
    }
  }

  /** Sum of the sizes of the buckets named by `ls`. */
  function BucketSizes(es: seq<EnrichedEvent>, ls: seq<string>): nat {
    if ls == [] then 0 else BucketSizes(es, ls[..|ls| - 1]) + |Bucket(es, ls[|ls| - 1])|
  }

  /** Occurrences of `l` in `ls`. */
  function Occurrences(ls: seq<string>, l: string): nat {
    if ls == [] then 0 else Occurrences(ls[..|ls| - 1], l) + (if ls[|ls| - 1] == l then 1 else 0)
  }

  /** One more event adds one to the size of every listed bucket carrying its label. */
  lemma {:induction false} BucketSizesSnoc(es: seq<EnrichedEvent>, x: EnrichedEvent, ls: seq<string>)
    ensures BucketSizes(es + [x], ls) == BucketSizes(es, ls) + Occurrences(ls, PartitionLabel(x))
  {
    assert (es + [x])[..|es|] == es;
    if ls != [] {
      BucketSizesSnoc(es, x, ls[..|ls| - 1]);
    }
  }

  /** A label occurs in a duplicate-free list once if present and not at all otherwise. */
  lemma {:induction false} OccurrencesDistinct(ls: seq<string>, l: string)
    requires NoDuplicates(ls)
    ensures Occurrences(ls, l) == if l in ls then 1 else 0
  {
    if ls != [] {
      var init := ls[..|ls| - 1];
      OccurrencesDistinct(init, l);
      assert ls == init + [ls[|ls| - 1]];
      if ls[|ls| - 1] == l {
        assert l !in init;
      }
    }
  }

  /** Grouping neither loses nor duplicates events: the bucket sizes add up to the input count. */
  lemma {:induction false} BucketSizesTotal(es: seq<EnrichedEvent>)
    ensures BucketSizes(es, FirstSeen(es)) == |es|
  {
    if es != [] {
      var init, x := es[..|es| - 1], es[|es| - 1];
      assert es == init + [x];
      var l := PartitionLabel(x);
      BucketSizesTotal(init);
      BucketSizesSnoc(init, x, FirstSeen(init));
      FirstSeenLabels(init);
      OccurrencesDistinct(FirstSeen(init), l);
      if l !in FirstSeen(init) {
        BucketEmptyIfUnseen(init, l);
        assert FirstSeen(es) == FirstSeen(init) + [l];
        assert FirstSeen(es)[..|FirstSeen(es)| - 1] == FirstSeen(init);
      }
    }
  }

  /** The sort key, `x['timestamp']`. */
  function Key(p: EnrichedEvent): string { p.event.timestamp }

  /** Descending by key: no element is smaller than one after it. */
  predicate SortedDesc(s: seq<EnrichedEvent>) {
    forall i, j :: 0 <= i < j < |s| ==> !Less(Key(s[i]), Key(s[j]))
  }

  /** `!Less` is the order "greater or equal" on strings, and it is transitive. */
  lemma AtLeastTransitive(a: string, b: string, c: string)
    requires !Less(a, b) && !Less(b, c)
    ensures !Less(a, c)
  {
    if Less(a, c) {
      LessTrichotomy(a, b);
      LessTrichotomy(b, c);
      if a == b {
      } else if Less(b, a) {
        // b < a < c would give b < c
        LessTransitive(b, a, c);
      }
    }
  }

  /**
   * Inserts `x` in front of the first element whose key is not greater than its own, so
   * that `x` precedes the elements with an equal key.
   */
  function Insert(x: EnrichedEvent, s: seq<EnrichedEvent>): (r: seq<EnrichedEvent>)
    requires SortedDesc(s)
    ensures |r| == |s| + 1
    ensures SortedDesc(r)
    ensures multiset(r) == multiset(s) + multiset{x}
  {
    if s == [] || !Less(Key(x), Key(s[0])) then
      FrontBound(x, s);
      [x] + s
    else
      var rest := Insert(x, s[1..]);
      assert s == [s[0]] + s[1..];
      HeadBound(x, s, rest);
      [s[0]] + rest
  }

  /** An element not below the head of a descending list can go in front of it. */
  lemma FrontBound(x: EnrichedEvent, s: seq<EnrichedEvent>)
    requires SortedDesc(s) && (s == [] || !Less(Key(x), Key(s[0])))
    ensures SortedDesc([x] + s)
  {
    forall j | 0 < j < |s| ensures !Less(Key(x), Key(s[j])) {
      AtLeastTransitive(Key(x), Key(s[0]), Key(s[j]));
    }
    ConsSorted(x, s);
  }

  /** The head, above `x`, stays in front of the tail with `x` inserted. */
  lemma HeadBound(x: EnrichedEvent, s: seq<EnrichedEvent>, rest: seq<EnrichedEvent>)
    requires SortedDesc(s) && s != [] && Less(Key(x), Key(s[0]))
    requires SortedDesc(rest) && multiset(rest) == multiset(s[1..]) + multiset{x}
    ensures SortedDesc([s[0]] + rest)
  {
    forall j | 0 <= j < |rest| ensures !Less(Key(s[0]), Key(rest[j])) {
      assert rest[j] in multiset(rest);
      if rest[j] == x {
        LessTrichotomy(Key(x), Key(s[0]));
        if Less(Key(s[0]), Key(x)) { LessTransitive(Key(s[0]), Key(x), Key(s[0])); LessIrreflexive(Key(s[0])); }
      } else {
        assert rest[j] in s[1..];
      }
    }
    ConsSorted(s[0], rest);
  }

  /** A head not below anything of a descending tail makes a descending list. */
  lemma ConsSorted(h: EnrichedEvent, t: seq<EnrichedEvent>)
    requires SortedDesc(t) && forall j :: 0 <= j < |t| ==> !Less(Key(h), Key(t[j]))
    ensures SortedDesc([h] + t)
  {
    var r := [h] + t;
    forall i, j | 0 <= i < j < |r| ensures !Less(Key(r[i]), Key(r[j])) {
      assert r[j] == t[j - 1];
      if i > 0 {
        assert r[i] == t[i - 1];
      }
    }
  }

  /** `sorted(events, key=lambda x: x['timestamp'], reverse=True)`. */
  function SortDesc(es: seq<EnrichedEvent>): (r: seq<EnrichedEvent>)
    ensures |r| == |es|
    ensures SortedDesc(r)
    ensures multiset(r) == multiset(es)
  {
    if es == [] then []
    else
      assert es == [es[0]] + es[1..];
      Insert(es[0], SortDesc(es[1..]))
  }

  /** The events with key `k`, in sequence order. */
  function WithKey(s: seq<EnrichedEvent>, k: string): seq<EnrichedEvent> {
    if s == [] then [] else (if Key(s[0]) == k then [s[0]] else []) + WithKey(s[1..], k)
  }

  lemma {:induction false} WithKeyInsert(x: EnrichedEvent, s: seq<EnrichedEvent>, k: string)
    requires SortedDesc(s)
    ensures WithKey(Insert(x, s), k) == (if Key(x) == k then [x] else []) + WithKey(s, k)
  {
    if !(s == [] || !Less(Key(x), Key(s[0]))) {
      WithKeyInsert(x, s[1..], k);
      if Key(x) == k {
        LessIrreflexive(k);
        assert Key(s[0]) != k;
      }
    }
  }

  /**
   * The sort is stable: for every timestamp, the events carrying it appear in the result
   * in the same relative order as in the input.
   */
  lemma {:induction false} SortDescStable(es: seq<EnrichedEvent>, k: string)
    ensures WithKey(SortDesc(es), k) == WithKey(es, k)
  {
    if es != [] {
      SortDescStable(es[1..], k);
      WithKeyInsert(es[0], SortDesc(es[1..]), k);
    }
  }

  const ShownRows := 5

  /**
   * `simulate_athena_query(events)`: the first `min(5, n)` events of the descending sort,
   * so none of the events left out is more recent than one shown.
   */
  function SimulateAthenaQuery(events: seq<EnrichedEvent>): (shown: seq<EnrichedEvent>)
    ensures |shown| == if |events| < ShownRows then |events| else ShownRows
    ensures shown == SortDesc(events)[..|shown|]
    ensures forall i, j :: 0 <= i < |shown| <= j < |events| ==> !Less(Key(shown[i]), Key(SortDesc(events)[j]))
  {
    var sorted := SortDesc(events);
    if |sorted| < ShownRows then sorted else sorted[..ShownRows]
  }

  /** What one run of the simulated flow produces. */
  datatype DemoRun = DemoRun(offsets: seq<nat>, consumed: seq<Event>, processed: seq<EnrichedEvent>,
                             partitions: seq<string>, buckets: map<string, seq<EnrichedEvent>>, shown: seq<EnrichedEvent>)

  /**
   * `main()` after the events are generated: produce each event, drain the buffer, enrich,
   * group and query. The consumer sees whatever the buffer held followed by the new events.
   */
  method RunDemo(buffer: KafkaBuffer, events: seq<Event>, clock: seq<seq<DateTime>>) returns (run: DemoRun)
    requires |clock| == |buffer.messages| + |events| && forall i :: 0 <= i < |clock| ==> Readings(clock[i])
    modifies buffer
    ensures buffer.messages == []
    ensures |run.offsets| == |events| && forall i :: 0 <= i < |events| ==> run.offsets[i] == |old(buffer.messages)| + i
    ensures run.consumed == old(buffer.messages) + events
    ensures |run.processed| == |run.consumed|
    ensures forall i :: 0 <= i < |clock| ==> run.processed[i] == EnrichAsWritten(run.consumed[i], clock[i])
    ensures forall i :: 0 <= i < |clock| && Readings(clock[i]) && Steady(clock[i]) ==> run.processed[i] == Enrich(run.consumed[i], clock[i][0])
    ensures run.partitions == FirstSeen(run.processed)
    ensures forall l :: l in run.buckets <==> l in run.partitions
    ensures forall l :: l in run.buckets ==> run.buckets[l] == Bucket(run.processed, l)
    ensures run.shown == SimulateAthenaQuery(run.processed)
  {
    var offsets := buffer.ProduceAll(events);
    var consumed := buffer.Consume();
    var processed := SimulateLambdaProcessing(consumed, clock);
    var partitions, buckets := SimulateS3Storage(processed);
    run := DemoRun(offsets, consumed, processed, partitions, buckets, SimulateAthenaQuery(processed));
  }
}
