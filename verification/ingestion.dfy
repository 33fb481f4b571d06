/**
 * The ingestion Lambda (`lambda/ingestion/index.py`): for each Kafka record, in order,
 * decode the JSON message, parse its timestamp, derive the partition path and the
 * object key, and put the re-encoded message into the object store. The first failure
 * aborts the batch and is re-raised; puts already made stay in the store.
 */
module Ingestion {
  import opened Wrappers
  import opened Strings
  import opened Timestamp
  import Json

  /** One Kafka record as the Lambda receives it; `value` is the JSON-encoded message. */
  datatype Record = Record(topic: string, partition: nat, offset: nat, value: Json.Text)

  datatype LambdaEvent = LambdaEvent(records: seq<Record>)

  /** One `put_object` call: the key and the body (content type `application/json`). */
  datatype PutRequest = PutRequest(key: string, body: Json.Text)

  /** What goes wrong with one record. */
  datatype Failure =
    | UndecodableValue     // `json.loads` fails, or yields something other than an object
    | MissingTimestamp     // `message['timestamp']` raises KeyError
    | MalformedTimestamp   // `strptime` raises TypeError or ValueError
    | StoreFailure         // `put_object` raises

  /** The exception the handler re-raises, with the position of the record that caused it. */
  datatype HandlerError = HandlerError(failure: Failure, index: nat)

  datatype Response = Response(statusCode: int, body: Json.Text)

  const KeyPrefix := "parking-data"

  /** The object name inside the partition directory: `<topic>-<partition>-<offset>.json`. */
  function ObjectName(topic: string, partition: nat, offset: nat): (n: string)
    ensures |n| > |topic| + 5 && n[..|topic|] == topic && n[|topic|] == '-' && n[|n| - 5..] == ".json"
  {
    topic + "-" + NatToString(partition) + "-" + NatToString(offset) + ".json"
  }

  /** `f"parking-data/{partition_path}/{topic}-{partition}-{offset}.json"`. */
  function S3Key(t: DateTime, topic: string, partition: nat, offset: nat): (k: string)
    requires Valid(t)
    ensures var n := ObjectName(topic, partition, offset);
      |k| > |n| + 13 && k[..13] == "parking-data/" && k[|k| - |n|..] == n && k[|k| - |n| - 1] == '/'
  {
    KeyPrefix + "/" + PartitionPath(t) + "/" + ObjectName(topic, partition, offset)
  }

  /**
   * Keys identify records: two keys coincide exactly when the timestamps fall in the
   * same hour and topic, partition and offset agree. Redelivering a record therefore
   * overwrites its object, and distinct records never overwrite each other.
   */
  lemma S3KeyInjective(a: DateTime, ta: string, pa: nat, oa: nat, b: DateTime, tb: string, pb: nat, ob: nat)
    requires Valid(a) && Valid(b)
    ensures S3Key(a, ta, pa, oa) == S3Key(b, tb, pb, ob) <==>
      SameHour(a, b) && ta == tb && pa == pb && oa == ob
  {
    if S3Key(a, ta, pa, oa) == S3Key(b, tb, pb, ob) {
      var na, nb := ObjectName(ta, pa, oa), ObjectName(tb, pb, ob);
      var ya, yb := NatToString(a.year), NatToString(b.year);
      var ra, rb := PathAfterYear(a)[1..] + "/" + na, PathAfterYear(b)[1..] + "/" + nb;
      S3KeyShape(a, ta, pa, oa);
      S3KeyShape(b, tb, pb, ob);
      SplitAtSameLength("parking-data/year=", ya + ['/'] + ra, "parking-data/year=", yb + ['/'] + rb);
      DigitsHaveNo('/', ya);
      DigitsHaveNo('/', yb);
      SplitFirst('/', ya, ra, yb, rb);
      NatToStringInjective(a.year, b.year);
      AfterYearInjective(a, na, b, nb);
      ObjectNameInjective(ta, pa, oa, tb, pb, ob);
    }
  }

  /** Solver aid: the key split at the first separator after the year. */
  lemma S3KeyShape(t: DateTime, topic: string, partition: nat, offset: nat)
    requires Valid(t)
    ensures S3Key(t, topic, partition, offset) == "parking-data/year=" + (NatToString(t.year) + ['/']
      + (PathAfterYear(t)[1..] + "/" + ObjectName(topic, partition, offset)))
  {
    var p := PathAfterYear(t);
    LeadingSlash(p);
    KeyHead();
    Regroup(KeyPrefix + "/", "year=", NatToString(t.year), p[1..], ObjectName(topic, partition, offset));
  }

  lemma KeyHead()
    ensures KeyPrefix + "/" + "year=" == "parking-data/year="
  {
  }

  /** Moving the parentheses of the key around the year and the separator that follows it. */
  lemma Regroup(a: string, b: string, y: string, d: string, n: string)
    ensures a + (b + y + (['/'] + d)) + "/" + n == (a + b) + (y + ['/'] + (d + "/" + n))
  {
  }

  lemma LeadingSlash(p: string)
    requires |p| > 0 && p[0] == '/'
    ensures p == ['/'] + p[1..]
  {
  }

  /** What follows the year: the fixed-width month, day and hour, then the object name. */
  lemma AfterYearInjective(a: DateTime, na: string, b: DateTime, nb: string)
    requires Valid(a) && Valid(b)
    requires PathAfterYear(a)[1..] + "/" + na == PathAfterYear(b)[1..] + "/" + nb
    ensures a.month == b.month && a.day == b.day && a.hour == b.hour && na == nb
  {
    var pa, pb := PathAfterYear(a), PathAfterYear(b);
    assert |pa[1..]| == |pb[1..]| == 23;
    assert |"/" + na| == |"/" + nb|;
    assert pa[1..] + "/" + na == pa[1..] + ("/" + na);
    assert pb[1..] + "/" + nb == pb[1..] + ("/" + nb);
    SplitAtSameLength(pa[1..], "/" + na, pb[1..], "/" + nb);
    assert pa[7..9] == pa[1..][6..8] && pb[7..9] == pb[1..][6..8];
    assert pa[14..16] == pa[1..][13..15] && pb[14..16] == pb[1..][13..15];
    assert pa[22..24] == pa[1..][21..23] && pb[22..24] == pb[1..][21..23];
    assert na == ("/" + na)[1..];
  }

  lemma ObjectNameInjective(ta: string, pa: nat, oa: nat, tb: string, pb: nat, ob: nat)
    requires ObjectName(ta, pa, oa) == ObjectName(tb, pb, ob)
    ensures ta == tb && pa == pb && oa == ob
  {
    var na, nb := ObjectName(ta, pa, oa), ObjectName(tb, pb, ob);
    var sa, sb := NatToString(pa), NatToString(pb);
    var fa, fb := NatToString(oa), NatToString(ob);
    assert na[..|na| - 5] == (ta + ['-'] + sa) + ['-'] + fa;
    assert nb[..|nb| - 5] == (tb + ['-'] + sb) + ['-'] + fb;
    DigitsHaveNo('-', sa);
    DigitsHaveNo('-', sb);
    DigitsHaveNo('-', fa);
    DigitsHaveNo('-', fb);
    SplitLast('-', ta + ['-'] + sa, fa, tb + ['-'] + sb, fb);
    SplitLast('-', ta, sa, tb, sb);
    NatToStringInjective(pa, pb);
    NatToStringInjective(oa, ob);
  }

  /** `datetime.strptime(message['timestamp'], "%Y-%m-%dT%H:%M:%SZ")`. */
  function MessageTimestamp(message: Json.Object): (r: Result<DateTime, Failure>)
    ensures r.Ok? ==> Valid(r.value)
    ensures r.Ok? <==> "timestamp" in message && message["timestamp"].Str?
                       && Parse(message["timestamp"].s).Some?
    ensures r.Ok? ==> Parse(message["timestamp"].s) == Some(r.value)
    ensures r.Err? ==> r.error == (if "timestamp" in message then MalformedTimestamp else MissingTimestamp)
  {
    if "timestamp" !in message then Err(MissingTimestamp)
    else match message["timestamp"]
      case Str(s) => (match Parse(s) case Some(t) => Ok(t) case None => Err(MalformedTimestamp))
      case _ => Err(MalformedTimestamp)
  }

  /**
   * Everything the loop body does for one record before the put, as a value: the record
   * prepares exactly when its value decodes to an object with a parseable timestamp; the
   * put then goes to the key derived from that timestamp and the record's coordinates, and
   * its body is the message re-encoded by `json.dumps`, which decodes to the same message.
   * Otherwise the error is the decoding's or the timestamp's.
   */
  function Prepare(r: Record): (res: Result<PutRequest, Failure>)
    ensures res.Ok? ==> Json.Loads(r.value).Some? && MessageTimestamp(Json.Loads(r.value).value).Ok?
    ensures Json.Loads(r.value).Some? && MessageTimestamp(Json.Loads(r.value).value).Ok? ==> res.Ok?
    ensures res.Ok? ==> var message := Json.Loads(r.value).value;
      && res.value.key == S3Key(MessageTimestamp(message).value, r.topic, r.partition, r.offset)
      && res.value.body == Json.Dumps(message)
      && Json.Loads(res.value.body) == Json.Loads(r.value)
    ensures Json.Loads(r.value).None? ==> res == Err(UndecodableValue)
    ensures Json.Loads(r.value).Some? && res.Err? ==> res.error == MessageTimestamp(Json.Loads(r.value).value).error
    ensures res.Err? && res.error == UndecodableValue <==> Json.Loads(r.value).None?
    ensures res.Err? ==> res.error != StoreFailure
  {
    match Json.Loads(r.value)
    case None => Err(UndecodableValue)
    case Some(message) =>
      match MessageTimestamp(message)
      case Err(f) => Err(f)
      case Ok(t) => Ok(PutRequest(S3Key(t, r.topic, r.partition, r.offset), Json.Dumps(message)))
  }

  predicate AllPrepared(rs: seq<Record>) {
    forall j :: 0 <= j < |rs| ==> Prepare(rs[j]).Ok?
  }

  function Requests(rs: seq<Record>): (ws: seq<PutRequest>)
    requires AllPrepared(rs)
    ensures |ws| == |rs| && forall j :: 0 <= j < |rs| ==> ws[j] == Prepare(rs[j]).value
  {
    seq(|rs|, j requires 0 <= j < |rs| && AllPrepared(rs) => Prepare(rs[j]).value)
  }

  /** The store after a sequence of puts, in order: later puts to a key overwrite earlier ones. */
  function Apply(m: map<string, Json.Text>, ws: seq<PutRequest>): (r: map<string, Json.Text>)
    ensures m.Keys <= r.Keys
    ensures ws != [] ==> ws[|ws| - 1].key in r && r[ws[|ws| - 1].key] == ws[|ws| - 1].body
  {
    if ws == [] then m
    else
      var last := ws[|ws| - 1];
      Apply(m, ws[..|ws| - 1])[last.key := last.body]
  }

  /** Solver aid: one more put updates its key. */
  lemma ApplySnoc(m: map<string, Json.Text>, ws: seq<PutRequest>, w: PutRequest)
    ensures Apply(m, ws + [w]) == Apply(m, ws)[w.key := w.body]
  {
    assert (ws + [w])[..|ws|] == ws;
  }

  /** Puts replace whole entries: the result is the old store overridden by the puts alone. */
  lemma {:induction false} ApplyOverrides(m: map<string, Json.Text>, n: map<string, Json.Text>, ws: seq<PutRequest>)
    ensures Apply(m + n, ws) == m + Apply(n, ws)
  {
    if ws != [] {
      ApplyOverrides(m, n, ws[..|ws| - 1]);
    }
  }

  /** Replaying a batch of puts changes nothing: redelivery is an idempotent overwrite. */
  lemma ReplayIdempotent(m: map<string, Json.Text>, ws: seq<PutRequest>)
    ensures Apply(Apply(m, ws), ws) == Apply(m, ws)
  {
    var written := Apply(map[], ws);
    ApplyOverrides(m, map[], ws);
    assert m + map[] == m;
    ApplyOverrides(Apply(m, ws), map[], ws);
    assert Apply(m, ws) + map[] == Apply(m, ws);
    assert (m + written) + written == m + written;
  }

  /** After the puts, a key that was written last by put `j` holds put `j`'s body. */
  lemma {:induction false} ApplyLastWrite(m: map<string, Json.Text>, ws: seq<PutRequest>, j: nat)
    requires j < |ws|
    requires forall i :: j < i < |ws| ==> ws[i].key != ws[j].key
    ensures ws[j].key in Apply(m, ws) && Apply(m, ws)[ws[j].key] == ws[j].body
  {
    if j < |ws| - 1 {
      ApplyLastWrite(m, ws[..|ws| - 1], j);
    }
  }

  /** Keys no put touches keep their old entries. */
  lemma {:induction false} ApplyUntouched(m: map<string, Json.Text>, ws: seq<PutRequest>, k: string)
    requires forall i :: 0 <= i < |ws| ==> ws[i].key != k
    ensures (k in Apply(m, ws) <==> k in m) && (k in m ==> Apply(m, ws)[k] == m[k])
  {
    if ws != [] {
      ApplyUntouched(m, ws[..|ws| - 1], k);
    }
  }

  /**
   * A batch of distinct records (no two share topic, partition and offset), all of which
   * prepare, leaves every record's message in the store under its key, re-encoded: the
   * stored text decodes to the record's own message.
   */
  lemma StoredBodies(m: map<string, Json.Text>, rs: seq<Record>, j: nat)
    requires AllPrepared(rs) && j < |rs|
    requires forall a, b :: 0 <= a < b < |rs| ==>
      (rs[a].topic, rs[a].partition, rs[a].offset) != (rs[b].topic, rs[b].partition, rs[b].offset)
    ensures var ws := Requests(rs);
      && ws[j].key in Apply(m, ws)
      && Apply(m, ws)[ws[j].key] == Json.Dumps(Json.Loads(rs[j].value).value)
      && Json.Loads(Apply(m, ws)[ws[j].key]) == Json.Loads(rs[j].value)
  {
    var ws := Requests(rs);
    forall i | j < i < |ws| ensures ws[i].key != ws[j].key {
      var ti := MessageTimestamp(Json.Loads(rs[i].value).value).value;
      var tj := MessageTimestamp(Json.Loads(rs[j].value).value).value;
      S3KeyInjective(ti, rs[i].topic, rs[i].partition, rs[i].offset, tj, rs[j].topic, rs[j].partition, rs[j].offset);
    }
    ApplyLastWrite(m, ws, j);
  }

  /** One more prepared record adds its put request at the end. */
  lemma RequestsSnoc(rs: seq<Record>, i: nat)
    requires i < |rs| && AllPrepared(rs[..i]) && Prepare(rs[i]).Ok?
    ensures AllPrepared(rs[..i + 1])
    ensures Requests(rs[..i + 1]) == Requests(rs[..i]) + [Prepare(rs[i]).value]
  {
    var a, b := rs[..i + 1], rs[..i];
    forall j | 0 <= j < i + 1 ensures Prepare(a[j]).Ok? {
      if j < i { assert a[j] == b[j]; }
    }
    var wa, wb := Requests(a), Requests(b);
    forall j | 0 <= j < i + 1 ensures wa[j] == (wb + [Prepare(rs[i]).value])[j] {
      if j < i { assert a[j] == b[j]; }
    }
  }

  /** The first `i` records were prepared and put without a fault, giving the puts `written`. */
  predicate Done(rs: seq<Record>, faults: seq<bool>, i: nat, written: seq<PutRequest>) {
    && i <= |rs|
    && AllPrepared(rs[..i])
    && NoFaultBefore(faults, i)
    && written == Requests(rs[..i])
  }

  /** One more record prepared and put without a fault. */
  lemma DoneStep(rs: seq<Record>, faults: seq<bool>, i: nat, written: seq<PutRequest>)
    requires Done(rs, faults, i, written) && i < |rs|
    requires Prepare(rs[i]).Ok? && !FaultAt(faults, i)
    ensures Done(rs, faults, i + 1, written + [Prepare(rs[i]).value])
  {
    RequestsSnoc(rs, i);
  }

  /** `datetime.utcnow().isoformat()` for a reading without microseconds. */
  function IsoFormat(t: DateTime): (s: string)
    requires Valid(t)
    ensures |s| == 19 && Parse(s + "Z") == Some(t)
  {
    ParseFormat(t);
    assert Format(t)[..19] + "Z" == Format(t);
    Format(t)[..19]
  }

  /** The success response for a batch of `n` records, produced at clock reading `now`. */
  function SuccessResponse(n: nat, now: DateTime): (r: Response)
    requires Valid(now)
    ensures r.statusCode == 200
    ensures Json.Loads(r.body) == Some(map[
      "message" := Json.Str("Successfully processed " + NatToString(n) + " records"),
      "timestamp" := Json.Str(IsoFormat(now))])
  {
    Response(200, Json.Dumps(map[
      "message" := Json.Str("Successfully processed " + NatToString(n) + " records"),
      "timestamp" := Json.Str(IsoFormat(now))]))
  }

  /** Whether the `n`-th upcoming put is scripted to fail. */
  predicate FaultAt(faults: seq<bool>, n: nat) { n < |faults| && faults[n] }

  /** The fault script once `n` puts have been made. */
  function Drop(faults: seq<bool>, n: nat): seq<bool>
  {
    if n <= |faults| then faults[n..] else []
  }

  /** None of the first `n` puts is scripted to fail. */
  predicate NoFaultBefore(faults: seq<bool>, n: nat) {
    forall j :: 0 <= j < n ==> !FaultAt(faults, j)
  }

  /** Once `n` puts have been made, the next one is the `n`-th of the script, and one more put leaves `n + 1` made. */
  lemma DropStep(faults: seq<bool>, n: nat)
    ensures FaultAt(Drop(faults, n), 0) == FaultAt(faults, n)
    ensures Drop(Drop(faults, n), 1) == Drop(faults, n + 1)
  {
  }

  /**
   * The S3 bucket as an in-memory store: `objects` maps keys to bodies, and `faults` is
   * the environment's script for the coming `put_object` calls (the n-th call raises when
   * `faults[n]` is true; calls past the end of the script succeed).
   */
  class ObjectStore {
    var objects: map<string, Json.Text>
    var faults: seq<bool>

    constructor (objects: map<string, Json.Text>, faults: seq<bool>)
      ensures this.objects == objects && this.faults == faults
    {
      this.objects := objects;
      this.faults := faults;
    }

    /** `put_object(Key=key, Body=body)`: stores the body under the key unless the call fails. */
    method Put(key: string, body: Json.Text) returns (ok: bool)
      modifies this
      ensures ok == !FaultAt(old(faults), 0)
      ensures faults == Drop(old(faults), 1)
      ensures objects == if ok then old(objects)[key := body] else old(objects)
    {
      ok := !FaultAt(faults, 0);
      faults := Drop(faults, 1);
      if ok {
        objects := objects[key := body];
      }
    }
  }

  /** What handling a batch leaves behind: the result and the store's contents and fault script. */
  datatype Effect = Effect(result: Result<Response, HandlerError>, objects: map<string, Json.Text>, faults: seq<bool>)

  /**
   * The handler from record `i` on, given the store's contents and fault script at that
   * point: prepare the record, put it, go on with the next; the first failure ends the batch.
   */
  function Run(objects: map<string, Json.Text>, faults: seq<bool>, rs: seq<Record>, i: nat, now: DateTime): (e: Effect)
    requires i <= |rs| && Valid(now)
    ensures e.result.Ok? ==> e.result.value == SuccessResponse(|rs|, now)
    ensures e.result.Err? ==> i <= e.result.error.index < |rs|
    decreases |rs| - i
  {
    if i == |rs| then Effect(Ok(SuccessResponse(|rs|, now)), objects, faults)
    else
      match Prepare(rs[i])
      case Err(failure) => Effect(Err(HandlerError(failure, i)), objects, faults)
      case Ok(w) =>
        if FaultAt(faults, 0) then Effect(Err(HandlerError(StoreFailure, i)), objects, Drop(faults, 1))
        else Run(objects[w.key := w.body], Drop(faults, 1), rs, i + 1, now)
  }

  /** From a point reached without failure, the batch succeeds exactly when every record prepares and no put faults. */
  lemma {:induction false} RunSucceedsIff(m: map<string, Json.Text>, f: seq<bool>, rs: seq<Record>, i: nat,
                                          written: seq<PutRequest>, now: DateTime)
    requires Valid(now) && Done(rs, f, i, written)
    ensures Run(Apply(m, written), Drop(f, i), rs, i, now).result.Ok? <==> AllPrepared(rs) && NoFaultBefore(f, |rs|)
    decreases |rs| - i
  {
    if i == |rs| {
      assert rs[..i] == rs;
    } else if Prepare(rs[i]).Err? {
      assert !AllPrepared(rs);
    } else if FaultAt(f, i) {
      assert !NoFaultBefore(f, |rs|);
      DropStep(f, i);
    } else {
      var w := Prepare(rs[i]).value;
      DropStep(f, i);
      DoneStep(rs, f, i, written);
      ApplySnoc(m, written, w);
      RunSucceedsIff(m, f, rs, i + 1, written + [w], now);
    }
  }

  /** A successful batch has applied every record's put, in order, and reports the record count. */
  lemma {:induction false} RunSuccess(m: map<string, Json.Text>, f: seq<bool>, rs: seq<Record>, i: nat,
                                      written: seq<PutRequest>, now: DateTime)
    requires Valid(now) && Done(rs, f, i, written)
    ensures var e := Run(Apply(m, written), Drop(f, i), rs, i, now);
      e.result.Ok? ==> (
        && AllPrepared(rs)
        && e.result.value == SuccessResponse(|rs|, now)
        && e.objects == Apply(m, Requests(rs))
        && e.faults == Drop(f, |rs|))
    decreases |rs| - i
  {
    if i == |rs| {
      assert rs[..i] == rs;
    } else if Prepare(rs[i]).Ok? && !FaultAt(f, i) {
      var w := Prepare(rs[i]).value;
      DropStep(f, i);
      DoneStep(rs, f, i, written);
      ApplySnoc(m, written, w);
      RunSuccess(m, f, rs, i + 1, written + [w], now);
    } else {
      DropStep(f, i);
    }
  }

  /**
   * A failed batch names the first record that failed: the records before it were put,
   * the failing one was not stored, and no later record was attempted.
   */
  lemma {:induction false} RunFailure(m: map<string, Json.Text>, f: seq<bool>, rs: seq<Record>, i: nat,
                                      written: seq<PutRequest>, now: DateTime)
    requires Valid(now) && Done(rs, f, i, written)
    ensures var e := Run(Apply(m, written), Drop(f, i), rs, i, now);
      e.result.Err? ==> FailedAt(m, f, rs, e.result.error, e.objects, e.faults)
    decreases |rs| - i
  {
    if i == |rs| {
    } else if Prepare(rs[i]).Err? {
      StopsAt(m, f, rs, i, written, HandlerError(Prepare(rs[i]).error, i), Apply(m, written), Drop(f, i));
    } else if FaultAt(f, i) {
      DropStep(f, i);
      StopsAt(m, f, rs, i, written, HandlerError(StoreFailure, i), Apply(m, written), Drop(f, i + 1));
    } else {
      var w := Prepare(rs[i]).value;
      DropStep(f, i);
      DoneStep(rs, f, i, written);
      ApplySnoc(m, written, w);
      RunFailure(m, f, rs, i + 1, written + [w], now);
    }
  }

  /** The batch stopping at record `i`, reached without failure, is a failure at `i`. */
  lemma StopsAt(m: map<string, Json.Text>, f: seq<bool>, rs: seq<Record>, i: nat, written: seq<PutRequest>,
                error: HandlerError, objects: map<string, Json.Text>, faults: seq<bool>)
    requires Done(rs, f, i, written) && i < |rs| && error.index == i && objects == Apply(m, written)
    requires error.failure == StoreFailure ==> Prepare(rs[i]).Ok? && FaultAt(f, i) && faults == Drop(f, i + 1)
    requires error.failure != StoreFailure ==> Prepare(rs[i]) == Err(error.failure) && faults == Drop(f, i)
    ensures FailedAt(m, f, rs, error, objects, faults)
  {
  }

  /**
   * The state after the batch failed with `error`, starting from contents `m` and fault
   * script `f`: every record before the failing one was prepared and put; a failing put
   * consumed its scripted fault; a record that did not prepare was not put.
   */
  predicate FailedAt(m: map<string, Json.Text>, f: seq<bool>, rs: seq<Record>, error: HandlerError,
                     objects: map<string, Json.Text>, faults: seq<bool>)
  {
    var k := error.index;
    && k < |rs|
    && AllPrepared(rs[..k])
    && NoFaultBefore(f, k)
    && objects == Apply(m, Requests(rs[..k]))
    && (error.failure == StoreFailure ==> Prepare(rs[k]).Ok? && FaultAt(f, k) && faults == Drop(f, k + 1))
    && (error.failure != StoreFailure ==> Prepare(rs[k]) == Err(error.failure) && faults == Drop(f, k))
  }

  /**
   * `handler(event, context)` on a store with contents `m` and fault script `f`: the batch
   * succeeds exactly when every record prepares and every put succeeds, and then every put
   * has been applied in record order and the response reports the count; otherwise the
   * error names the first failing record, the records before it stay stored, later ones are
   * not attempted, and nothing is retried.
   */
  lemma HandlerOutcome(m: map<string, Json.Text>, f: seq<bool>, rs: seq<Record>, now: DateTime)
    requires Valid(now)
    ensures var e := Run(m, f, rs, 0, now);
      && (e.result.Ok? <==> AllPrepared(rs) && NoFaultBefore(f, |rs|))
      && (e.result.Ok? ==> (
            && AllPrepared(rs)
            && e.result.value == SuccessResponse(|rs|, now)
            && e.objects == Apply(m, Requests(rs))
            && e.faults == Drop(f, |rs|)))
      && (e.result.Err? ==> FailedAt(m, f, rs, e.result.error, e.objects, e.faults))
  {
    assert rs[..0] == [];
    assert Done(rs, f, 0, []);
    assert Apply(m, []) == m && Drop(f, 0) == f;
    RunSucceedsIff(m, f, rs, 0, [], now);
    RunSuccess(m, f, rs, 0, [], now);
    RunFailure(m, f, rs, 0, [], now);
  }

  /**
   * `handler(event, context)`: one put per record, in record order, stopping at the first
   * failure, which is raised to the caller. What it returns and leaves in the store is
   * `Run` from the first record; `HandlerOutcome` states what that means.
   */
  method Handler(store: ObjectStore, event: LambdaEvent, now: DateTime) returns (r: Result<Response, HandlerError>)
    requires Valid(now)
    modifies store
    ensures Effect(r, store.objects, store.faults) == Run(old(store.objects), old(store.faults), event.records, 0, now)
  {
    var rs := event.records;
    ghost var m, f := store.objects, store.faults;
    var i := 0;
    while i < |rs|
      invariant i <= |rs|
      invariant Run(store.objects, store.faults, rs, i, now) == Run(m, f, rs, 0, now)
    {
      var prepared := Prepare(rs[i]);
      if prepared.Err? {
        return Err(HandlerError(prepared.error, i));
      }
      var ok := store.Put(prepared.value.key, prepared.value.body);
      if !ok {
        return Err(HandlerError(StoreFailure, i));
      }
      i := i + 1;
    }
    r := Ok(SuccessResponse(|rs|, now));
  }
}
