/**
 * The asynchronous query runner that five scripts repeat with small variations: submit a
 * statement, poll its execution state until it is SUCCEEDED, FAILED or CANCELLED, then
 * either turn the result rows into a table (first row as header, the rest as data) or
 * report the failure. The query service is a finite trace of what the calls return.
 */
module QueryRunner {
  import opened Wrappers

  datatype QueryState = Queued | Running | Succeeded | Failed | Cancelled {
    /** The state's name as the service reports it. */
    function Name(): string {
      match this
      case Queued => "QUEUED"
      case Running => "RUNNING"
      case Succeeded => "SUCCEEDED"
      case Failed => "FAILED"
      case Cancelled => "CANCELLED"
    }

    predicate IsTerminal() { this == Succeeded || this == Failed || this == Cancelled }
  }

  /** One `get_query_execution` call: the reported state and `StateChangeReason`, or an exception. */
  datatype Poll = Status(state: QueryState, reason: Option<string>) | PollError(message: string)

  /** A result cell; Athena's row cells carry `VarCharValue` only, and omit it for NULL. */
  datatype Cell = Cell(varChar: Option<string>, columnLabel: Option<string>)

  type Row = seq<Cell>

  /** `ResultSet`: its `Rows` and the labels of `ResultSetMetadata.ColumnInfo`, either possibly absent. */
  datatype ResultSet = ResultSet(rows: Option<seq<Row>>, columnInfo: Option<seq<string>>)

  /** `get_query_results`: a response with or without `ResultSet`. */
  datatype QueryResults = QueryResults(resultSet: Option<ResultSet>)

  /**
   * What the service does for one submitted statement: `start` is the execution id or the
   * exception `start_query_execution` raises, `polls` the successive `get_query_execution`
   * answers, and `results` what `get_query_results` returns or raises.
   */
  datatype Engine = Engine(start: Result<string, string>, polls: seq<Poll>, results: Result<QueryResults, string>)

  /** The arguments of `start_query_execution`: statement, database, output location and, when given, the workgroup. */
  datatype StartRequest = StartRequest(queryString: string, database: string, outputLocation: string, workGroup: Option<string>)

  /** Why a run ended in an exception. */
  datatype Fault =
    | StartFailed(message: string)
    | PollFailed(message: string)
    | FetchFailed(message: string)
    | MissingField(name: string)   // a `KeyError` on a subscript
    | NoHeaderRow                  // `Rows[0]` on an empty list

  /** `str(e)` for the exception: the service's message, or the missing key in quotes. */
  function Describe(f: Fault): (s: string)
    ensures f.StartFailed? || f.PollFailed? || f.FetchFailed? ==> s == f.message
    ensures f.MissingField? ==> |s| == |f.name| + 2 && s[0] == '\'' && s[|s| - 1] == '\'' && s[1..|s| - 1] == f.name
  {
    match f
    case StartFailed(m) => m
    case PollFailed(m) => m
    case FetchFailed(m) => m
    case MissingField(name) => "'" + name + "'"
    case NoHeaderRow => "list index out of range"
  }

  /** Where the column names come from. */
  datatype HeaderSource =
    | CellLabels     // `col['Label']` for the cells of `Rows[0]`
    | CellValues     // `col['VarCharValue']` for the cells of `Rows[0]`
    | ColumnInfo     // the labels of `ResultSetMetadata.ColumnInfo`

  /**
   * What a variant does once the statement has succeeded: nothing (`StatusOnly`), or fetch
   * the results, take the header from `header`, show missing values as `missing`, and, when
   * `guarded`, report "no results" instead of failing when `ResultSet` or `Rows` is absent.
   */
  datatype Extraction = StatusOnly | Fetch(header: HeaderSource, missing: string, guarded: bool)

  /** The seconds slept after each non-terminal observation, and the extraction. */
  datatype RunnerConfig = RunnerConfig(delay: nat, extraction: Extraction)

  datatype Outcome =
    | Table(header: seq<string>, rows: seq<seq<string>>)
    | NoResults
    | Completed
    | Unsuccessful(state: QueryState, reason: string)
    | Raised(fault: Fault)

  /** An observation that ends the poll loop: a terminal state, or an exception out of the call. */
  predicate IsExit(p: Poll) {
    p.PollError? || p.state.IsTerminal()
  }

  predicate HasExit(polls: seq<Poll>) {
    exists j :: 0 <= j < |polls| && IsExit(polls[j])
  }

  /** The position of the first observation that ends the loop. */
  function FirstExit(polls: seq<Poll>): (k: nat)
    requires HasExit(polls)
    ensures k < |polls| && IsExit(polls[k])
    ensures forall j :: 0 <= j < k ==> !IsExit(polls[j])
  {
    if IsExit(polls[0]) then 0
    else
      var j :| 0 <= j < |polls| && IsExit(polls[j]);
      assert polls[1..][j - 1] == polls[j];
      var k := FirstExit(polls[1..]);
      assert forall i :: 1 <= i < k + 1 ==> polls[i] == polls[1..][i - 1];
      k + 1
  }

  /**
   * The `while True` loop: observe the state, stop on an exit, otherwise sleep `delay`
   * seconds and observe again. Returns how many observations were non-terminal and the
   * total time slept.
   */
  method AwaitTerminal(polls: seq<Poll>, delay: nat) returns (k: nat, slept: nat)
    requires HasExit(polls)
    ensures k == FirstExit(polls)
    ensures slept == k * delay
  {
    k, slept := 0, 0;
    while !IsExit(polls[k])
      invariant k <= FirstExit(polls)
      invariant slept == k * delay
      decreases FirstExit(polls) - k
    {
      MoreDelay(k, delay);
      slept := slept + delay;
      k := k + 1;
    }
  }

  /** One more wait adds one delay. */
  lemma MoreDelay(k: nat, delay: nat)
    ensures (k + 1) * delay == k * delay + delay
  {
  }

  /** `[field.get('VarCharValue', missing) for field in row['Data']]`. */
  function Values(row: Row, missing: string): (vs: seq<string>)
    ensures |vs| == |row|
    ensures forall i :: 0 <= i < |row| ==> vs[i] == if row[i].varChar.Some? then row[i].varChar.value else missing
  {
    seq(|row|, i requires 0 <= i < |row| => row[i].varChar.GetOr(missing))
  }

  /** The data rows, `Rows[1:]`, as values: the header row is skipped, and an empty list stays empty. */
  function DataRows(rows: seq<Row>, missing: string): (t: seq<seq<string>>)
    ensures |t| == if rows == [] then 0 else |rows| - 1
    ensures forall i :: 0 <= i < |t| ==> t[i] == Values(rows[i + 1], missing)
  {
    if rows == [] then [] else seq(|rows| - 1, i requires 0 <= i < |rows| - 1 => Values(rows[i + 1], missing))
  }

  /** The named field of a cell, as a subscript reads it. */
  function CellField(c: Cell, source: HeaderSource): Option<string> {
    if source == CellLabels then c.columnLabel else c.varChar
  }

  /** `[col[field] for col in row]`: every cell must carry the field, or the subscript raises. */
  function CellHeader(row: Row, source: HeaderSource): (r: Result<seq<string>, Fault>)
    ensures r.Ok? <==> forall i :: 0 <= i < |row| ==> CellField(row[i], source).Some?
    ensures r.Ok? ==> |r.value| == |row| && forall i :: 0 <= i < |row| ==> r.value[i] == CellField(row[i], source).value
    ensures r.Err? ==> r.error == MissingField(if source == CellLabels then "Label" else "VarCharValue")
  {
    if forall i :: 0 <= i < |row| ==> CellField(row[i], source).Some? then
      Ok(seq(|row|, i requires 0 <= i < |row| && CellField(row[i], source).Some? => CellField(row[i], source).value))
    else
      Err(MissingField(if source == CellLabels then "Label" else "VarCharValue"))
  }

  /** The column names: from the first row's cells, or from the result metadata. */
  function Header(rs: ResultSet, source: HeaderSource): (r: Result<seq<string>, Fault>)
    ensures source != ColumnInfo && rs.rows.Some? && rs.rows.value != [] ==> r == CellHeader(rs.rows.value[0], source)
    ensures source != ColumnInfo && rs.rows.Some? && rs.rows.value == [] ==> r == Err(NoHeaderRow)
    ensures source == ColumnInfo ==> (r.Ok? <==> rs.columnInfo.Some?) && (r.Ok? ==> r.value == rs.columnInfo.value)
  {
    if source == ColumnInfo then
      match rs.columnInfo
      case None => Err(MissingField("ResultSetMetadata"))
      case Some(labels) => Ok(labels)
    else
      match rs.rows
      case None => Err(MissingField("Rows"))
      case Some(rows) => if rows == [] then Err(NoHeaderRow) else CellHeader(rows[0], source)
  }

  /** The table a successful run builds from the fetched results. */
  function Extract(qr: QueryResults, header: HeaderSource, missing: string, guarded: bool): (o: Outcome)
    ensures o.Table? ==> (
      && qr.resultSet.Some? && qr.resultSet.value.rows.Some?
      && Header(qr.resultSet.value, header) == Ok(o.header)
      && o.rows == DataRows(qr.resultSet.value.rows.value, missing))
    ensures o.NoResults? <==> guarded && (qr.resultSet.None? || qr.resultSet.value.rows.None?)
    ensures qr.resultSet.None? && !guarded ==> o == Raised(MissingField("ResultSet"))
    ensures qr.resultSet.Some? && (qr.resultSet.value.rows.Some? || !guarded) ==>
      match Header(qr.resultSet.value, header)
      case Err(f) => o == Raised(f)
      case Ok(h) => o == if qr.resultSet.value.rows.None? then Raised(MissingField("Rows"))
                         else Table(h, DataRows(qr.resultSet.value.rows.value, missing))
    ensures o.Table? || o.NoResults? || o.Raised?
  {
    match qr.resultSet
    case None => if guarded then NoResults else Raised(MissingField("ResultSet"))
    case Some(rs) =>
      if guarded && rs.rows.None? then NoResults
      else
        match Header(rs, header)
        case Err(f) => Raised(f)
        case Ok(h) =>
          match rs.rows
          case None => Raised(MissingField("Rows"))
          case Some(rows) => Table(h, DataRows(rows, missing))
  }

  /**
   * The outcome of one run, as a function of what the service does: the start fails, or the
   * loop stops at the first exit, which is an exception, a failure (reporting the engine's
   * reason, "Unknown error" when it gives none) or a success followed by the extraction.
   */
  function Expected(engine: Engine, config: RunnerConfig): (o: Outcome)
    requires engine.start.Ok? ==> HasExit(engine.polls)
    ensures engine.start.Err? ==> o == Raised(StartFailed(engine.start.error))
    ensures engine.start.Ok? ==> var p := engine.polls[FirstExit(engine.polls)];
      && (p.PollError? ==> o == Raised(PollFailed(p.message)))
      && (p.Status? && p.state != Succeeded ==> o == Unsuccessful(p.state, p.reason.GetOr("Unknown error")))
      && (p.Status? && p.state == Succeeded ==> !o.Unsuccessful?)
      && (p.Status? && p.state == Succeeded && config.extraction.Fetch? ==>
            o == match engine.results
                 case Err(m) => Raised(FetchFailed(m))
                 case Ok(qr) => Extract(qr, config.extraction.header, config.extraction.missing, config.extraction.guarded))
    ensures o.Unsuccessful? ==> o.state == Failed || o.state == Cancelled
    ensures o.Completed? <==> (
      && engine.start.Ok? && config.extraction.StatusOnly?
      && engine.polls[FirstExit(engine.polls)].Status? && engine.polls[FirstExit(engine.polls)].state == Succeeded)
    ensures (o.Table? || o.NoResults?) ==> (
      && config.extraction.Fetch? && engine.results.Ok?
      && o == Extract(engine.results.value, config.extraction.header, config.extraction.missing, config.extraction.guarded))
  {
    match engine.start
    case Err(m) => Raised(StartFailed(m))
    case Ok(_) =>
      match engine.polls[FirstExit(engine.polls)]
      case PollError(m) => Raised(PollFailed(m))
      case Status(state, reason) =>
        if state != Succeeded then Unsuccessful(state, reason.GetOr("Unknown error"))
        else
          match config.extraction
          case StatusOnly => Completed
          case Fetch(header, missing, guarded) =>
            match engine.results
            case Err(m) => Raised(FetchFailed(m))
            case Ok(qr) => Extract(qr, header, missing, guarded)
  }

  /** One run: submit, wait for the first exit, then report or extract. */
  method RunQuery(engine: Engine, config: RunnerConfig) returns (outcome: Outcome, slept: nat)
    requires engine.start.Ok? ==> HasExit(engine.polls)
    ensures outcome == Expected(engine, config)
    ensures slept == if engine.start.Ok? then FirstExit(engine.polls) * config.delay else 0
  {
    slept := 0;
    if engine.start.Err? {
      return Raised(StartFailed(engine.start.error)), 0;
    }
    var k;
    k, slept := AwaitTerminal(engine.polls, config.delay);
    var p := engine.polls[k];
    if p.PollError? {
      outcome := Raised(PollFailed(p.message));
    } else if p.state != Succeeded {
      outcome := Unsuccessful(p.state, p.reason.GetOr("Unknown error"));
    } else if config.extraction.StatusOnly? {
      outcome := Completed;
    } else if engine.results.Err? {
      outcome := Raised(FetchFailed(engine.results.error));
    } else {
      var ex := config.extraction;
      outcome := Extract(engine.results.value, ex.header, ex.missing, ex.guarded);
    }
  }

  /**
   * With row cells as Athena returns them (no `Label`), taking the header from the cells'
   * labels raises as soon as the header row has a cell.
   */
  lemma LabelHeaderRaises(rows: seq<Row>, columnInfo: Option<seq<string>>, missing: string, guarded: bool)
    requires rows != [] && rows[0] != [] && rows[0][0].columnLabel.None?
    ensures Extract(QueryResults(Some(ResultSet(Some(rows), columnInfo))), CellLabels, missing, guarded) == Raised(MissingField("Label"))
  {
  }

  /** The example trace: two non-terminal observations, then success after two delays. */
  lemma ExampleTrace(delay: nat, qr: QueryResults, missing: string)
    ensures var e := Engine(Ok("id"), [Status(Queued, None), Status(Running, None), Status(Succeeded, None)], Ok(qr));
      HasExit(e.polls) && FirstExit(e.polls) == 2
      && Expected(e, RunnerConfig(delay, Fetch(CellValues, missing, true))) == Extract(qr, CellValues, missing, true)
  {
    var polls := [Status(Queued, None), Status(Running, None), Status(Succeeded, None)];
    assert IsExit(polls[2]);
  }
}
