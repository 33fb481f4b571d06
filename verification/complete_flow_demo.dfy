/**
 * The live demo (`demo/complete_flow_demo.py`): it invokes the ingestion function five
 * times with a generated event, each invocation reported on its own, lists the first
 * stored objects and queries the newest events with a two-second poll.
 */
module CompleteFlowDemo {
  import opened Wrappers
  import opened Strings
  import opened ParkingEvents
  import Json
  import opened Ingestion
  import opened QueryRunner
  import opened Config
  import CompleteFlowTest

  /** The demo waits and tabulates exactly as the end-to-end test does. */
  const QueryConfig := CompleteFlowTest.QueryConfig

  const Invocations := 5

  /**
   * `test_lambda_direct()`: sends the one-record payload for `event` to the ingestion
   * function; true when the invocation returns and its response payload is JSON (of any
   * kind), false on any exception.
   */
  method TestLambdaDirect(event: Event, response: Result<Json.Text, string>)
    returns (ok: bool, functionName: string, payload: LambdaEvent)
    ensures functionName == LambdaFunction && payload == CompleteFlowTest.LambdaPayload(event)
    ensures ok <==> response.Ok? && Json.Parses(response.value)
  {
    functionName, payload := LambdaFunction, CompleteFlowTest.LambdaPayload(event);
    match response
    case Err(_) => ok := false;
    case Ok(body) => ok := Json.Parses(body);
  }

  /** The line logged for a statement that ends FAILED or CANCELLED: "Query " and the state in lower case. */
  function FailureLog(state: QueryState): (line: string)
    requires state == Failed || state == Cancelled
    ensures line == if state == Failed then "Query failed" else "Query cancelled"
  {
    "Query " + Lower(state.Name())
  }

  /**
   * `run_athena_query()`: waits for the statement, sleeping two seconds after each
   * non-terminal observation; on failure logs the state and stops, with no retry; an
   * exception is logged with its message.
   */
  method RunAthenaQuery(engine: Engine)
    returns (outcome: Outcome, log: Option<string>, request: StartRequest, slept: nat)
    requires engine.start.Ok? ==> HasExit(engine.polls)
    ensures request == StartRequest(CompleteFlowTest.NewestEventsQuery, CatalogDatabase, ResultsLocation, Some("primary"))
    ensures slept == if engine.start.Ok? then 2 * FirstExit(engine.polls) else 0
    ensures outcome == Expected(engine, QueryConfig)
    ensures outcome.Unsuccessful? ==> log == Some(FailureLog(outcome.state))
    ensures outcome.Raised? ==> log == Some("Error running Athena query: " + Describe(outcome.fault))
    ensures outcome.Table? || outcome.NoResults? ==> log == None
  {
    request := StartRequest(CompleteFlowTest.NewestEventsQuery, CatalogDatabase, ResultsLocation, Some("primary"));
    outcome, slept := RunQuery(engine, QueryConfig);
    match outcome
    case Unsuccessful(state, _) => log := Some(FailureLog(state));
    case Raised(fault) => log := Some("Error running Athena query: " + Describe(fault));
    case _ => log := None;
  }

  /**
   * `main()`: five invocations, each with its own event and its own response, whose
   * success flags depend on that response alone; then the listing and the query.
   */
  method RunDemo(events: seq<Event>, responses: seq<Result<Json.Text, string>>, listing: Option<seq<string>>,
                 engine: Engine)
    returns (successes: seq<bool>, payloads: seq<LambdaEvent>, inspected: seq<string>, outcome: Outcome)
    requires |events| == Invocations && |responses| == Invocations
    requires engine.start.Ok? ==> HasExit(engine.polls)
    ensures |successes| == Invocations && |payloads| == Invocations
    ensures forall i :: 0 <= i < Invocations ==>
      && (successes[i] <==> responses[i].Ok? && Json.Parses(responses[i].value))
      && payloads[i] == CompleteFlowTest.LambdaPayload(events[i])
    ensures inspected == CompleteFlowTest.InspectedKeys(listing)
    ensures outcome == Expected(engine, QueryConfig)
  {
    successes, payloads := [], [];
    for i := 0 to Invocations
      invariant |successes| == i && |payloads| == i
      invariant forall j :: 0 <= j < i ==>
        && (successes[j] <==> responses[j].Ok? && Json.Parses(responses[j].value))
        && payloads[j] == CompleteFlowTest.LambdaPayload(events[j])
    {
      var ok, _, payload := TestLambdaDirect(events[i], responses[i]);
      successes := successes + [ok];
      payloads := payloads + [payload];
    }
    inspected := CompleteFlowTest.InspectedKeys(listing);
    var log, request, slept;
    outcome, log, request, slept := RunAthenaQuery(engine);
  }
}
