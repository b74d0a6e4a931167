/**
 * 05_langgraph_foundation.py, example 6: `operation` (risky_operation)
 * catches its own exceptions and reports them in `status` and `error`;
 * route_by_status then sends the run to `success` or `error`, each of which
 * sets the final status and ends the run.
 */
module ErrorWorkflow {
  import opened Wrappers
  import opened Reducers
  import opened Graph

  /** The `result` field: the initial 0, or the quotient `100 / divisor`
      that the success path stores, kept exact instead of as a float. */
  datatype Quotient = Zero | HundredOver(divisor: int)

  datatype ErrorState = ErrorState(inputValue: int, result: Quotient, error: string, status: string)

  datatype ErrorUpdate = ErrorUpdate(inputValue: Option<int>, result: Option<Quotient>, error: Option<string>, status: Option<string>)

  function Apply(s: ErrorState, u: ErrorUpdate): ErrorState {
    ErrorState(
      Overwrite(s.inputValue, u.inputValue),
      Overwrite(s.result, u.result),
      Overwrite(s.error, u.error),
      Overwrite(s.status, u.status))
  }

  const NegativeMessage := "Negative numbers not allowed!"
  const ZeroDivisionMessage := "Cannot divide by zero"

  /** risky_operation: a negative input raises the ValueError, zero raises
      ZeroDivisionError, both caught into an "error" status; a positive
      input divides. `input_value` is never written. */
  function RiskyOperation(s: ErrorState): (u: ErrorUpdate)
    ensures u.inputValue.None? && u.result.Some? && u.error.Some? && u.status.Some?
    ensures u.status == Some("success") <==> s.inputValue > 0
    ensures u.status == Some("error") <==> s.inputValue <= 0
    ensures u.error == Some("") <==> s.inputValue > 0
    ensures s.inputValue <= 0 ==> u.result == Some(Zero)
  {
    if s.inputValue < 0 then ErrorUpdate(None, Some(Zero), Some(NegativeMessage), Some("error"))
    else if s.inputValue == 0 then ErrorUpdate(None, Some(Zero), Some(ZeroDivisionMessage), Some("error"))
    else ErrorUpdate(None, Some(HundredOver(s.inputValue)), Some(""), Some("success"))
  }

  /** handle_success */
  function HandleSuccess(s: ErrorState): ErrorUpdate {
    ErrorUpdate(None, None, None, Some("completed"))
  }

  /** handle_error */
  function HandleError(s: ErrorState): ErrorUpdate {
    ErrorUpdate(None, None, None, Some("failed"))
  }

  /** route_by_status: the stored status is the routing key. */
  function RouteByStatus(s: ErrorState): Option<string> {
    Some(s.status)
  }

  datatype Node = Operation | Success | Error

  const StatusRoutes: map<string, Target<Node>> := map["success" := To(Success), "error" := To(Error)]

  function Step(n: Node, s: ErrorState): Option<ErrorUpdate> {
    match n
    case Operation => Some(RiskyOperation(s))
    case Success => Some(HandleSuccess(s))
    case Error => Some(HandleError(s))
  }

  function Edges(n: Node): Edge<ErrorState, Node> {
    match n
    case Operation => Conditional(RouteByStatus, StatusRoutes)
    case Success => Direct(End)
    case Error => Direct(End)
  }

  function ErrorGraph(): Graph<ErrorState, ErrorUpdate, Node> {
    Graph(Step, Apply, Edges)
  }

  function Invoke(s: ErrorState, fuel: nat): Outcome<ErrorState, Node> {
    Run(ErrorGraph(), Operation, s, fuel)
  }

  /** Whatever the input, the status risky_operation leaves is a key of the
      routing table, so routing after it never fails; and it selects the
      success handler exactly for a positive input. */
  lemma StatusAlwaysRouted(s: ErrorState)
    ensures var t := Apply(s, RiskyOperation(s));
            RouteByStatus(t).Some? && RouteByStatus(t).value in StatusRoutes &&
            StatusRoutes[RouteByStatus(t).value] == if s.inputValue > 0 then To(Success) else To(Error)
  {
  }

  /** Every run executes `operation` and one handler: a positive input ends
      "completed" with an empty error; zero and negative inputs end "failed"
      with their own messages and result 0. The input is never changed. */
  lemma ErrorRun(s: ErrorState, fuel: nat)
    requires fuel >= 2
    ensures var v := s.inputValue;
            Invoke(s, fuel) == Done(
              ErrorState(
                v,
                if v > 0 then HundredOver(v) else Zero,
                if v < 0 then NegativeMessage else if v == 0 then ZeroDivisionMessage else "",
                if v > 0 then "completed" else "failed"),
              [Operation, if v > 0 then Success else Error])
  {
    var g := ErrorGraph();
    var s1 := Apply(s, RiskyOperation(s));
    StatusAlwaysRouted(s);
    if s.inputValue > 0 {
      assert Run(g, Success, s1, fuel - 1) == Done(Apply(s1, HandleSuccess(s1)), [Success]);
    } else {
      assert Run(g, Error, s1, fuel - 1) == Done(Apply(s1, HandleError(s1)), [Error]);
    }
  }

  /** The script's three runs: input 10 completes, 0 and -5 fail. */
  lemma ErrorExamples()
    ensures Invoke(ErrorState(10, Zero, "", ""), 2).state.status == "completed"
    ensures Invoke(ErrorState(0, Zero, "", ""), 2).state == ErrorState(0, Zero, ZeroDivisionMessage, "failed")
    ensures Invoke(ErrorState(-5, Zero, "", ""), 2).state == ErrorState(-5, Zero, NegativeMessage, "failed")
  {
    ErrorRun(ErrorState(10, Zero, "", ""), 2);
    ErrorRun(ErrorState(0, Zero, "", ""), 2);
    ErrorRun(ErrorState(-5, Zero, "", ""), 2);
  }
}
