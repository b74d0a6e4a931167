/**
 * conditional_workflow.py: `categorize` classifies `number` by sign, then
 * route_by_category sends the run to exactly one of the handlers
 * `negative`, `zero`, `positive`, each of which writes `result` and ends
 * the run. The script invokes the graph with `number` alone, so `category`
 * and `result` start unset.
 */
module ConditionalWorkflow {
  import opened Wrappers
  import opened Reducers
  import opened Text
  import opened Graph

  datatype ConditionalState = ConditionalState(number: int, category: Option<string>, result: Option<string>)

  datatype ConditionalUpdate = ConditionalUpdate(number: Option<int>, category: Option<string>, result: Option<string>)

  function Apply(s: ConditionalState, u: ConditionalUpdate): ConditionalState {
    ConditionalState(
      Overwrite(s.number, u.number),
      OverwriteOptional(s.category, u.category),
      OverwriteOptional(s.result, u.result))
  }

  /** categorize_node: writes only `category`, and picks exactly one of the
      three categories, the one matching the sign of `number`. */
  function CategorizeNode(s: ConditionalState): (u: ConditionalUpdate)
    ensures u.number.None? && u.result.None? && u.category.Some?
    ensures u.category == Some("negative") <==> s.number < 0
    ensures u.category == Some("zero") <==> s.number == 0
    ensures u.category == Some("positive") <==> s.number > 0
  {
    var category := if s.number < 0 then "negative" else if s.number == 0 then "zero" else "positive";
    ConditionalUpdate(None, Some(category), None)
  }

  /** handle_negative */
  function HandleNegative(s: ConditionalState): ConditionalUpdate {
    ConditionalUpdate(None, None, Some(IntToString(s.number) + " is negative"))
  }

  /** handle_zero */
  function HandleZero(s: ConditionalState): ConditionalUpdate {
    ConditionalUpdate(None, None, Some("Number is zero"))
  }

  /** handle_positive */
  function HandlePositive(s: ConditionalState): ConditionalUpdate {
    ConditionalUpdate(None, None, Some(IntToString(s.number) + " is positive"))
  }

  /** route_by_category: the stored category, unchanged; reading it before
      any node has written it raises KeyError (`None`). */
  function RouteByCategory(s: ConditionalState): Option<string> {
    s.category
  }

  datatype Node = Categorize | Negative | ZeroHandler | Positive

  const CategoryRoutes: map<string, Target<Node>> :=
    map["negative" := To(Negative), "zero" := To(ZeroHandler), "positive" := To(Positive)]

  function Step(n: Node, s: ConditionalState): Option<ConditionalUpdate> {
    match n
    case Categorize => Some(CategorizeNode(s))
    case Negative => Some(HandleNegative(s))
    case ZeroHandler => Some(HandleZero(s))
    case Positive => Some(HandlePositive(s))
  }

  function Edges(n: Node): Edge<ConditionalState, Node> {
    match n
    case Categorize => Conditional(RouteByCategory, CategoryRoutes)
    case _ => Direct(End)
  }

  function ConditionalGraph(): Graph<ConditionalState, ConditionalUpdate, Node> {
    Graph(Step, Apply, Edges)
  }

  function Invoke(s: ConditionalState, fuel: nat): Outcome<ConditionalState, Node> {
    Run(ConditionalGraph(), Categorize, s, fuel)
  }

  /** The handler whose name is the category of `n`. */
  function HandlerFor(n: int): Node {
    if n < 0 then Negative else if n == 0 then ZeroHandler else Positive
  }

  /** Each handler writes only `result`, and never `number`. */
  lemma HandlersWriteOnlyResult(n: Node, s: ConditionalState)
    requires n != Categorize
    ensures Step(n, s).Some?
    ensures Step(n, s).value.number.None? && Step(n, s).value.category.None? && Step(n, s).value.result.Some?
  {
  }

  /** After categorize, the router returns the category just written, which
      is always a key of the routing table, and that key leads to the
      handler matching the sign of `number`. */
  lemma CategoryAlwaysRouted(s: ConditionalState)
    ensures var t := Apply(s, CategorizeNode(s));
            RouteByCategory(t) == CategorizeNode(s).category &&
            t.category.value in CategoryRoutes &&
            CategoryRoutes[t.category.value] == To(HandlerFor(s.number))
  {
  }

  /** Every run executes exactly two nodes, categorize and the handler
      matching the sign, and then reaches END; `number` is unchanged,
      whatever `category` and `result` held before. */
  lemma ConditionalRun(s: ConditionalState, fuel: nat)
    requires fuel >= 2
    ensures var n := s.number;
            Invoke(s, fuel) == Done(
              ConditionalState(
                n,
                Some(if n < 0 then "negative" else if n == 0 then "zero" else "positive"),
                Some(if n < 0 then IntToString(n) + " is negative"
                     else if n == 0 then "Number is zero"
                     else IntToString(n) + " is positive")),
              [Categorize, HandlerFor(n)])
  {
    var g := ConditionalGraph();
    var s1 := Apply(s, CategorizeNode(s));
    CategoryAlwaysRouted(s);
    var h := HandlerFor(s.number);
    assert Run(g, h, s1, fuel - 1) == Done(Apply(s1, Step(h, s1).value), [h]);
  }

  /** The result handle_positive writes for 42. */
  lemma RenderedPositive()
    ensures IntToString(42) + " is positive" == "42 is positive"
  {
    assert NatToString(4) == ['4'];
    assert NatToString(42) == NatToString(4) + ['2'];
  }

  /** The result handle_negative writes for -10. */
  lemma RenderedNegative()
    ensures IntToString(-10) + " is negative" == "-10 is negative"
  {
    assert NatToString(1) == ['1'];
    assert NatToString(10) == NatToString(1) + ['0'];
  }

  /** The script's test 1: 42 is routed to `positive`. */
  lemma PositiveExample()
    ensures Invoke(ConditionalState(42, None, None), 2).state.result == Some("42 is positive")
  {
    ConditionalRun(ConditionalState(42, None, None), 2);
    RenderedPositive();
  }

  /** The script's test 2: -10 is routed to `negative`. */
  lemma NegativeExample()
    ensures Invoke(ConditionalState(-10, None, None), 2).state.result == Some("-10 is negative")
  {
    ConditionalRun(ConditionalState(-10, None, None), 2);
    RenderedNegative();
  }

  /** The script's test 3: 0 is routed to `zero`. */
  lemma ZeroExample()
    ensures Invoke(ConditionalState(0, None, None), 2).state.result == Some("Number is zero")
  {
    ConditionalRun(ConditionalState(0, None, None), 2);
  }
}
