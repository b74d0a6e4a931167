/**
 * simple_linear_workflow.py: two nodes wired START -> a -> b -> END over a
 * state with two plain (overwrite) fields, `message` and `count`.
 */
module LinearWorkflow {
  import opened Wrappers
  import opened Reducers
  import opened Graph

  datatype SimpleState = SimpleState(message: string, count: int)

  /** The dictionary a node returns; `None` is a key it leaves out. */
  datatype SimpleUpdate = SimpleUpdate(message: Option<string>, count: Option<int>)

  function Apply(s: SimpleState, u: SimpleUpdate): SimpleState {
    SimpleState(Overwrite(s.message, u.message), Overwrite(s.count, u.count))
  }

  datatype Node = A | B

  /** node_a: adds the greeting and counts itself. */
  function NodeA(s: SimpleState): SimpleUpdate {
    SimpleUpdate(Some(s.message + " Hello"), Some(s.count + 1))
  }

  /** node_b: adds the name and counts itself. */
  function NodeB(s: SimpleState): SimpleUpdate {
    SimpleUpdate(Some(s.message + " from LangGraph!"), Some(s.count + 1))
  }

  function Step(n: Node, s: SimpleState): Option<SimpleUpdate> {
    match n
    case A => Some(NodeA(s))
    case B => Some(NodeB(s))
  }

  function Edges(n: Node): Edge<SimpleState, Node> {
    match n
    case A => Direct(To(B))
    case B => Direct(End)
  }

  function LinearGraph(): Graph<SimpleState, SimpleUpdate, Node> {
    Graph(Step, Apply, Edges)
  }

  /** `simple_workflow.invoke(s)`: START leads to node "a". */
  function Invoke(s: SimpleState, fuel: nat): Outcome<SimpleState, Node> {
    Run(LinearGraph(), A, s, fuel)
  }

  /** From any state the chain runs a then b, appends both texts in that
      order, and `count` grows by the number of nodes executed. */
  lemma LinearRun(s: SimpleState, fuel: nat)
    requires fuel >= 2
    ensures Invoke(s, fuel).Done?
    ensures Invoke(s, fuel).trace == [A, B]
    ensures Invoke(s, fuel).state.message == s.message + " Hello from LangGraph!"
    ensures Invoke(s, fuel).state.count == s.count + |Invoke(s, fuel).trace|
  {
    var g := LinearGraph();
    var s1 := Apply(s, NodeA(s));
    var s2 := Apply(s1, NodeB(s1));
    assert Run(g, B, s1, fuel - 1) == Done(s2, [B]);
    assert Invoke(s, fuel) == Done(s2, [A, B]);
    assert s2.message == s.message + " Hello" + " from LangGraph!";
  }

  /** The script's run: from {message "", count 0} the result is
      {message " Hello from LangGraph!", count 2}. */
  lemma LinearExample()
    ensures Invoke(SimpleState("", 0), 2) == Done(SimpleState(" Hello from LangGraph!", 2), [A, B])
  {
    LinearRun(SimpleState("", 0), 2);
    assert "" + " Hello from LangGraph!" == " Hello from LangGraph!";
  }
}
