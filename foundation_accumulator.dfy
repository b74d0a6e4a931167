/**
 * 05_langgraph_foundation.py, example 4: three nodes wired
 * START -> msg1 -> msg2 -> msg3 -> END. `messages` carries the
 * `operator.add` reducer, so what each node writes is appended; `count` is
 * a plain field, so each node's write replaces the previous one.
 */
module AccumulatorWorkflow {
  import opened Wrappers
  import opened Reducers
  import opened Graph

  datatype AccumulatorState = AccumulatorState(messages: seq<string>, count: int)

  datatype AccumulatorUpdate = AccumulatorUpdate(messages: Option<seq<string>>, count: Option<int>)

  function Apply(s: AccumulatorState, u: AccumulatorUpdate): AccumulatorState {
    AccumulatorState(Accumulate(s.messages, u.messages), Overwrite(s.count, u.count))
  }

  datatype Node = Msg1 | Msg2 | Msg3

  /** add_message_1, add_message_2, add_message_3: each contributes one
      message and its own number, whatever the state holds. */
  function AddMessage(n: Node): AccumulatorUpdate {
    match n
    case Msg1 => AccumulatorUpdate(Some(["First message"]), Some(1))
    case Msg2 => AccumulatorUpdate(Some(["Second message"]), Some(2))
    case Msg3 => AccumulatorUpdate(Some(["Third message"]), Some(3))
  }

  function Step(n: Node, s: AccumulatorState): Option<AccumulatorUpdate> {
    Some(AddMessage(n))
  }

  function Edges(n: Node): Edge<AccumulatorState, Node> {
    match n
    case Msg1 => Direct(To(Msg2))
    case Msg2 => Direct(To(Msg3))
    case Msg3 => Direct(End)
  }

  function AccumulatorGraph(): Graph<AccumulatorState, AccumulatorUpdate, Node> {
    Graph(Step, Apply, Edges)
  }

  function Invoke(s: AccumulatorState, fuel: nat): Outcome<AccumulatorState, Node> {
    Run(AccumulatorGraph(), Msg1, s, fuel)
  }

  /** What the nodes of a trace wrote to `messages` and to `count`, in order. */
  function MessageWrites(trace: seq<Node>): seq<Option<seq<string>>> {
    seq(|trace|, i requires 0 <= i < |trace| => AddMessage(trace[i]).messages)
  }

  function CountWrites(trace: seq<Node>): seq<Option<int>> {
    seq(|trace|, i requires 0 <= i < |trace| => AddMessage(trace[i]).count)
  }

  /** From any state the three nodes run in order; the three messages are
      appended after the old ones, and `count` holds the last writer's 3. */
  lemma AccumulatorRun(s: AccumulatorState, fuel: nat)
    requires fuel >= 3
    ensures Invoke(s, fuel) == Done(
              AccumulatorState(s.messages + ["First message", "Second message", "Third message"], 3),
              [Msg1, Msg2, Msg3])
  {
    var g := AccumulatorGraph();
    var s1 := Apply(s, AddMessage(Msg1));
    var s2 := Apply(s1, AddMessage(Msg2));
    var s3 := Apply(s2, AddMessage(Msg3));
    assert Run(g, Msg3, s2, fuel - 2) == Done(s3, [Msg3]);
    assert Run(g, Msg2, s1, fuel - 1) == Done(s3, [Msg2, Msg3]);
    assert s3.messages == s.messages + ["First message", "Second message", "Third message"];
  }

  /** The run obeys the declared merge policies: the accumulated field is the
      old list followed by everything the executed nodes wrote, in execution
      order, and the overwritten field holds what the last writer wrote. */
  lemma AccumulatorFollowsPolicies(s: AccumulatorState, fuel: nat)
    requires fuel >= 3
    ensures Invoke(s, fuel).Done?
    ensures Invoke(s, fuel).state.messages == s.messages + Written(MessageWrites(Invoke(s, fuel).trace))
    ensures Invoke(s, fuel).state.count == LastWrite(CountWrites(Invoke(s, fuel).trace)).GetOr(s.count)
  {
    AccumulatorRun(s, fuel);
    var trace := [Msg1, Msg2, Msg3];
    var mw := MessageWrites(trace);
    assert mw == [Some(["First message"]), Some(["Second message"]), Some(["Third message"])];
    assert mw[..2][..1] == [Some(["First message"])];
    assert Written(mw[..2][..1]) == ["First message"];
    assert mw[..2] == [Some(["First message"]), Some(["Second message"])];
    assert Written(mw[..2]) == ["First message", "Second message"];
    var cw := CountWrites(trace);
    assert cw[|cw| - 1] == Some(3);
  }

  /** The script's run: from {messages [], count 0} the result is the three
      messages in order with count 3. */
  lemma AccumulatorExample()
    ensures Invoke(AccumulatorState([], 0), 3)
         == Done(AccumulatorState(["First message", "Second message", "Third message"], 3), [Msg1, Msg2, Msg3])
  {
    AccumulatorRun(AccumulatorState([], 0), 3);
    assert [] + ["First message", "Second message", "Third message"] == ["First message", "Second message", "Third message"];
  }
}
