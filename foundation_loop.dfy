/**
 * 05_langgraph_foundation.py, example 5: one node, `increment`, whose
 * conditional edge leads back to itself while `counter < max_iterations`
 * and to END otherwise. `results` carries the `operator.add` reducer.
 */
module LoopWorkflow {
  import opened Wrappers
  import opened Reducers
  import opened Graph

  datatype LoopState = LoopState(counter: int, maxIterations: int, results: seq<int>)

  datatype LoopUpdate = LoopUpdate(counter: Option<int>, maxIterations: Option<int>, results: Option<seq<int>>)

  function Apply(s: LoopState, u: LoopUpdate): LoopState {
    LoopState(
      Overwrite(s.counter, u.counter),
      Overwrite(s.maxIterations, u.maxIterations),
      Accumulate(s.results, u.results))
  }

  datatype Node = Increment

  /** increment_node: the next counter value, also contributed to `results`. */
  function IncrementNode(s: LoopState): LoopUpdate {
    LoopUpdate(Some(s.counter + 1), None, Some([s.counter + 1]))
  }

  /** should_continue */
  function ShouldContinue(s: LoopState): Option<string> {
    Some(if s.counter < s.maxIterations then "continue" else "end")
  }

  function Step(n: Node, s: LoopState): Option<LoopUpdate> {
    Some(IncrementNode(s))
  }

  function Edges(n: Node): Edge<LoopState, Node> {
    Conditional(ShouldContinue, map["continue" := To(Increment), "end" := End])
  }

  function LoopGraph(): Graph<LoopState, LoopUpdate, Node> {
    Graph(Step, Apply, Edges)
  }

  function Invoke(s: LoopState, fuel: nat): Outcome<LoopState, Node> {
    Run(LoopGraph(), Increment, s, fuel)
  }

  /** How many times `increment` runs from `counter`: at least once (START
      leads to it unconditionally), then again while the counter it left is
      below the maximum. */
  function Iterations(counter: int, maxIterations: int): nat {
    if counter + 1 < maxIterations then maxIterations - counter else 1
  }

  /** `[from, from + 1, ..., from + n - 1]` */
  function Range(from: int, n: nat): seq<int> {
    seq(n, i requires 0 <= i < n => from + i)
  }

  function Repeat(n: nat): seq<Node> {
    seq(n, i requires 0 <= i < n => Increment)
  }

  /** One step of the cycle: `increment` runs, merges, and routes on. */
  lemma IncrementStep(s: LoopState, fuel: nat)
    requires fuel >= 1
    ensures var s1 := LoopState(s.counter + 1, s.maxIterations, s.results + [s.counter + 1]);
            Invoke(s, fuel) ==
              if s.counter + 1 < s.maxIterations then After(Increment, Invoke(s1, fuel - 1))
              else Done(s1, [Increment])
  {
  }

  /** With enough budget the loop ends with the counter advanced by the
      number of iterations, each new counter value appended to `results`
      in order, and `max_iterations` untouched. */
  lemma {:induction false} LoopRun(s: LoopState, fuel: nat)
    requires fuel >= Iterations(s.counter, s.maxIterations)
    ensures var k := Iterations(s.counter, s.maxIterations);
            Invoke(s, fuel) ==
              Done(LoopState(s.counter + k, s.maxIterations, s.results + Range(s.counter + 1, k)), Repeat(k))
    decreases Iterations(s.counter, s.maxIterations)
  {
    var k := Iterations(s.counter, s.maxIterations);
    var s1 := LoopState(s.counter + 1, s.maxIterations, s.results + [s.counter + 1]);
    IncrementStep(s, fuel);
    if s.counter + 1 < s.maxIterations {
      LoopRun(s1, fuel - 1);
      assert s1.results + Range(s1.counter + 1, k - 1) == s.results + Range(s.counter + 1, k);
      assert [Increment] + Repeat(k - 1) == Repeat(k);
    } else {
      assert Range(s.counter + 1, 1) == [s.counter + 1];
      assert Repeat(1) == [Increment];
    }
  }

  /** The loop stops only once the counter has reached the maximum. */
  lemma LoopExitCondition(s: LoopState, fuel: nat)
    requires fuel >= Iterations(s.counter, s.maxIterations)
    ensures Invoke(s, fuel).Done?
    ensures Invoke(s, fuel).state.counter >= s.maxIterations
    ensures Invoke(s, fuel).state.counter == if s.counter < s.maxIterations then s.maxIterations else s.counter + 1
  {
    LoopRun(s, fuel);
  }

  /** A budget smaller than the number of iterations stops the run after
      exactly that many executions of `increment`, never earlier or later. */
  lemma {:induction false} LoopStepLimit(s: LoopState, fuel: nat)
    requires fuel < Iterations(s.counter, s.maxIterations)
    ensures Invoke(s, fuel) == Failed(StepLimit, Repeat(fuel))
    decreases fuel
  {
    if fuel > 0 {
      var s1 := LoopState(s.counter + 1, s.maxIterations, s.results + [s.counter + 1]);
      IncrementStep(s, fuel);
      LoopStepLimit(s1, fuel - 1);
      assert [Increment] + Repeat(fuel - 1) == Repeat(fuel);
    }
  }

  /** The script's run: from {counter 0, max_iterations 5, results []} the
      final state is counter 5 with results [1, 2, 3, 4, 5]. */
  lemma LoopExample()
    ensures Invoke(LoopState(0, 5, []), 5) == Done(LoopState(5, 5, [1, 2, 3, 4, 5]), Repeat(5))
  {
    LoopRun(LoopState(0, 5, []), 5);
    assert [] + Range(1, 5) == [1, 2, 3, 4, 5];
  }
}
