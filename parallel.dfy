/**
 * parallel_workflow.py: START fans out to `square`, `cube` and `double`,
 * which all lead to `summary` (fan-in), which leads to END. The script
 * invokes the graph with `input_value` alone, so the other fields start
 * unset. The three branches run in one step; the model applies them one
 * after another in any order and shows that the order does not matter.
 */
module ParallelWorkflow {
  import opened Wrappers
  import opened Reducers

  /** The dictionary summary_node stores under `summary`. */
  datatype Summary = Summary(inputValue: int, squared: int, cubed: int, doubled: int)

  datatype ParallelState = ParallelState(
    inputValue: int,
    squared: Option<int>,
    cubed: Option<int>,
    doubled: Option<int>,
    summary: Option<Summary>)

  datatype ParallelUpdate = ParallelUpdate(
    inputValue: Option<int>,
    squared: Option<int>,
    cubed: Option<int>,
    doubled: Option<int>,
    summary: Option<Summary>)

  const NoWrites := ParallelUpdate(None, None, None, None, None)

  function Apply(s: ParallelState, u: ParallelUpdate): ParallelState {
    ParallelState(
      Overwrite(s.inputValue, u.inputValue),
      OverwriteOptional(s.squared, u.squared),
      OverwriteOptional(s.cubed, u.cubed),
      OverwriteOptional(s.doubled, u.doubled),
      OverwriteOptional(s.summary, u.summary))
  }

  /** The fields an update writes. */
  datatype Field = InputValue | Squared | Cubed | Doubled | SummaryField

  function Writes(u: ParallelUpdate): set<Field> {
    (if u.inputValue.Some? then {InputValue} else {})
    + (if u.squared.Some? then {Squared} else {})
    + (if u.cubed.Some? then {Cubed} else {})
    + (if u.doubled.Some? then {Doubled} else {})
    + (if u.summary.Some? then {SummaryField} else {})
  }

  /** Updates that write disjoint fields can be merged in either order. */
  lemma MergeCommutes(s: ParallelState, u: ParallelUpdate, v: ParallelUpdate)
    requires Writes(u) !! Writes(v)
    ensures Apply(Apply(s, u), v) == Apply(Apply(s, v), u)
  {
    if u.squared.Some? { assert Squared in Writes(u); }
    if u.cubed.Some? { assert Cubed in Writes(u); }
    if u.doubled.Some? { assert Doubled in Writes(u); }
    if u.summary.Some? { assert SummaryField in Writes(u); }
    if u.inputValue.Some? { assert InputValue in Writes(u); }
  }

  datatype Branch = Square | Cube | Double

  /** square_node, cube_node and double_node: each returns one field
      computed from `input_value`. */
  function BranchNode(b: Branch, s: ParallelState): ParallelUpdate {
    var n := s.inputValue;
    match b
    case Square => NoWrites.(squared := Some(n * n))
    case Cube => NoWrites.(cubed := Some(n * n * n))
    case Double => NoWrites.(doubled := Some(n * 2))
  }

  /** The field a branch writes. */
  function FieldOf(b: Branch): Field {
    match b
    case Square => Squared
    case Cube => Cubed
    case Double => Doubled
  }

  /** Each branch writes exactly its own field and never `input_value`;
      distinct branches write distinct fields. */
  lemma BranchWritesOwnField(b: Branch, c: Branch, s: ParallelState)
    ensures Writes(BranchNode(b, s)) == {FieldOf(b)}
    ensures b != c ==> Writes(BranchNode(b, s)) !! Writes(BranchNode(c, s))
  {
  }

  /** The branches run one after another in the given order, each reading the
      state the previous ones left. */
  function RunBranches(s: ParallelState, order: seq<Branch>): ParallelState
    decreases |order|
  {
    if |order| == 0 then s else RunBranches(Apply(s, BranchNode(order[0], s)), order[1..])
  }

  /** The branches run in one step: each reads the state before the step,
      and their updates are merged afterwards in the given order. */
  function MergeAll(s: ParallelState, updates: seq<ParallelUpdate>): ParallelState
    decreases |updates|
  {
    if |updates| == 0 then s else MergeAll(Apply(s, updates[0]), updates[1..])
  }

  function FanOut(s: ParallelState, order: seq<Branch>): ParallelState {
    MergeAll(s, seq(|order|, i requires 0 <= i < |order| => BranchNode(order[i], s)))
  }

  /** After any sequence of branches, each branch's field holds its value
      if the branch ran and is untouched otherwise; `input_value` and
      `summary` are untouched. */
  lemma {:induction false} RunBranchesFields(s: ParallelState, order: seq<Branch>)
    ensures var t := RunBranches(s, order);
            var n := s.inputValue;
            && t.inputValue == n
            && t.squared == (if Square in order then Some(n * n) else s.squared)
            && t.cubed == (if Cube in order then Some(n * n * n) else s.cubed)
            && t.doubled == (if Double in order then Some(n * 2) else s.doubled)
            && t.summary == s.summary
    decreases |order|
  {
    if |order| > 0 {
      var s1 := Apply(s, BranchNode(order[0], s));
      RunBranchesFields(s1, order[1..]);
      assert order == [order[0]] + order[1..];
      assert forall b :: b in order <==> b == order[0] || b in order[1..];
    }
  }

  /** Running the branches one after another gives the same state as
      running them in one step from a common state: no branch reads a
      field another branch writes. */
  lemma {:induction false} SequentialEqualsOneStep(s: ParallelState, order: seq<Branch>)
    ensures RunBranches(s, order) == FanOut(s, order)
  {
    SequentialFromState(s, s, order);
  }

  lemma {:induction false} SequentialFromState(s0: ParallelState, s: ParallelState, order: seq<Branch>)
    requires s.inputValue == s0.inputValue
    ensures RunBranches(s, order) == MergeAll(s, seq(|order|, i requires 0 <= i < |order| => BranchNode(order[i], s0)))
    decreases |order|
  {
    var ups := seq(|order|, i requires 0 <= i < |order| => BranchNode(order[i], s0));
    if |order| > 0 {
      assert BranchNode(order[0], s) == BranchNode(order[0], s0);
      var s1 := Apply(s, BranchNode(order[0], s));
      SequentialFromState(s0, s1, order[1..]);
      assert ups[1..] == seq(|order[1..]|, i requires 0 <= i < |order[1..]| => BranchNode(order[1..][i], s0));
    }
  }

  /** A schedule of the fan-out: each branch exactly once. */
  predicate IsSchedule(order: seq<Branch>) {
    multiset(order) == multiset{Square, Cube, Double}
  }

  /** Whatever order the three branches run in, the merged state is the
      same: all three fields are set from `input_value`. */
  lemma FanOutOrderIrrelevant(s: ParallelState, order: seq<Branch>, other: seq<Branch>)
    requires IsSchedule(order) && IsSchedule(other)
    ensures RunBranches(s, order) == RunBranches(s, other)
    ensures RunBranches(s, order) == s.(squared := Some(s.inputValue * s.inputValue),
                                        cubed := Some(s.inputValue * s.inputValue * s.inputValue),
                                        doubled := Some(s.inputValue * 2))
  {
    RunBranchesFields(s, order);
    RunBranchesFields(s, other);
    assert Square in multiset(order) && Cube in multiset(order) && Double in multiset(order);
    assert Square in multiset(other) && Cube in multiset(other) && Double in multiset(other);
  }

  /** summary_node: copies the four values from the merged state; a value
      no branch has written yet raises KeyError (`None`). */
  function SummaryNode(s: ParallelState): Option<ParallelUpdate> {
    if s.squared.Some? && s.cubed.Some? && s.doubled.Some? then
      Some(NoWrites.(summary := Some(Summary(s.inputValue, s.squared.value, s.cubed.value, s.doubled.value))))
    else None
  }

  /** `parallel_workflow.invoke(s)`: the fan-out in the given order, then the
      fan-in at `summary`; `None` when summary_node raises. */
  function Invoke(s: ParallelState, order: seq<Branch>): Option<ParallelState> {
    var t := RunBranches(s, order);
    match SummaryNode(t)
    case None => None
    case Some(u) => Some(Apply(t, u))
  }

  /** Summary runs only after all three branches: with any branch missing
      from the fan-out (and its field unset), the fan-in fails. */
  lemma SummaryNeedsAllBranches(s: ParallelState, order: seq<Branch>, b: Branch)
    requires b !in order
    requires s.squared.None? && s.cubed.None? && s.doubled.None?
    ensures Invoke(s, order).None?
  {
    RunBranchesFields(s, order);
  }

  /** With every branch run once, in any order, the final state holds the
      three results and a summary copied from them; `input_value` is never
      changed. */
  lemma ParallelRun(s: ParallelState, order: seq<Branch>)
    requires IsSchedule(order)
    ensures var n := s.inputValue;
            Invoke(s, order) == Some(ParallelState(n, Some(n * n), Some(n * n * n), Some(n * 2),
                                                   Some(Summary(n, n * n, n * n * n, n * 2))))
  {
    FanOutOrderIrrelevant(s, order, order);
  }

  /** The script's run: for input 5 the final state has squared 25, cubed
      125 and doubled 10. */
  lemma ParallelExample(order: seq<Branch>)
    requires IsSchedule(order)
    ensures Invoke(ParallelState(5, None, None, None, None), order)
         == Some(ParallelState(5, Some(25), Some(125), Some(10), Some(Summary(5, 25, 125, 10))))
  {
    ParallelRun(ParallelState(5, None, None, None, None), order);
  }
}
