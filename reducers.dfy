/**
 * The two ways a node's partial update is merged into a state field.
 * A field declared plainly is overwritten by whatever a node writes to it;
 * a field declared `Annotated[list, operator.add]` has what a node writes
 * appended to it. A node that leaves a key out of the dictionary it returns
 * leaves that field alone (`None`).
 */
module Reducers {
  import opened Wrappers

  /** Merge policy of a field without a reducer. */
  function Overwrite<T>(current: T, written: Option<T>): T {
    written.GetOr(current)
  }

  /** Merge policy of a field without a reducer that the initial state may
      leave unset (`None` until some node writes it). */
  function OverwriteOptional<T>(current: Option<T>, written: Option<T>): Option<T> {
    if written.Some? then written else current
  }

  /** Merge policy of a field with the `operator.add` reducer. */
  function Accumulate<T>(current: seq<T>, written: Option<seq<T>>): seq<T> {
    current + written.GetOr([])
  }

  /** An overwrite field after a run of steps, each of which may write it. */
  function OverwriteAll<T>(current: T, writes: seq<Option<T>>): T
    decreases |writes|
  {
    if |writes| == 0 then current else OverwriteAll(Overwrite(current, writes[0]), writes[1..])
  }

  /** An accumulate field after a run of steps, each of which may write it. */
  function AccumulateAll<T>(current: seq<T>, writes: seq<Option<seq<T>>>): seq<T>
    decreases |writes|
  {
    if |writes| == 0 then current else AccumulateAll(Accumulate(current, writes[0]), writes[1..])
  }

  /** The value of the last step that wrote, searched from the end. */
  function LastWrite<T>(writes: seq<Option<T>>): Option<T>
    decreases |writes|
  {
    if |writes| == 0 then None
    else if writes[|writes| - 1].Some? then writes[|writes| - 1]
    else LastWrite(writes[..|writes| - 1])
  }

  /** Everything the steps wrote, in the order they wrote it. */
  function Written<T>(writes: seq<Option<seq<T>>>): seq<T>
    decreases |writes|
  {
    if |writes| == 0 then [] else Written(writes[..|writes| - 1]) + writes[|writes| - 1].GetOr([])
  }

  lemma {:induction false} OverwriteAllSnoc<T>(current: T, writes: seq<Option<T>>, last: Option<T>)
    ensures OverwriteAll(current, writes + [last]) == Overwrite(OverwriteAll(current, writes), last)
    decreases |writes|
  {
    if |writes| > 0 {
      assert (writes + [last])[1..] == writes[1..] + [last];
      OverwriteAllSnoc(Overwrite(current, writes[0]), writes[1..], last);
    }
  }

  lemma {:induction false} AccumulateAllSnoc<T>(current: seq<T>, writes: seq<Option<seq<T>>>, last: Option<seq<T>>)
    ensures AccumulateAll(current, writes + [last]) == Accumulate(AccumulateAll(current, writes), last)
    decreases |writes|
  {
    if |writes| > 0 {
      assert (writes + [last])[1..] == writes[1..] + [last];
      AccumulateAllSnoc(Accumulate(current, writes[0]), writes[1..], last);
    }
  }

  /** An overwrite field ends with the value of the last step that wrote it,
      or keeps its value when no step wrote it. */
  lemma {:induction false} LastWriterWins<T>(current: T, writes: seq<Option<T>>)
    ensures OverwriteAll(current, writes) == LastWrite(writes).GetOr(current)
    decreases |writes|
  {
    if |writes| > 0 {
      var init, last := writes[..|writes| - 1], writes[|writes| - 1];
      assert writes == init + [last];
      OverwriteAllSnoc(current, init, last);
      LastWriterWins(current, init);
    }
  }

  /** An accumulate field ends with its old value followed by everything the
      steps wrote, in step order. */
  lemma {:induction false} AccumulationKeepsOrder<T>(current: seq<T>, writes: seq<Option<seq<T>>>)
    ensures AccumulateAll(current, writes) == current + Written(writes)
    decreases |writes|
  {
    if |writes| > 0 {
      var init, last := writes[..|writes| - 1], writes[|writes| - 1];
      assert writes == init + [last];
      AccumulateAllSnoc(current, init, last);
      AccumulationKeepsOrder(current, init);
    }
  }
}
