/**
 * A sequential interpreter for the graphs the scripts wire with
 * `add_node`, `add_edge` and `add_conditional_edges` and then `invoke`:
 * run the current node on the state, merge its partial update into the
 * state, follow the node's outgoing edge, and stop at `END`.
 *
 * The fuel bounds the number of node executions and stands for the
 * runtime's recursion limit; a run that uses it up fails with `StepLimit`.
 */
module Graph {
  import opened Wrappers

  /** Where an edge leads: a node, or `END`. */
  datatype Target<N> = To(node: N) | End

  /** A node's one outgoing rule: `add_edge(from, to)`, or
      `add_conditional_edges(from, router, mapping)`. A router that raises
      (for example on a key the state does not hold) yields `None`. */
  datatype Edge<!S, N> =
    | Direct(target: Target<N>)
    | Conditional(route: S -> Option<string>, mapping: map<string, Target<N>>)

  /** A compiled graph over states `S`, partial updates `U` and node names `N`.
      `step(n, s)` is node `n`'s function (`None` when it raises) and `merge`
      applies a partial update field by field. */
  datatype Graph<!S, !U, !N> = Graph(step: (N, S) -> Option<U>, merge: (S, U) -> S, edges: N -> Edge<S, N>)

  /** Why a run stopped without reaching `END`. */
  datatype Failure<N> =
    | Raised(node: N)                     // the node or its router raised
    | UnmappedRoute(node: N, key: string) // the router returned a key its mapping lacks
    | StepLimit                           // the step budget ran out

  /** The result of `invoke`: the final state, or the failure; both carry the
      nodes executed, in order. */
  datatype Outcome<S, N> = Done(state: S, trace: seq<N>) | Failed(failure: Failure<N>, trace: seq<N>)

  /** The outcome of following an edge. */
  datatype Route<N> = Next(target: Target<N>) | Stop(failure: Failure<N>)

  /** Follows node `at`'s edge from state `s`; an unmapped key is an error,
      never a silent fallback. */
  function Resolve<S, N>(at: N, edge: Edge<S, N>, s: S): (r: Route<N>)
    ensures edge.Direct? ==> r == Next(edge.target)
    ensures edge.Conditional? && edge.route(s).None? ==> r == Stop(Raised(at))
    ensures edge.Conditional? && edge.route(s).Some? && edge.route(s).value in edge.mapping ==>
              r == Next(edge.mapping[edge.route(s).value])
    ensures edge.Conditional? && edge.route(s).Some? && edge.route(s).value !in edge.mapping ==>
              r == Stop(UnmappedRoute(at, edge.route(s).value))
  {
    match edge
    case Direct(target) => Next(target)
    case Conditional(route, mapping) =>
      match route(s)
      case None => Stop(Raised(at))
      case Some(key) => if key in mapping then Next(mapping[key]) else Stop(UnmappedRoute(at, key))
  }

  /** Records that node `at` ran before the rest of the run. */
  function After<S, N>(at: N, o: Outcome<S, N>): Outcome<S, N> {
    match o
    case Done(s, trace) => Done(s, [at] + trace)
    case Failed(f, trace) => Failed(f, [at] + trace)
  }

  /** Runs graph `g` from node `at` on state `s` with at most `fuel` node
      executions. */
  function Run<S, U, N>(g: Graph<S, U, N>, at: N, s: S, fuel: nat): Outcome<S, N>
    decreases fuel
  {
    if fuel == 0 then Failed(StepLimit, [])
    else
      match g.step(at, s)
      case None => Failed(Raised(at), [at])
      case Some(u) =>
        var next := g.merge(s, u);
        match Resolve(at, g.edges(at), next)
        case Stop(f) => Failed(f, [at])
        case Next(End) => Done(next, [at])
        case Next(To(n)) => After(at, Run(g, n, next, fuel - 1))
  }

  /** The trace never exceeds the budget and starts at the entry node; a run
      that fails at a node stops there, so that node is the last one
      executed; a run stopped by the budget has used all of it. */
  lemma {:induction false} RunTraceShape<S, U, N>(g: Graph<S, U, N>, at: N, s: S, fuel: nat)
    ensures var o := Run(g, at, s, fuel);
            && |o.trace| <= fuel
            && (fuel > 0 ==> |o.trace| > 0 && o.trace[0] == at)
            && (o.Failed? && o.failure.StepLimit? ==> |o.trace| == fuel)
            && (o.Failed? && !o.failure.StepLimit? ==> |o.trace| > 0 && o.trace[|o.trace| - 1] == o.failure.node)
    decreases fuel
  {
    if fuel > 0 && g.step(at, s).Some? {
      var next := g.merge(s, g.step(at, s).value);
      var r := Resolve(at, g.edges(at), next);
      if r.Next? && r.target.To? {
        RunTraceShape(g, r.target.node, next, fuel - 1);
      }
    }
  }

  /** A run that ends without exhausting its budget ends the same way with
      any larger budget: the outcome does not depend on the exact limit. */
  lemma {:induction false} RunWithMoreFuel<S, U, N>(g: Graph<S, U, N>, at: N, s: S, fuel: nat, more: nat)
    requires fuel <= more
    requires !(Run(g, at, s, fuel).Failed? && Run(g, at, s, fuel).failure.StepLimit?)
    ensures Run(g, at, s, more) == Run(g, at, s, fuel)
    decreases fuel
  {
    if g.step(at, s).Some? {
      var next := g.merge(s, g.step(at, s).value);
      var r := Resolve(at, g.edges(at), next);
      if r.Next? && r.target.To? {
        RunWithMoreFuel(g, r.target.node, next, fuel - 1, more - 1);
      }
    }
  }

  /** One step of a run: the node's update is merged and the run goes on at
      the routed node. */
  lemma StepTo<S, U, N>(g: Graph<S, U, N>, at: N, s: S, fuel: nat, u: U, n: N)
    requires fuel >= 1
    requires g.step(at, s) == Some(u)
    requires Resolve(at, g.edges(at), g.merge(s, u)) == Next(To(n))
    ensures Run(g, at, s, fuel) == After(at, Run(g, n, g.merge(s, u), fuel - 1))
  {
  }

  /** The last step of a run: the node's update is merged and the run ends. */
  lemma StepToEnd<S, U, N>(g: Graph<S, U, N>, at: N, s: S, fuel: nat, u: U)
    requires fuel >= 1
    requires g.step(at, s) == Some(u)
    requires Resolve(at, g.edges(at), g.merge(s, u)) == Next(End)
    ensures Run(g, at, s, fuel) == Done(g.merge(s, u), [at])
  {
  }
}
