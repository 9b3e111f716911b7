/** Compatible iteration orders are not only enough but necessary: the times at which the values of a completed run were
    delivered rank the edges. */
module ExecutorOrders {
  import opened Graphs
  import opened Executor
  import opened ExecutorSteps
  import opened ExecutorSafety
  import opened ExecutorTrace
  import opened ExecutorProgress
  import opened ExecutorDeliveries
  import opened ExecutorCompletion

  // ---------------------------------------------------------------- delivery times

  predicate DeliveredBefore(s: State, e: Edge, f: Edge) {
    e in s.delivered && f in s.delivered && s.delivered[e].time < s.delivered[f].time
  }

  ghost predicate DependenciesBefore(g: Graph, s: State) {
    forall e, f :: e in g.edges && f in s.delivered && e.to == f.from ==> DeliveredBefore(s, e, f)
  }

  ghost predicate WaitsInTime(g: Graph, o: Orders, s: State) {
    forall v, a, b :: v in g.vertices && v in o.wait && 0 <= a < b < |o.wait[v]| && Edge(o.wait[v][b], v) in s.delivered ==>
      DeliveredBefore(s, Edge(o.wait[v][a], v), Edge(o.wait[v][b], v))
  }

  ghost predicate SendsInTime(g: Graph, o: Orders, s: State) {
    forall u, a, b :: u in g.vertices && u in o.send && 0 <= a < b < |o.send[u]| && Edge(u, o.send[u][b]) in s.delivered ==>
      DeliveredBefore(s, Edge(u, o.send[u][a]), Edge(u, o.send[u][b]))
  }

  ghost predicate Timed(g: Graph, o: Orders, s: State) {
    && (forall e :: e in s.delivered ==> s.delivered[e].time < |s.delivered|)
    && DependenciesBefore(g, s) && WaitsInTime(g, o, s) && SendsInTime(g, o, s)
  }

  lemma TimedStays(g: Graph, o: Orders, s: State, t: State)
    requires Timed(g, o, s) && t.delivered == s.delivered
    ensures Timed(g, o, t)
  {
    assert forall e, f :: DeliveredBefore(t, e, f) <==> DeliveredBefore(s, e, f);
  }

  lemma StepTimed(g: Graph, start: Vertex, o: Orders, s: State, step: Step)
    requires Runnable(g, start) && OrdersFor(g, g.vertices, o) && Inv(g, start, s) && AllInOrder(o, g.vertices, s)
    requires Timed(g, o, s) && Enabled(g, s, step)
    ensures Timed(g, o, Apply(g, s, step))
  {
    var t := Apply(g, s, step);
    if step.Deliver? {
      DeliverPast(g, start, s, step.i, step.j);
      DeliverInTurn(g, start, o, s, step.i, step.j);
      DeliverTimed(g, o, s, t, Edge(s.procs[step.i].at, s.procs[step.j].at), step.j);
    } else {
      StepFields(g, s, step);
      TimedStays(g, o, s, t);
    }
  }

  /** Earlier dependencies of the receiver and earlier dependents of the sender were served. */
  lemma DeliverInTurn(g: Graph, start: Vertex, o: Orders, s: State, i: nat, j: nat)
    requires Runnable(g, start) && OrdersFor(g, g.vertices, o) && Inv(g, start, s) && AllInOrder(o, g.vertices, s)
    requires Enabled(g, s, Deliver(i, j)) && s.procs[i].at in g.vertices && s.procs[j].at in g.vertices
    ensures var u, v := s.procs[i].at, s.procs[j].at;
      && (forall a, b :: 0 <= a < b < |o.wait[v]| && o.wait[v][b] == u ==> Edge(o.wait[v][a], v) in s.delivered)
      && (forall a, b :: 0 <= a < b < |o.send[u]| && o.send[u][b] == v ==> Edge(u, o.send[u][a]) in s.delivered)
  {
    var u, v := s.procs[i].at, s.procs[j].at;
    forall a, b | 0 <= a < b < |o.wait[v]| && o.wait[v][b] == u ensures Edge(o.wait[v][a], v) in s.delivered {
      WaitPast(g, start, g.vertices, o, s, j, a, b);
    }
    forall a, b | 0 <= a < b < |o.send[u]| && o.send[u][b] == v ensures Edge(u, o.send[u][a]) in s.delivered {
      SendPast(g, start, g.vertices, o, s, i, a, b);
    }
  }

  lemma DeliverTimed(g: Graph, o: Orders, s: State, t: State, added: Edge, j: nat)
    requires OrdersFor(g, g.vertices, o) && Timed(g, o, s) && added in g.edges && added !in s.delivered
    requires added.from in g.vertices && added.to in g.vertices
    requires t.delivered == s.delivered[added := Delivery(j, |s.delivered|)]
    requires forall e :: e in g.edges && e.to == added.from ==> e in s.delivered
    requires forall f :: f in s.delivered ==> f.from != added.to
    requires forall a, b :: 0 <= a < b < |o.wait[added.to]| && o.wait[added.to][b] == added.from ==>
      Edge(o.wait[added.to][a], added.to) in s.delivered
    requires forall a, b :: 0 <= a < b < |o.send[added.from]| && o.send[added.from][b] == added.to ==>
      Edge(added.from, o.send[added.from][a]) in s.delivered
    ensures Timed(g, o, t)
  {
    assert forall e, f :: DeliveredBefore(s, e, f) ==> DeliveredBefore(t, e, f);
    assert forall e :: e in s.delivered ==> DeliveredBefore(t, e, added);
  }

  lemma {:induction false} RunTimed(g: Graph, start: Vertex, o: Orders, ss: seq<State>, steps: seq<Step>, k: nat)
    requires Runnable(g, start) && OrdersFor(g, g.vertices, o) && IsRunIn(g, start, g.vertices, o, ss, steps) && k < |ss|
    ensures Timed(g, o, ss[k])
  {
    if k > 0 {
      RunTimed(g, start, o, ss, steps, k - 1);
      RunGood(g, start, ss, steps, k - 1);
      RunOrderly(g, start, g.vertices, o, ss, steps, k - 1);
      assert ss[k - 1 + 1] == Apply(g, ss[k - 1], steps[k - 1]);
      StepTimed(g, start, o, ss[k - 1], steps[k - 1]);
    }
  }

  // ---------------------------------------------------------------- main results

  ghost predicate Rankable(g: Graph, o: Orders) {
    exists rank :: Compatible(g, g.vertices, o, rank)
  }

  /** A run that brings every vertex to return, races or not, shows its iteration orders to be compatible. */
  lemma CompletedRunsRank(g: Graph, start: Vertex, o: Orders, ss: seq<State>, steps: seq<Step>)
    requires Runnable(g, start) && OrdersFor(g, g.vertices, o) && IsRunIn(g, start, g.vertices, o, ss, steps)
    requires forall v :: v in g.vertices ==> v in ResultsIn(ss[|steps|].trace)
    ensures Rankable(g, o)
  {
    var s := ss[|steps|];
    RunGood(g, start, ss, steps, |steps|);
    RunTimed(g, start, o, ss, steps, |steps|);
    forall e | e in g.edges ensures e in s.delivered {
      assert e.to in Endpoints(g.edges);
      ReturnedReceived(g, start, s, e);
    }
    TimesRank(g, o, s);
  }

  /** A vertex that returned received the value of every edge into it. */
  lemma ReturnedReceived(g: Graph, start: Vertex, s: State, e: Edge)
    requires Good(g, start, s) && e in g.edges && e.to in ResultsIn(s.trace)
    ensures e in s.delivered
  {
    assert FinishedBySome(s, e.to);
    var i :| 0 <= i < |s.procs| && HasFinished(s.procs[i]) && s.procs[i].at == e.to;
    assert Local(g, start, s, i);
    PredecessorsContain(g.edges, e.from, e.to);
    assert Got(s, i, e.from, e.to) && e == Edge(e.from, e.to);
  }

  lemma TimesRank(g: Graph, o: Orders, s: State)
    requires OrdersFor(g, g.vertices, o) && Endpoints(g.edges) <= g.vertices && Timed(g, o, s) && forall e :: e in g.edges ==> e in s.delivered
    ensures Rankable(g, o)
  {
    var rank: Ranking := map e | e in s.delivered :: s.delivered[e].time;
    assert forall e, f :: DeliveredBefore(s, e, f) ==> Before(rank, e, f);
    forall v, i, j | v in g.vertices && v in o.wait && 0 <= i < j < |o.wait[v]|
      ensures Before(rank, Edge(o.wait[v][i], v), Edge(o.wait[v][j], v))
    {
      PredecessorsContain(g.edges, o.wait[v][j], v);
      assert DeliveredBefore(s, Edge(o.wait[v][i], v), Edge(o.wait[v][j], v));
    }
    forall u, i, j | u in g.vertices && u in o.send && 0 <= i < j < |o.send[u]|
      ensures o.send[u][i] in g.vertices && Before(rank, Edge(u, o.send[u][i]), Edge(u, o.send[u][j]))
    {
      SuccessorsContain(g.edges, u, o.send[u][i]);
      SuccessorsContain(g.edges, u, o.send[u][j]);
      assert Edge(u, o.send[u][i]).to in Endpoints(g.edges);
      assert DeliveredBefore(s, Edge(u, o.send[u][i]), Edge(u, o.send[u][j]));
    }
    forall e, f | e in g.edges && f in g.edges && e.to == f.from ensures Before(rank, e, f) {
      assert DeliveredBefore(s, e, f);
    }
    assert Compatible(g, g.vertices, o, rank);
  }

  /** Exactly when Run succeeds, when all goroutines of a vertex iterate in one order: take a run that can go no further, in
      which every BlockRun that returned returned true and the caller did not cancel. Run returned true if and only if the
      edges can be ranked compatibly with the iteration orders. A vertex may get two goroutines on the way. */
  lemma RunSucceedsIffRankable(g: Graph, start: Vertex, o: Orders, ss: seq<State>, steps: seq<Step>)
    requires Runnable(g, start) && OrdersFor(g, g.vertices, o) && IsRunIn(g, start, g.vertices, o, ss, steps)
    requires forall v :: v in g.vertices ==> Reaches(g.edges, start, v)
    requires Stuck(g, o, ss[|steps|])
    requires !ss[|steps|].cancelled && forall v :: Finish(v, false) !in ss[|steps|].trace
    ensures |ss[|steps|].procs| > 0 && (ss[|steps|].procs[0] == MainDone(true) <==> Rankable(g, o))
  {
    var s := ss[|steps|];
    RunGood(g, start, ss, steps, |steps|);
    if s.procs[0] == MainDone(true) {
      CompletedRunsRank(g, start, o, ss, steps);
    }
    if Rankable(g, o) {
      var rank :| Compatible(g, g.vertices, o, rank);
      assert IsCore(g, g.vertices) by {
        assert forall e :: e in g.edges ==> e.from in Endpoints(g.edges);
      }
      CompatibleOrdersComplete(g, start, o, rank, ss, steps);
      if s.procs[0] == MainDone(false) {
        RunFalse(g, start, ss, steps);
      }
    }
  }

  // ---------------------------------------------------------------- a graph and orders that always deadlock

  const CROSSED_EDGES: set<Edge> := {
    Edge("root", "a"), Edge("root", "b"), Edge("a", "c"), Edge("a", "d"), Edge("b", "c"), Edge("b", "d")}

  const CROSSED: Graph := Graph({"root", "a", "b", "c", "d"}, CROSSED_EDGES)

  /** a serves c first, b serves d first, c waits for b first, d waits for a first. */
  ghost predicate CrossedOrders(o: Orders) {
    && "c" in o.wait && o.wait["c"] == ["b", "a"] && "d" in o.wait && o.wait["d"] == ["a", "b"]
    && "a" in o.send && o.send["a"] == ["c", "d"] && "b" in o.send && o.send["b"] == ["d", "c"]
  }

  /** Two vertices with two common dependents: with crossed orders Run never returns true, in any interleaving. */
  lemma CrossedOrdersNeverSucceed(o: Orders, ss: seq<State>, steps: seq<Step>)
    requires OrdersFor(CROSSED, CROSSED.vertices, o) && CrossedOrders(o)
    requires IsRunIn(CROSSED, "root", CROSSED.vertices, o, ss, steps)
    ensures |ss[|steps|].procs| > 0 && ss[|steps|].procs[0] != MainDone(true)
  {
    CrossedRunnable();
    RunGood(CROSSED, "root", ss, steps, |steps|);
    if ss[|steps|].procs[0] == MainDone(true) {
      CompletedRunsRank(CROSSED, "root", o, ss, steps);
      var rank :| Compatible(CROSSED, CROSSED.vertices, o, rank);
      CrossedRankImpossible(o, rank);
    }
  }

  lemma CrossedRunnable()
    ensures Runnable(CROSSED, "root") && forall v :: v in CROSSED.vertices ==> Reaches(CROSSED.edges, "root", v)
  {
    NumberedAcyclic(CROSSED_EDGES, map["root" := 0, "a" := 1, "b" := 1, "c" := 2, "d" := 2]);
    ReachesSelf(CROSSED_EDGES, "root");
    ReachesEdge(CROSSED_EDGES, "root", "a");
    ReachesEdge(CROSSED_EDGES, "root", "b");
    ReachesEdge(CROSSED_EDGES, "a", "c");
    ReachesEdge(CROSSED_EDGES, "a", "d");
    ReachesTransitive(CROSSED_EDGES, "root", "a", "c");
    ReachesTransitive(CROSSED_EDGES, "root", "a", "d");
  }

  lemma CrossedRankImpossible(o: Orders, rank: Ranking)
    requires CrossedOrders(o)
    ensures !Compatible(CROSSED, CROSSED.vertices, o, rank)
  {
    if Compatible(CROSSED, CROSSED.vertices, o, rank) {
      SendsRise(CROSSED, CROSSED.vertices, o, rank, "a", 0, 1);
      WaitsRise(CROSSED, CROSSED.vertices, o, rank, "d", 0, 1);
      SendsRise(CROSSED, CROSSED.vertices, o, rank, "b", 0, 1);
      WaitsRise(CROSSED, CROSSED.vertices, o, rank, "c", 0, 1);
    }
  }
}
