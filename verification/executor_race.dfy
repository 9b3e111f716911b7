/** Reading and setting the visited mark are two steps, so that two calls can both find a vertex unmarked and start two
    goroutines for it. It still runs at most once, but each goroutine may take a value the other one needs: then it never
    runs. This can happen to exactly the vertices with several edges into them. */
module ExecutorRace {
  import opened Graphs
  import opened Executor
  import opened ExecutorSteps
  import opened ExecutorTrace
  import opened ExecutorProgress
  import opened ExecutorDeliveries
  import opened ExecutorCompletion
  import opened ExecutorSchedules
  import opened ExecutorRespect
  import opened ExecutorTree
  import opened ExecutorLost
  import opened ExecutorSplit

  // ---------------------------------------------------------------- the run

  ghost predicate SplitSteps(o: Orders, core: set<Vertex>, x: nat, y: nat, a: Vertex, b: Vertex,
                             ss: seq<State>, steps: seq<Step>, from: nat) {
    |steps| <= |ss| && forall j :: from <= j < |steps| ==> Splitting(o, core, x, y, a, b, ss[j], steps[j])
  }

  lemma {:induction false} RunSplit(g: Graph, start: Vertex, o: Orders, core: set<Vertex>, ss: seq<State>, steps: seq<Step>,
                                    from: nat, v: Vertex, x: nat, y: nat, v1: seq<Vertex>, v2: seq<Vertex>, k: nat)
    requires Runnable(g, start) && IsRun(g, start, ss, steps) && from <= k < |ss|
    requires Split(ss[from], v, x, y, v1, v2) && SplitSteps(o, core, x, y, v1[0], v2[0], ss, steps, from)
    ensures Split(ss[k], v, x, y, v1, v2)
  {
    if from < k {
      RunSplit(g, start, o, core, ss, steps, from, v, x, y, v1, v2, k - 1);
      OneMoreSplit(g, start, o, core, ss, steps, from, v, x, y, v1, v2, k - 1);
    }
  }

  lemma OneMoreSplit(g: Graph, start: Vertex, o: Orders, core: set<Vertex>, ss: seq<State>, steps: seq<Step>,
                     from: nat, v: Vertex, x: nat, y: nat, v1: seq<Vertex>, v2: seq<Vertex>, k: nat)
    requires Runnable(g, start) && IsRun(g, start, ss, steps) && from <= k < |steps|
    requires Split(ss[k], v, x, y, v1, v2) && SplitSteps(o, core, x, y, v1[0], v2[0], ss, steps, from)
    ensures Split(ss[k + 1], v, x, y, v1, v2)
  {
    RunGood(g, start, ss, steps, k);
    NextState(g, start, ss, steps, k);
    StepSplit(g, start, o, core, ss[k], steps[k], v, x, y, v1, v2);
  }

  lemma BeforeIsCore(g: Graph, start: Vertex, v: Vertex)
    requires Runnable(g, start)
    ensures IsCore(g, Upstream(g, v) - {v})
  {
    UpstreamIsCore(g, start, v);
    forall e | e in g.edges && e.to in Upstream(g, v) - {v} ensures e.from in Upstream(g, v) - {v} {
      AcyclicEdgeProper(g.edges, e.from, e.to);
      if e.from == v {
        AcyclicAntisymmetric(g.edges, v, e.to);
      }
    }
  }

  /** What leads to v, without v. */
  lemma RaceCoreExists(g: Graph, start: Vertex, v: Vertex) returns (core: set<Vertex>, xs: seq<Vertex>)
    requires Runnable(g, start) && forall u :: u in g.vertices ==> Reaches(g.edges, start, u)
    ensures RaceCore(g, start, core, xs, v) && forall a :: Edge(a, v) in g.edges ==> a in core
  {
    core := Upstream(g, v) - {v};
    xs := TopologicalExists(g.edges, g.vertices);
    BeforeIsCore(g, start, v);
    SortedCompatible(g, start, core, xs, {v});
    forall a | Edge(a, v) in g.edges ensures a in core {
      AcyclicEdgeProper(g.edges, a, v);
      assert Edge(a, v).from in Endpoints(g.edges);
    }
  }

  /** An iteration over the vertices before v that starts with two given ones. */
  lemma StartingWith(vs: set<Vertex>, a: Vertex, b: Vertex) returns (xs: seq<Vertex>)
    requires a in vs && b in vs && a != b
    ensures Lists(xs, vs) && |xs| > 1 && xs[0] == a && xs[1] == b
  {
    var rest := Listing(vs - {a, b});
    xs := [a, b] + rest;
    forall x ensures x in vs <==> x in xs {
      assert x in vs - {a, b} <==> x in rest;
    }
    forall i, j | 0 <= i < j < |xs| ensures xs[i] != xs[j] {
      if j > 1 {
        assert xs[j] == rest[j - 2] && rest[j - 2] in rest;
        assert i > 1 ==> xs[i] == rest[i - 2];
      }
    }
  }

  /** A vertex with two edges into it can be lost although nothing goes wrong. */
  lemma RaceLosesVertex(g: Graph, start: Vertex, v: Vertex, a: Vertex, b: Vertex) returns (ss: seq<State>, steps: seq<Step>)
    requires Runnable(g, start) && forall u :: u in g.vertices ==> Reaches(g.edges, start, u)
    requires Edge(a, v) in g.edges && Edge(b, v) in g.edges && a != b
    ensures CleanRun(g, start, ss, steps) && Lost(ss[|steps|], v)
  {
    assert Edge(a, v).from in Endpoints(g.edges) && Edge(b, v).from in Endpoints(g.edges);
    var core, xs := RaceCoreExists(g, start, v);
    PredecessorsContain(g.edges, a, v);
    PredecessorsContain(g.edges, b, v);
    var v1 := StartingWith(Predecessors(g.edges, v), a, b);
    var v2 := StartingWith(Predecessors(g.edges, v), b, a);
    ss, steps := RaceIn(g, start, core, xs, v, v1, v2);
  }

  lemma RaceIn(g: Graph, start: Vertex, core: set<Vertex>, xs: seq<Vertex>, v: Vertex, v1: seq<Vertex>, v2: seq<Vertex>)
    returns (ss: seq<State>, steps: seq<Step>)
    requires RaceCore(g, start, core, xs, v) && |v1| > 1 && |v2| > 1 && v1[0] == v2[1] && v1[1] == v2[0] && v1[0] != v2[0]
    requires Lists(v1, Predecessors(g.edges, v)) && Lists(v2, Predecessors(g.edges, v))
    requires Edge(v1[0], v) in g.edges && Edge(v2[0], v) in g.edges && v1[0] in core && v2[0] in core
    ensures CleanRun(g, start, ss, steps) && Lost(ss[|steps|], v)
  {
    var ss1, steps1 := RaceSpawned(g, start, core, xs, v, v1, v2);
    var n := |ss1[|steps1|].procs|;
    ss, steps := SplitRun(g, start, core, xs, ss1, steps1, v, n - 2, n - 1, v1, v2);
  }

  /** The run up to the two goroutines. */
  lemma RaceSpawned(g: Graph, start: Vertex, core: set<Vertex>, xs: seq<Vertex>, v: Vertex, v1: seq<Vertex>, v2: seq<Vertex>)
    returns (ss: seq<State>, steps: seq<Step>)
    requires RaceCore(g, start, core, xs, v) && |v1| > 1 && |v2| > 1 && v1[0] == v2[1] && v1[1] == v2[0] && v1[0] != v2[0]
    requires Lists(v1, Predecessors(g.edges, v)) && Lists(v2, Predecessors(g.edges, v))
    requires Edge(v1[0], v) in g.edges && Edge(v2[0], v) in g.edges && v1[0] in core && v2[0] in core
    ensures CleanIn(g, start, core, SortedOrders(g, xs, core, {v}), ss, steps) && |ss[|steps|].procs| > 1
    ensures Split(ss[|steps|], v, |ss[|steps|].procs| - 2, |ss[|steps|].procs| - 1, v1, v2)
  {
    var o := SortedOrders(g, xs, core, {v});
    var k, l;
    ss, steps, k, l := GatherTwo(g, start, core, o, v, v1[0], v2[0]);
    ss, steps := RaceGathered(g, start, core, o, ss, steps, v, k, l, v1, v2);
  }

  lemma RaceGathered(g: Graph, start: Vertex, core: set<Vertex>, o: Orders, ss: seq<State>, steps: seq<Step>,
                     v: Vertex, k: nat, l: nat, v1: seq<Vertex>, v2: seq<Vertex>) returns (ss': seq<State>, steps': seq<Step>)
    requires Runnable(g, start) && CleanIn(g, start, core, o, ss, steps) && v !in core
    requires |v1| > 1 && |v2| > 1 && v1[0] == v2[1] && v1[1] == v2[0]
    requires Lists(v1, Predecessors(g.edges, v)) && Lists(v2, Predecessors(g.edges, v))
    requires Gathered(ss[|steps|], v) && k != l && k < |ss[|steps|].procs| && l < |ss[|steps|].procs|
    requires ss[|steps|].procs[k] == Check(v) && ss[|steps|].procs[l] == Check(v)
    ensures CleanIn(g, start, core, o, ss', steps') && |ss'[|steps'|].procs| > 1
    ensures Split(ss'[|steps'|], v, |ss'[|steps'|].procs| - 2, |ss'[|steps'|].procs| - 1, v1, v2)
  {
    var s := ss[|steps|];
    RunGood(g, start, ss, steps, |steps|);
    SpawnedSplit(g, s, v, k, l, v1, v2);
    ss', steps' := SpawnTwo(g, start, core, o, ss, steps, v, k, l, v1, v2);
  }

  lemma SplitRun(g: Graph, start: Vertex, core: set<Vertex>, xs: seq<Vertex>, ss: seq<State>, steps: seq<Step>,
                 v: Vertex, x: nat, y: nat, v1: seq<Vertex>, v2: seq<Vertex>) returns (ss': seq<State>, steps': seq<Step>)
    requires RaceCore(g, start, core, xs, v) && CleanIn(g, start, core, SortedOrders(g, xs, core, {v}), ss, steps)
    requires Split(ss[|steps|], v, x, y, v1, v2) && v1[0] != v2[0] && v1[0] in core && v2[0] in core
    requires Edge(v1[0], v) in g.edges && Edge(v2[0], v) in g.edges
    ensures CleanRun(g, start, ss', steps') && Lost(ss'[|steps'|], v)
  {
    var o := SortedOrders(g, xs, core, {v});
    ss', steps' := RunUnder(g, start, ss, steps, (s, step) => Splitting(o, core, x, y, v1[0], v2[0], s, step));
    assert ss'[|steps|] == ss[|steps|];
    ContinueIn(g, start, core, o, ss, steps, ss', steps');
    RunSplit(g, start, o, core, ss', steps', |steps|, v, x, y, v1, v2, |steps'|);
    RunGood(g, start, ss', steps', |steps'|);
    RunTracks(g, start, ss', steps', |steps'|);
    RunOrderly(g, start, core, o, ss', steps', |steps'|);
    SplitLost(g, start, core, xs, ss'[|steps'|], v, x, y, v1, v2);
  }

  // ---------------------------------------------------------------- main result

  /** Every run that can go no further, without failures or cancelling, returned true. */
  ghost predicate AlwaysSucceeds(g: Graph, start: Vertex) {
    forall ss: seq<State>, steps: seq<Step> ::
      IsRun(g, start, ss, steps) && Finished(g, ss[|steps|]) && Clean(ss[|steps|]) ==>
        |ss[|steps|].procs| > 0 && ss[|steps|].procs[0] == MainDone(true)
  }

  /** Exactly the graphs in which every vertex has at most one edge into it are executed without fail. */
  lemma AlwaysSucceedsIffSingleEntry(g: Graph, start: Vertex)
    requires Runnable(g, start) && forall u :: u in g.vertices ==> Reaches(g.edges, start, u)
    ensures AlwaysSucceeds(g, start) <==> SingleEntry(g)
  {
    if SingleEntry(g) {
      forall ss: seq<State>, steps: seq<Step> | IsRun(g, start, ss, steps) && Finished(g, ss[|steps|]) && Clean(ss[|steps|])
        ensures |ss[|steps|].procs| > 0 && ss[|steps|].procs[0] == MainDone(true)
      {
        TreeSucceeds(g, start, ss, steps);
      }
    } else {
      var e, f :| e in g.edges && f in g.edges && e.to == f.to && e != f;
      assert e == Edge(e.from, e.to) && f == Edge(f.from, e.to) && e.to in Endpoints(g.edges);
      var ss, steps := RaceLosesVertex(g, start, e.to, e.from, f.from);
      var ss', steps' := RunOut(g, start, ss, steps);
      assert ss'[|steps|] == ss[|steps|];
      LostNeverSucceeds(g, start, ss', steps', e.to, |steps|, |steps'|);
      RunClean(g, start, ss', steps', |steps'|);
    }
  }

  // ---------------------------------------------------------------- cancelling

  /** A run that has lost a vertex, cancelled at that point, can only end with Run returning false, and does. */
  lemma CancelledRace(g: Graph, start: Vertex, v: Vertex, a: Vertex, b: Vertex)
    returns (ss: seq<State>, steps: seq<Step>, k: nat)
    requires Runnable(g, start) && forall u :: u in g.vertices ==> Reaches(g.edges, start, u)
    requires Edge(a, v) in g.edges && Edge(b, v) in g.edges && a != b
    ensures IsRun(g, start, ss, steps) && k < |steps| && steps[k] == Cancel && Lost(ss[k], v)
    ensures forall v :: Finish(v, false) !in ss[k].trace
    ensures forall step :: !Enabled(g, ss[|steps|], step)
    ensures |ss[|steps|].procs| > 0 && ss[|steps|].procs[0] == MainDone(false)
  {
    assert Edge(a, v).to in Endpoints(g.edges);
    var ss1, steps1 := RaceLosesVertex(g, start, v, a, b);
    k := |steps1|;
    RunClean(g, start, ss1, steps1, k);
    RunGood(g, start, ss1, steps1, k);
    MainIsThere(g, start, ss1[k]);
    var ss2, steps2 := Extend(g, start, ss1, steps1, Cancel);
    ss, steps := RunUnder(g, start, ss2, steps2, (s, step) => true);
    assert ss2[k] == ss1[k] && ss[k] == ss2[k] && steps[k] == steps2[k] == Cancel;
    assert ss[k + 1] == ss2[k + 1];
    StaysCancelled(g, start, ss, steps, k + 1, |steps|);
    CancelledReturns(g, start, ss, steps);
    LostNeverSucceeds(g, start, ss, steps, v, k, |steps|);
  }

  lemma {:induction false} StaysCancelled(g: Graph, start: Vertex, ss: seq<State>, steps: seq<Step>, i: nat, k: nat)
    requires IsRun(g, start, ss, steps) && i <= k < |ss| && ss[i].cancelled
    ensures ss[k].cancelled
  {
    if i < k {
      StaysCancelled(g, start, ss, steps, i, k - 1);
      NextState(g, start, ss, steps, k - 1);
      StepFields(g, ss[k - 1], steps[k - 1]);
    }
  }

  // ---------------------------------------------------------------- a graph that the reduction leaves as it is

  const DIAMOND: Graph := Graph({"root", "a", "b", "v"}, {Edge("root", "a"), Edge("root", "b"), Edge("a", "v"), Edge("b", "v")})

  /** Two branches that meet: without any redundant edge, and not always executed. */
  lemma DiamondMayHang()
    ensures Runnable(DIAMOND, "root") && forall u :: u in DIAMOND.vertices ==> Reaches(DIAMOND.edges, "root", u)
    ensures forall e :: e in DIAMOND.edges ==> !Redundant(DIAMOND.edges, e)
    ensures !AlwaysSucceeds(DIAMOND, "root")
  {
    DiamondRunnable();
    DiamondNeeded();
    AlwaysSucceedsIffSingleEntry(DIAMOND, "root");
    assert Edge("a", "v") in DIAMOND.edges && Edge("b", "v") in DIAMOND.edges;
  }

  lemma DiamondRunnable()
    ensures Runnable(DIAMOND, "root") && forall u :: u in DIAMOND.vertices ==> Reaches(DIAMOND.edges, "root", u)
  {
    NumberedAcyclic(DIAMOND.edges, map["root" := 0, "a" := 1, "b" := 1, "v" := 2]);
    ReachesSelf(DIAMOND.edges, "root");
    ReachesEdge(DIAMOND.edges, "root", "a");
    ReachesEdge(DIAMOND.edges, "root", "b");
    ReachesEdge(DIAMOND.edges, "a", "v");
    ReachesTransitive(DIAMOND.edges, "root", "a", "v");
  }

  /** Neither branch leads to the other, and nothing follows v. */
  lemma DiamondNeeded()
    ensures forall e :: e in DIAMOND.edges ==> !Redundant(DIAMOND.edges, e)
  {
    forall e | e in DIAMOND.edges && Redundant(DIAMOND.edges, e) ensures false {
      var x :| Edge(e.from, x) in DIAMOND.edges && x != e.to && Reaches(DIAMOND.edges, x, e.to);
      var y := ReachesLast(DIAMOND.edges, x, e.to);
      assert y != "v";
      if y != x {
        var z := ReachesLast(DIAMOND.edges, x, y);
      }
    }
  }

  /** The caller of the diamond's lossy run gets an answer by cancelling. */
  lemma DiamondCancelled() returns (ss: seq<State>, steps: seq<Step>, k: nat)
    ensures IsRun(DIAMOND, "root", ss, steps) && k < |steps| && steps[k] == Cancel && Lost(ss[k], "v")
    ensures |ss[|steps|].procs| > 0 && ss[|steps|].procs[0] == MainDone(false)
  {
    DiamondRunnable();
    ss, steps, k := CancelledRace(DIAMOND, "root", "v", "a", "b");
  }
}
