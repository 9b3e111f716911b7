/** Exactly which vertices the executor keeps waiting for which: those that reach them. */
module ExecutorRespect {
  import opened Graphs
  import opened Executor
  import opened ExecutorSteps
  import opened ExecutorSafety
  import opened ExecutorTrace
  import opened ExecutorProgress
  import opened ExecutorDeliveries
  import opened ExecutorCompletion
  import opened ExecutorSchedules

  ghost predicate ReturnedBefore(trace: seq<Event>, u: Vertex, k: nat) {
    exists j :: 0 <= j < k && j < |trace| && trace[j].Finish? && trace[j].v == u
  }

  ghost predicate StartsAt(g: Graph, start: Vertex, ss: seq<State>, steps: seq<Step>, w: Vertex, k: nat) {
    IsRun(g, start, ss, steps) && k < |ss[|steps|].trace| && ss[|steps|].trace[k] == Start(w)
  }

  /** In every run w starts only after u has returned. */
  ghost predicate Respected(g: Graph, start: Vertex, u: Vertex, w: Vertex) {
    forall ss: seq<State>, steps: seq<Step>, k: nat ::
      StartsAt(g, start, ss, steps, w, k) ==> ReturnedBefore(ss[|steps|].trace, u, k)
  }

  /** The scheduler that never lets the held vertices run, and lets exactly the failed ones fail: it follows the orders in the
      core, and nothing is cancelled. */
  ghost predicate Holding(o: Orders, core: set<Vertex>, held: set<Vertex>, failed: set<Vertex>, s: State, step: Step) {
    && Follows(o, core, s, step) && step != Cancel
    && (step.EndRun? ==> step.i < |s.procs| && s.procs[step.i].Running? && (step.success <==> s.procs[step.i].at !in failed))
    && (step.BeginRun? ==> step.i < |s.procs| && s.procs[step.i].Wait? && s.procs[step.i].at !in held)
  }

  lemma {:induction false} NeverStarts(g: Graph, start: Vertex, o: Orders, core: set<Vertex>, held: set<Vertex>,
                                       failed: set<Vertex>, u: Vertex, ss: seq<State>, steps: seq<Step>, k: nat)
    requires IsRun(g, start, ss, steps) && k < |ss| && u in held
    requires forall j :: 0 <= j < |steps| ==> Holding(o, core, held, failed, ss[j], steps[j])
    ensures u !in StartedIn(ss[k].trace)
  {
    if k > 0 {
      var s, step := ss[k - 1], steps[k - 1];
      NeverStarts(g, start, o, core, held, failed, u, ss, steps, k - 1);
      NextState(g, start, ss, steps, k - 1);
      assert Holding(o, core, held, failed, s, step);
      StepStarts(g, s, step, u);
    }
  }

  lemma StepStarts(g: Graph, s: State, step: Step, u: Vertex)
    requires Enabled(g, s, step) && u !in StartedIn(s.trace) && (step.BeginRun? ==> s.procs[step.i].at != u)
    ensures u !in StartedIn(Apply(g, s, step).trace)
  {
    if step.BeginRun? {
      TraceExtend(s.trace, Start(s.procs[step.i].at));
    } else if step.EndRun? {
      TraceExtend(s.trace, Finish(s.procs[step.i].at, step.success));
    } else {
      StepFields(g, s, step);
    }
  }

  lemma HeldMoves(g: Graph, start: Vertex, o: Orders, core: set<Vertex>, held: set<Vertex>, failed: set<Vertex>, s: State, i: nat)
    requires Good(g, start, s) && OrdersFor(g, core, o) && held !! core
    requires i < |s.procs| && (IsWorker(s.procs[i]) ==> s.procs[i].at in core) && !Blocked(s, s.procs[i])
    ensures exists step :: Holding(o, core, held, failed, s, step) && Enabled(g, s, step)
  {
    var step := UnblockedMoves(g, start, core, o, s, i);
    if s.procs[i].Running? {
      step := EndRun(i, s.procs[i].at !in failed);
    }
    assert Holding(o, core, held, failed, s, step);
  }

  /** When no such step is left, the core is still. */
  lemma HeldStill(g: Graph, start: Vertex, o: Orders, core: set<Vertex>, held: set<Vertex>, failed: set<Vertex>, s: State)
    requires Good(g, start, s) && OrdersFor(g, core, o) && held !! core
    requires forall step :: Holding(o, core, held, failed, s, step) ==> !Enabled(g, s, step)
    ensures Still(s, core)
  {
    forall i | 0 <= i < |s.procs| && (IsWorker(s.procs[i]) ==> s.procs[i].at in core) ensures Blocked(s, s.procs[i]) {
      if !Blocked(s, s.procs[i]) {
        HeldMoves(g, start, o, core, held, failed, s, i);
      }
    }
    forall i: nat, j: nat ensures !Meet(s, i, j) {
      if Meet(s, i, j) {
        MeetDelivers(g, start, s, i, j);
      }
    }
  }

  /** What leads to w, w included. */
  ghost function Upstream(g: Graph, w: Vertex): set<Vertex> {
    set x | x in g.vertices && Reaches(g.edges, x, w)
  }

  lemma UpstreamIsCore(g: Graph, start: Vertex, w: Vertex)
    requires Runnable(g, start)
    ensures IsCore(g, Upstream(g, w))
  {
    forall e | e in g.edges && e.to in Upstream(g, w) ensures e.from in Upstream(g, w) {
      assert e.from in Endpoints(g.edges);
      ReachesEdge(g.edges, e.from, e.to);
      ReachesTransitive(g.edges, e.from, e.to, w);
    }
  }

  /** A run that goes on under such a scheduler until w has started. */
  lemma HeldRun(g: Graph, start: Vertex, held: set<Vertex>, failed: set<Vertex>, w: Vertex)
    returns (ss: seq<State>, steps: seq<Step>, k: nat, o: Orders)
    requires Runnable(g, start) && (forall v :: v in g.vertices ==> Reaches(g.edges, start, v))
    requires w in g.vertices && held !! Upstream(g, w)
    ensures StartsAt(g, start, ss, steps, w, k) && !ss[|steps|].cancelled
    ensures forall j :: 0 <= j < |steps| ==> Holding(o, Upstream(g, w), held, failed, ss[j], steps[j])
  {
    var core := Upstream(g, w);
    var xs := TopologicalExists(g.edges, g.vertices);
    o := SortedOrders(g, xs, core, {});
    UpstreamIsCore(g, start, w);
    SortedCompatible(g, start, core, xs, {});
    ss, steps := RunUnder(g, start, [Init(start)], [], (s, step) => Holding(o, core, held, failed, s, step));
    NeverCancelled(g, start, o, core, held, failed, ss, steps, |steps|);
    ReachesSelf(g.edges, w);
    k := HeldStarts(g, start, core, o, SortedRank(g, xs), held, failed, ss, steps, w);
  }

  /** A vertex that does not reach w can be kept from running while w starts. */
  lemma StartsWithout(g: Graph, start: Vertex, u: Vertex, w: Vertex) returns (ss: seq<State>, steps: seq<Step>, k: nat)
    requires Runnable(g, start) && (forall v :: v in g.vertices ==> Reaches(g.edges, start, v))
    requires w in g.vertices && !Reaches(g.edges, u, w)
    ensures StartsAt(g, start, ss, steps, w, k)
    ensures u !in StartedIn(ss[|steps|].trace)
    ensures !ss[|steps|].cancelled
  {
    var o;
    ss, steps, k, o := HeldRun(g, start, {u}, {}, w);
    NeverStarts(g, start, o, Upstream(g, w), {u}, {}, u, ss, steps, |steps|);
  }

  /** When the scheduler has nothing left to do, every vertex of the core has started. */
  lemma HeldStarts(g: Graph, start: Vertex, core: set<Vertex>, o: Orders, rank: Ranking, held: set<Vertex>, failed: set<Vertex>,
                   ss: seq<State>, steps: seq<Step>, w: Vertex) returns (k: nat)
    requires Ranked(g, start, core, o, rank) && IsRunIn(g, start, core, o, ss, steps) && held !! core && w in core
    requires forall step :: Holding(o, core, held, failed, ss[|steps|], step) ==> !Enabled(g, ss[|steps|], step)
    ensures StartsAt(g, start, ss, steps, w, k)
  {
    var s := ss[|steps|];
    RunGood(g, start, ss, steps, |steps|);
    RunTracks(g, start, ss, steps, |steps|);
    RunOrderly(g, start, core, o, ss, steps, |steps|);
    HeldStill(g, start, o, core, held, failed, s);
    StuckCoreServed(g, start, core, o, rank, s);
    var i := ServedReturned(g, start, core, s, w);
    k := StartOf(g, s.trace, w);
  }

  lemma {:induction false} NeverCancelled(g: Graph, start: Vertex, o: Orders, core: set<Vertex>, held: set<Vertex>,
                                          failed: set<Vertex>, ss: seq<State>, steps: seq<Step>, k: nat)
    requires IsRun(g, start, ss, steps) && k < |ss|
    requires forall j :: 0 <= j < |steps| ==> Holding(o, core, held, failed, ss[j], steps[j])
    ensures !ss[k].cancelled
  {
    if k > 0 {
      NeverCancelled(g, start, o, core, held, failed, ss, steps, k - 1);
      assert Holding(o, core, held, failed, ss[k - 1], steps[k - 1]) && ss[k - 1 + 1] == Apply(g, ss[k - 1], steps[k - 1]);
      CancelOnly(g, ss[k - 1], steps[k - 1]);
    }
  }

  lemma CancelOnly(g: Graph, s: State, step: Step)
    requires Enabled(g, s, step) && step != Cancel
    ensures Apply(g, s, step).cancelled == s.cancelled
  {
  }

  lemma StartOf(g: Graph, trace: seq<Event>, w: Vertex) returns (k: nat)
    requires Legal(g, trace) && w in ResultsIn(trace)
    ensures k < |trace| && trace[k] == Start(w)
  {
    var j := FinishOccurs(trace, w);
    assert MayFollow(g, trace[..j], trace[j]);
    k := StartedOccurs(trace[..j], w);
  }

  lemma ReturnedStarted(g: Graph, s: State, u: Vertex)
    requires Traced(g, s) && u in ResultsIn(s.trace)
    ensures u in StartedIn(s.trace)
  {
    assert FinishedBySome(s, u);
    var i :| 0 <= i < |s.procs| && HasFinished(s.procs[i]) && s.procs[i].at == u;
    assert TracedOf(s.trace, s.procs[i]);
  }

  lemma NotReturned(g: Graph, s: State, u: Vertex, k: nat)
    requires Traced(g, s) && u !in StartedIn(s.trace)
    ensures !ReturnedBefore(s.trace, u, k)
  {
    if ReturnedBefore(s.trace, u, k) {
      var j :| 0 <= j < k && j < |s.trace| && s.trace[j].Finish? && s.trace[j].v == u;
      StartRecorded(s.trace, j);
      ReturnedStarted(g, s, u);
    }
  }

  /** The executor makes w wait for u in every interleaving exactly when u reaches w. */
  lemma RespectedIff(g: Graph, start: Vertex, u: Vertex, w: Vertex)
    requires Runnable(g, start) && (forall v :: v in g.vertices ==> Reaches(g.edges, start, v))
    requires w in g.vertices && u != w
    ensures Respected(g, start, u, w) <==> Reaches(g.edges, u, w)
  {
    if Reaches(g.edges, u, w) {
      forall ss: seq<State>, steps: seq<Step>, k: nat | StartsAt(g, start, ss, steps, w, k)
        ensures ReturnedBefore(ss[|steps|].trace, u, k)
      {
        RunsAfterAncestors(g, start, ss, steps, u, w, k);
      }
    } else {
      var ss, steps, k := StartsWithout(g, start, u, w);
      RunGood(g, start, ss, steps, |steps|);
      NotReturned(g, ss[|steps|], u, k);
    }
  }

  // ---------------------------------------------------------------- failed vertices

  ghost predicate SucceededBefore(trace: seq<Event>, u: Vertex, k: nat) {
    exists j :: 0 <= j < k && j < |trace| && trace[j] == Finish(u, true)
  }

  /** In every run w starts only after u has returned true. */
  ghost predicate SuccessAwaited(g: Graph, start: Vertex, u: Vertex, w: Vertex) {
    forall ss: seq<State>, steps: seq<Step>, k: nat ::
      StartsAt(g, start, ss, steps, w, k) ==> SucceededBefore(ss[|steps|].trace, u, k)
  }

  /** Exactly the failed vertices returned false. */
  ghost predicate FailedAre(trace: seq<Event>, failed: set<Vertex>) {
    forall v, ok :: Finish(v, ok) in trace ==> (ok <==> v !in failed)
  }

  lemma {:induction false} OnlyFailed(g: Graph, start: Vertex, o: Orders, core: set<Vertex>, held: set<Vertex>,
                                      failed: set<Vertex>, ss: seq<State>, steps: seq<Step>, k: nat)
    requires IsRun(g, start, ss, steps) && k < |ss|
    requires forall j :: 0 <= j < |steps| ==> Holding(o, core, held, failed, ss[j], steps[j])
    ensures FailedAre(ss[k].trace, failed)
  {
    if k > 0 {
      var s, step := ss[k - 1], steps[k - 1];
      OnlyFailed(g, start, o, core, held, failed, ss, steps, k - 1);
      NextState(g, start, ss, steps, k - 1);
      assert Holding(o, core, held, failed, s, step);
      StepReturns(g, s, step, failed);
    }
  }

  lemma StepReturns(g: Graph, s: State, step: Step, failed: set<Vertex>)
    requires Enabled(g, s, step) && FailedAre(s.trace, failed)
    requires step.EndRun? ==> (step.success <==> s.procs[step.i].at !in failed)
    ensures FailedAre(Apply(g, s, step).trace, failed)
  {
    if !step.BeginRun? && !step.EndRun? {
      StepFields(g, s, step);
    }
  }

  /** A failure is no obstacle: whatever u leads to starts although u, and nothing else, returned false before. */
  lemma StartsAfterFailure(g: Graph, start: Vertex, u: Vertex, w: Vertex) returns (ss: seq<State>, steps: seq<Step>, j: nat, k: nat)
    requires Runnable(g, start) && (forall v :: v in g.vertices ==> Reaches(g.edges, start, v))
    requires w in g.vertices && u != w && Reaches(g.edges, u, w)
    ensures StartsAt(g, start, ss, steps, w, k) && !ss[|steps|].cancelled
    ensures j < k && ss[|steps|].trace[j] == Finish(u, false)
    ensures FailedAre(ss[|steps|].trace, {u})
  {
    var o;
    ss, steps, k, o := HeldRun(g, start, {}, {u}, w);
    OnlyFailed(g, start, o, Upstream(g, w), {}, {u}, ss, steps, |steps|);
    RunsAfterAncestors(g, start, ss, steps, u, w, k);
    var trace := ss[|steps|].trace;
    j :| 0 <= j < k && trace[j].Finish? && trace[j].v == u;
    assert trace[j] == Finish(u, trace[j].success) && trace[j] in trace;
  }

  lemma NeverSucceeded(trace: seq<Event>, u: Vertex, k: nat)
    requires FailedAre(trace, {u})
    ensures !SucceededBefore(trace, u, k)
  {
    forall j | 0 <= j < k && j < |trace| ensures trace[j] != Finish(u, true) {
      assert trace[j] in trace;
    }
  }

  /** No vertex ever waits for the success of another one. */
  lemma SuccessNeverAwaited(g: Graph, start: Vertex, u: Vertex, w: Vertex)
    requires Runnable(g, start) && (forall v :: v in g.vertices ==> Reaches(g.edges, start, v))
    requires w in g.vertices && u != w
    ensures !SuccessAwaited(g, start, u, w)
  {
    if Reaches(g.edges, u, w) {
      var ss, steps, j, k := StartsAfterFailure(g, start, u, w);
      NeverSucceeded(ss[|steps|].trace, u, k);
    } else {
      var ss, steps, k := StartsWithout(g, start, u, w);
      RunGood(g, start, ss, steps, |steps|);
      NotReturned(g, ss[|steps|], u, k);
    }
  }

  /** In every run a vertex starts only after all its predecessors succeeded exactly when it has none. */
  lemma PredecessorsSucceedIff(g: Graph, start: Vertex, w: Vertex)
    requires Runnable(g, start) && (forall v :: v in g.vertices ==> Reaches(g.edges, start, v)) && w in g.vertices
    ensures (forall u :: u in Predecessors(g.edges, w) ==> SuccessAwaited(g, start, u, w)) <==> Predecessors(g.edges, w) == {}
  {
    forall u | u in Predecessors(g.edges, w) ensures !SuccessAwaited(g, start, u, w) {
      PredecessorsContain(g.edges, u, w);
      AcyclicEdgeProper(g.edges, u, w);
      SuccessNeverAwaited(g, start, u, w);
    }
  }
}
