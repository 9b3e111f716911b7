/** Where every vertex has at most one edge into it, the executor cannot get stuck, whatever the interleaving, the races and the
    iteration orders. */
module ExecutorTree {
  import opened Graphs
  import opened Executor
  import opened ExecutorSafety
  import opened ExecutorTrace
  import opened ExecutorProgress
  import opened ExecutorCompletion

  ghost predicate SingleEntry(g: Graph) {
    forall e, f :: e in g.edges && f in g.edges && e.to == f.to ==> e == f
  }

  /** Apart from the caller cancelling, nothing can happen any more, in whatever order. */
  ghost predicate Finished(g: Graph, s: State) {
    forall step :: step != Cancel ==> !Enabled(g, s, step)
  }

  /** Nothing went wrong: the caller did not cancel and no BlockRun returned false. */
  ghost predicate Clean(s: State) {
    !s.cancelled && forall v :: Finish(v, false) !in s.trace
  }

  lemma FinishedBlocks(g: Graph, start: Vertex, s: State, i: nat)
    requires Good(g, start, s) && Finished(g, s) && i < |s.procs|
    ensures Blocked(s, s.procs[i])
  {
    if !Blocked(s, s.procs[i]) {
      var step := UnblockedMoves(g, start, {}, Orders(map[], map[]), s, i);
    }
  }

  lemma FinishedStill(g: Graph, start: Vertex, s: State)
    requires Good(g, start, s) && Finished(g, s)
    ensures Still(s, g.vertices) && forall i: nat :: !Reporting(s, i)
  {
    forall i | 0 <= i < |s.procs| ensures Blocked(s, s.procs[i]) {
      FinishedBlocks(g, start, s, i);
    }
    forall i: nat, j: nat ensures !Meet(s, i, j) {
      if Meet(s, i, j) {
        MeetDelivers(g, start, s, i, j);
      }
    }
    forall i: nat ensures !Reporting(s, i) {
      if Reporting(s, i) {
        ReportReady(g, start, s, i);
      }
    }
  }

  /** With one edge into it a vertex has one receiver. */
  lemma TreeReceiver(g: Graph, start: Vertex, s: State)
    requires SingleEntry(g) && Inv(g, start, s)
    ensures OneReceiver(g.vertices, s)
  {
    forall e, f | e in s.delivered && f in s.delivered && e.to == f.to && e.to in g.vertices ensures SameReceiver(s, e, f) {
      assert e in g.edges && f in g.edges;
    }
  }

  ghost function Depth(g: Graph, v: Vertex): int {
    |g.vertices| - |Descendants(g.edges, v)|
  }

  lemma DepthRises(g: Graph, start: Vertex, e: Edge)
    requires Runnable(g, start) && e in g.edges
    ensures 0 <= Depth(g, e.from) < Depth(g, e.to)
  {
    AcyclicEdgeProper(g.edges, e.from, e.to);
    DescendantsShrink(g.edges, e.from, e.to);
    assert e.from in Endpoints(g.edges) && e.to in Endpoints(g.edges);
    SubsetNoLarger(Descendants(g.edges, e.from), g.vertices);
  }

  /** What is true of a run of a tree that stopped. */
  ghost predicate TreeStopped(g: Graph, start: Vertex, s: State) {
    && Runnable(g, start) && SingleEntry(g) && (forall v :: v in g.vertices ==> Reaches(g.edges, start, v))
    && Good(g, start, s) && Tracks(g, start, s) && Still(s, g.vertices) && OneReceiver(g.vertices, s)
  }

  /** A vertex whose edge was served, or that has none, is past waiting. */
  lemma TreeSender(g: Graph, start: Vertex, s: State, u: Vertex) returns (i: nat)
    requires TreeStopped(g, start, s) && u in g.vertices && forall e :: e in g.edges && e.to == u ==> e in s.delivered
    ensures ReturnedAt(g, s, i, u)
  {
    i := ServedReturned(g, start, g.vertices, s, u);
  }

  lemma TreeWaiter(g: Graph, start: Vertex, s: State, e: Edge) returns (j: nat)
    requires TreeStopped(g, start, s) && e in g.edges && e !in s.delivered
    ensures j < |s.procs| && s.procs[j].Wait? && s.procs[j].at == e.to && s.procs[j].todo != [] && s.procs[j].todo[0] == e.from
  {
    assert e.to in Endpoints(g.edges);
    j := StuckForemost(g, start, g.vertices, s, e.to);
    StillBlocks(s, g.vertices, j);
    StuckSettled(g, start, s, j);
    var p := s.procs[j];
    assert Local(g, start, s, j);
    PredecessorsContain(g.edges, e.from, e.to);
    assert e == Edge(e.from, p.at);
    assert !Got(s, j, e.from, p.at);
    assert p.Wait?;
    assert Edge(p.todo[0], p.at) == e;
  }

  /** The edges into a vertex being served, so are those out of it. */
  lemma TreeServes(g: Graph, start: Vertex, s: State, e: Edge)
    requires TreeStopped(g, start, s) && e in g.edges && forall f :: f in g.edges && f.to == e.from ==> f in s.delivered
    ensures e in s.delivered
  {
    assert e.from in Endpoints(g.edges);
    if e !in s.delivered {
      assert e == Edge(e.from, e.to);
      var i := TreeSender(g, start, s, e.from);
      StillToServe(g, start, s, e.to, e.from, i);
      var j := TreeWaiter(g, start, s, Edge(e.from, s.procs[i].todo[0]));
      NoMeeting(s, g.vertices, i, j);
    }
  }

  lemma {:induction false} TreeServed(g: Graph, start: Vertex, s: State, e: Edge)
    requires TreeStopped(g, start, s) && e in g.edges
    ensures e in s.delivered
    decreases Depth(g, e.from)
  {
    DepthRises(g, start, e);
    forall f | f in g.edges && f.to == e.from ensures f in s.delivered {
      DepthRises(g, start, f);
      TreeServed(g, start, s, f);
    }
    TreeServes(g, start, s, e);
  }

  /** A run over a tree that can go no further, without failures or cancelling, returned true. */
  lemma TreeSucceeds(g: Graph, start: Vertex, ss: seq<State>, steps: seq<Step>)
    requires Runnable(g, start) && SingleEntry(g) && forall v :: v in g.vertices ==> Reaches(g.edges, start, v)
    requires IsRun(g, start, ss, steps) && Finished(g, ss[|steps|]) && Clean(ss[|steps|])
    ensures |ss[|steps|].procs| > 0 && ss[|steps|].procs[0] == MainDone(true)
  {
    var s := ss[|steps|];
    RunGood(g, start, ss, steps, |steps|);
    RunTracks(g, start, ss, steps, |steps|);
    FinishedStill(g, start, s);
    TreeReceiver(g, start, s);
    forall e | e in g.edges ensures e in s.delivered {
      TreeServed(g, start, s, e);
    }
    AllServedComplete(g, start, s);
    if s.procs[0] == MainDone(false) {
      RunFalse(g, start, ss, steps);
    }
  }
}
