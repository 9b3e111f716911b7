/** Every run of the executor is finite, whatever the interleaving and the iteration orders: each goroutine's remaining
    work, including the goroutines it will still start, shrinks with every step. */
module ExecutorTermination {
  import opened Graphs
  import opened Executor
  import opened ExecutorSafety
  import opened ExecutorTrace

  /** Bound on the steps of one vertex goroutine in a graph of n vertices. */
  function WorkerBound(n: nat): nat {
    3 * n + 7
  }

  /** Bound on the steps of a walk from a vertex with d descendants, and of everything it starts. */
  function WalkBound(n: nat, d: nat): nat {
    (if d == 0 then 0 else n * (1 + WalkBound(n, d - 1))) + n + 8 + WorkerBound(n)
  }

  lemma {:induction false} WalkBoundMonotone(n: nat, c: nat, d: nat)
    requires c <= d
    ensures WalkBound(n, c) <= WalkBound(n, d)
  {
    if c > 0 {
      WalkBoundMonotone(n, c - 1, d - 1);
      ScaleMonotone(n, 1 + WalkBound(n, c - 1), 1 + WalkBound(n, d - 1));
    }
  }

  lemma ScaleMonotone(n: nat, a: nat, b: nat)
    requires a <= b
    ensures n * a <= n * b
  {
  }

  /** The share of one child of a vertex with d descendants. */
  function ChildBound(n: nat, d: nat): nat {
    if d == 0 then 0 else 1 + WalkBound(n, d - 1)
  }

  /** The steps still to come from one goroutine and from those it will start. */
  ghost function Remaining(g: Graph, p: Proc): nat {
    var n := |g.vertices|;
    match p
    case Check(v) => WalkRemaining(g, v, n) + 4 + WorkerBound(n)
    case Mark(v) => WalkRemaining(g, v, n) + 3 + WorkerBound(n)
    case Spawn(v) => WalkRemaining(g, v, n) + 2 + WorkerBound(n)
    case ListDown(v) => WalkRemaining(g, v, n) + 1
    case Descend(v, todo) => WalkRemaining(g, v, |todo|)
    case Walked(_) => 0
    case MainWait(todo) => 1 + |todo|
    case MainDone(_) => 0
    case Wait(_, todo) => 2 * n + 6 + |todo|
    case Running(_) => 2 * n + 5
    case Returned(_, _) => 2 * n + 4
    case Send(_, todo, _) => 2 * |todo| + 3
    case Close(_, todo, _) => 2 * |todo| + 2
    case SendDone(_, _) => 2
    case CloseDone(_, _) => 1
    case Ended(_, _) => 0
    case Aborted(_) => 0
  }

  /** The steps still to come from a walk at v with k children left. */
  ghost function WalkRemaining(g: Graph, v: Vertex, k: nat): nat {
    k * ChildBound(|g.vertices|, |Descendants(g.edges, v)|) + |g.vertices| + 4
  }

  ghost function TotalRemaining(g: Graph, ps: seq<Proc>): nat {
    if ps == [] then 0 else TotalRemaining(g, ps[..|ps| - 1]) + Remaining(g, ps[|ps| - 1])
  }

  /** What bounds the number of steps still to come. */
  ghost function Measure(g: Graph, s: State): nat {
    TotalRemaining(g, s.procs) + (if s.cancelled then 0 else 1)
  }

  lemma {:induction false} TotalAfterMove(g: Graph, ps: seq<Proc>, i: nat, q: Proc)
    requires i < |ps|
    ensures TotalRemaining(g, ps[i := q]) + Remaining(g, ps[i]) == TotalRemaining(g, ps) + Remaining(g, q)
  {
    var n := |ps| - 1;
    if i == n {
      assert ps[i := q][..n] == ps[..n];
    } else {
      assert ps[i := q][..n] == ps[..n][i := q];
      TotalAfterMove(g, ps[..n], i, q);
    }
  }

  lemma TotalAfterAppend(g: Graph, ps: seq<Proc>, r: Proc)
    ensures TotalRemaining(g, ps + [r]) == TotalRemaining(g, ps) + Remaining(g, r)
  {
    assert (ps + [r])[..|ps|] == ps;
  }

  lemma {:induction false} IterationLength(xs: seq<Vertex>, within: set<Vertex>)
    requires Iterates(xs, within)
    ensures |xs| <= |within|
  {
    if xs != [] {
      var n := |xs| - 1;
      assert forall x :: x in xs[..n] ==> x in xs;
      IterationLength(xs[..n], within - {xs[n]});
    }
  }

  lemma ListLength(g: Graph, xs: seq<Vertex>, within: set<Vertex>)
    requires Lists(xs, within) && within <= g.vertices
    ensures |xs| <= |g.vertices|
  {
    IterationLength(xs, g.vertices);
  }

  lemma NeighboursAreVertices(g: Graph, v: Vertex)
    requires Endpoints(g.edges) <= g.vertices
    ensures Successors(g.edges, v) <= g.vertices && Predecessors(g.edges, v) <= g.vertices
  {
  }

  /** The share of a child covers the whole walk from it. */
  lemma ChildCovered(g: Graph, v: Vertex, w: Vertex)
    requires Acyclic(g.edges) && w in Successors(g.edges, v)
    ensures var n := |g.vertices|;
            Remaining(g, Check(w)) < ChildBound(n, |Descendants(g.edges, v)|)
  {
    var n := |g.vertices|;
    SuccessorsContain(g.edges, v, w);
    AcyclicEdgeProper(g.edges, v, w);
    DescendantsShrink(g.edges, v, w);
    WalkBoundMonotone(n, |Descendants(g.edges, w)|, |Descendants(g.edges, v)| - 1);
  }

  lemma OneLess(k: nat, x: nat)
    requires k > 0
    ensures k * x == (k - 1) * x + x
  {
  }

  /** A step of a walk that starts no goroutine. */
  lemma WalkDecreases(g: Graph, start: Vertex, s: State, step: Step)
    requires Runnable(g, start) && Enabled(g, s, step)
    requires step.CheckVisited? || step.MarkVisited? || step.ListDownVertices? || step.EndWalk?
    ensures Measure(g, Apply(g, s, step)) < Measure(g, s)
  {
    var p := s.procs[step.i];
    TotalAfterMove(g, s.procs, step.i, Apply(g, s, step).procs[step.i]);
    NeighboursAreVertices(g, p.at);
    if step.ListDownVertices? {
      ListLength(g, step.order, Successors(g.edges, p.at));
      ScaleLeft(|step.order|, |g.vertices|, ChildBound(|g.vertices|, |Descendants(g.edges, p.at)|));
    }
  }

  /** A step of a vertex goroutine alone. */
  ghost predicate WorkSpends(g: Graph, s: State, t: State, i: nat) {
    && i < |s.procs| && i < |t.procs|
    && t.procs == s.procs[i := t.procs[i]] && t.cancelled == s.cancelled
    && Remaining(g, t.procs[i]) < Remaining(g, s.procs[i])
  }

  lemma RunSpendsWork(g: Graph, s: State, step: Step)
    requires Enabled(g, s, step) && (step.ReceiveClosed? || step.BeginRun? || step.EndRun?)
    ensures WorkSpends(g, s, Apply(g, s, step), step.i)
  {
  }

  lemma SendSpendsWork(g: Graph, s: State, step: Step)
    requires Enabled(g, s, step) && (step.CloseEdge? || step.EndSends? || step.CloseReport?)
    ensures WorkSpends(g, s, Apply(g, s, step), step.i)
  {
  }

  lemma ListSpendsWork(g: Graph, start: Vertex, s: State, step: Step)
    requires Runnable(g, start) && Enabled(g, s, step) && step.ListDependents?
    ensures WorkSpends(g, s, Apply(g, s, step), step.i)
  {
    NeighboursAreVertices(g, s.procs[step.i].at);
    ListLength(g, step.order, Successors(g.edges, s.procs[step.i].at));
  }

  lemma WorkShrinks(g: Graph, start: Vertex, s: State, step: Step)
    requires Runnable(g, start) && Enabled(g, s, step)
    requires step.ReceiveClosed? || step.BeginRun? || step.EndRun? || step.ListDependents? || step.CloseEdge?
      || step.EndSends? || step.CloseReport?
    ensures WorkSpends(g, s, Apply(g, s, step), step.i)
  {
    if step.ListDependents? {
      ListSpendsWork(g, start, s, step);
    } else if step.ReceiveClosed? || step.BeginRun? || step.EndRun? {
      RunSpendsWork(g, s, step);
    } else {
      SendSpendsWork(g, s, step);
    }
  }

  lemma ScaleLeft(a: nat, b: nat, x: nat)
    requires a <= b
    ensures a * x <= b * x
  {
  }

  lemma MainDecreases(g: Graph, s: State, step: Step)
    requires Enabled(g, s, step)
    requires step.AwaitAll? || step.MainReceivesClosed? || step.MainCancelled? || step.MainReturns? || step.Cancel?
    ensures Measure(g, Apply(g, s, step)) < Measure(g, s)
  {
    var t := Apply(g, s, step);
    TotalAfterMove(g, s.procs, 0, t.procs[0]);
    if step.AwaitAll? {
      ListLength(g, step.order, g.vertices);
    }
  }

  lemma SpawnDecreases(g: Graph, start: Vertex, s: State, step: Step)
    requires Runnable(g, start) && Enabled(g, s, step) && step.SpawnWorker?
    ensures Measure(g, Apply(g, s, step)) < Measure(g, s)
  {
    var v := s.procs[step.i].at;
    NeighboursAreVertices(g, v);
    ListLength(g, step.order, Predecessors(g.edges, v));
    TotalAfterMove(g, s.procs, step.i, ListDown(v));
    TotalAfterAppend(g, s.procs[step.i := ListDown(v)], Wait(v, step.order));
  }

  lemma ExecuteDownDecreases(g: Graph, start: Vertex, s: State, step: Step)
    requires Runnable(g, start) && Inv(g, start, s) && Enabled(g, s, step) && step.ExecuteDown?
    ensures Measure(g, Apply(g, s, step)) < Measure(g, s)
  {
    var Descend(v, todo) := s.procs[step.i];
    assert Local(g, start, s, step.i);
    ChildCovered(g, v, todo[0]);
    OneLess(|todo|, ChildBound(|g.vertices|, |Descendants(g.edges, v)|));
    TotalAfterMove(g, s.procs, step.i, Descend(v, todo[1..]));
    TotalAfterAppend(g, s.procs[step.i := Descend(v, todo[1..])], Check(todo[0]));
  }

  lemma TotalAfterMoves(g: Graph, ps: seq<Proc>, i: nat, p: Proc, j: nat, q: Proc)
    requires i < |ps| && j < |ps| && i != j
    ensures TotalRemaining(g, ps[i := p][j := q]) + Remaining(g, ps[i]) + Remaining(g, ps[j])
            == TotalRemaining(g, ps) + Remaining(g, p) + Remaining(g, q)
  {
    TotalAfterMove(g, ps, i, p);
    TotalAfterMove(g, ps[i := p], j, q);
  }

  lemma DeliverDecreases(g: Graph, s: State, step: Step)
    requires Enabled(g, s, step) && step.Deliver?
    ensures Measure(g, Apply(g, s, step)) < Measure(g, s)
  {
    var Send(u, sending, ok) := s.procs[step.i];
    var Wait(v, waiting) := s.procs[step.j];
    TotalAfterMoves(g, s.procs, step.i, Close(u, sending, ok), step.j, Wait(v, waiting[1..]));
  }

  lemma ReportDecreases(g: Graph, s: State, step: Step)
    requires Enabled(g, s, step) && step.Report?
    ensures Measure(g, Apply(g, s, step)) < Measure(g, s)
  {
    var SendDone(v, ok) := s.procs[step.i];
    TotalAfterMoves(g, s.procs, step.i, CloseDone(v, ok), 0, if ok then MainWait(s.procs[0].todo[1..]) else MainDone(false));
  }

  lemma StepDecreases(g: Graph, start: Vertex, s: State, step: Step)
    requires Runnable(g, start) && Good(g, start, s) && Enabled(g, s, step)
    ensures Measure(g, Apply(g, s, step)) < Measure(g, s)
  {
    StepQuiet(g, start, s, step);
    if step.SpawnWorker? {
      SpawnDecreases(g, start, s, step);
    } else if step.ExecuteDown? {
      ExecuteDownDecreases(g, start, s, step);
    } else if step.Deliver? {
      DeliverDecreases(g, s, step);
    } else if step.Report? {
      ReportDecreases(g, s, step);
    } else if step.AwaitAll? || step.MainReceivesClosed? || step.MainCancelled? || step.MainReturns? || step.Cancel? {
      MainDecreases(g, s, step);
    } else if step.CheckVisited? || step.MarkVisited? || step.ListDownVertices? || step.EndWalk? {
      WalkDecreases(g, start, s, step);
    } else {
      WorkShrinks(g, start, s, step);
      TotalAfterMove(g, s.procs, step.i, Apply(g, s, step).procs[step.i]);
    }
  }

  /** No run takes more steps than the graph allows; in particular there are finitely many execute calls. */
  lemma RunIsFinite(g: Graph, start: Vertex, ss: seq<State>, steps: seq<Step>)
    requires Runnable(g, start) && IsRun(g, start, ss, steps)
    ensures |steps| <= WalkBound(|g.vertices|, |g.vertices|) + 1
  {
    RunSpends(g, start, ss, steps, |steps|);
    NeighboursAreVertices(g, start);
    DescendantsInGraph(g, start);
    WalkBoundMonotone(|g.vertices|, |Descendants(g.edges, start)|, |g.vertices|);
    ReachesSelf(g.edges, start);
    DescendantsContain(g.edges, start, start);
    TotalAfterAppend(g, [], Check(start));
    assert [] + [Check(start)] == Init(start).procs;
    assert Remaining(g, Check(start)) == WalkBound(|g.vertices|, |Descendants(g.edges, start)|);
  }

  lemma DescendantsInGraph(g: Graph, v: Vertex)
    requires Endpoints(g.edges) <= g.vertices && v in g.vertices
    ensures |Descendants(g.edges, v)| <= |g.vertices|
  {
    SubsetNoLarger(Descendants(g.edges, v), g.vertices);
  }

  lemma {:induction false} RunSpends(g: Graph, start: Vertex, ss: seq<State>, steps: seq<Step>, k: nat)
    requires Runnable(g, start) && IsRun(g, start, ss, steps) && k < |ss|
    ensures k + Measure(g, ss[k]) <= Measure(g, Init(start))
  {
    if k > 0 {
      RunSpends(g, start, ss, steps, k - 1);
      RunGood(g, start, ss, steps, k - 1);
      StepDecreases(g, start, ss[k - 1], steps[k - 1]);
      assert ss[k - 1 + 1] == Apply(g, ss[k - 1], steps[k - 1]);
    }
  }
}
