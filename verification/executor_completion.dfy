/** When the executor cannot get stuck. The wait order of a vertex and the send order of a vertex are map iteration orders; a
    ranking of the edges is compatible with them when waits and sends go up in rank and the edges into a vertex rank below
    the edges out of it. All of this may be asked of a core of vertices only, which holds the origins of the edges into it. */
module ExecutorCompletion {
  import opened Graphs
  import opened Executor
  import opened ExecutorSafety
  import opened ExecutorTrace
  import opened ExecutorProgress
  import opened ExecutorDeliveries

  // ---------------------------------------------------------------- goroutines that cannot move

  /** A goroutine that cannot move on its own. */
  predicate Blocked(s: State, p: Proc) {
    match p
    case Walked(_) => true
    case MainWait(todo) => todo != []
    case MainDone(_) => true
    case Wait(v, todo) => todo != [] && Edge(todo[0], v) !in s.closed
    case Send(_, todo, _) => todo != []
    case SendDone(_, _) => true
    case Ended(_, _) => true
    case Aborted(_) => true
    case _ => false
  }

  /** The next step of a goroutine that can move on its own, in the given orders and without a failure. */
  lemma UnblockedMoves(g: Graph, start: Vertex, core: set<Vertex>, o: Orders, s: State, i: nat) returns (step: Step)
    requires OrdersFor(g, core, o) && Good(g, start, s) && i < |s.procs| && !Blocked(s, s.procs[i])
    ensures Enabled(g, s, step) && Follows(o, core, s, step) && OwnStep(s, step, i)
  {
    assert Local(g, start, s, i);
    match s.procs[i]
    case Check(_) => step := CheckVisited(i);
    case Mark(_) => step := MarkVisited(i);
    case Spawn(v) =>
      var xs := Listing(Predecessors(g.edges, v));
      step := SpawnWorker(i, if v in core then o.wait[v] else xs);
    case ListDown(v) =>
      var xs := Listing(Successors(g.edges, v));
      step := ListDownVertices(i, xs);
    case Descend(_, todo) =>
      var xs := Listing(g.vertices);
      step := if todo != [] then ExecuteDown(i) else if i > 0 then EndWalk(i) else AwaitAll(xs);
    case MainWait(_) => step := MainReturns;
    case Wait(_, todo) => step := if todo == [] then BeginRun(i) else ReceiveClosed(i);
    case Running(_) => step := EndRun(i, true);
    case Returned(v, _) =>
      var xs := Listing(Successors(g.edges, v));
      step := ListDependents(i, if v in core then o.send[v] else xs);
    case Send(_, _, _) => step := EndSends(i);
    case Close(_, _, _) => step := CloseEdge(i);
    case CloseDone(_, _) => step := CloseReport(i);
  }

  /** A step that only goroutine i takes part in, not a failing return. */
  predicate OwnStep(s: State, step: Step, i: nat)
    requires i < |s.procs|
  {
    match step
    case CheckVisited(k) => k == i && s.procs[i].Check?
    case MarkVisited(k) => k == i
    case SpawnWorker(k, _) => k == i && s.procs[i].Spawn?
    case ListDownVertices(k, _) => k == i
    case ExecuteDown(k) => k == i
    case EndWalk(k) => k == i
    case AwaitAll(_) => i == 0
    case ReceiveClosed(k) => k == i
    case BeginRun(k) => k == i && s.procs[i].Wait? && s.procs[i].todo == []
    case EndRun(k, success) => k == i && success
    case ListDependents(k, _) => k == i
    case CloseEdge(k) => k == i
    case EndSends(k) => k == i
    case CloseReport(k) => k == i
    case MainReturns => i == 0
    case _ => false
  }

  /** A sender and a receiver are at the same open channel. */
  ghost predicate Meet(s: State, i: nat, j: nat) {
    && i < |s.procs| && s.procs[i].Send? && s.procs[i].todo != []
    && j < |s.procs| && s.procs[j].Wait? && s.procs[j].todo != []
    && s.procs[i].todo[0] == s.procs[j].at && s.procs[j].todo[0] == s.procs[i].at
  }

  lemma MeetDelivers(g: Graph, start: Vertex, s: State, i: nat, j: nat)
    requires Good(g, start, s) && Meet(s, i, j)
    ensures Enabled(g, s, Deliver(i, j))
  {
    SendOpen(g, start, s, i);
  }

  /** All walking goroutines, the main one, and those of the core's vertices are blocked; no two meet for a delivery into the core. */
  ghost predicate Still(s: State, core: set<Vertex>) {
    && (forall i :: 0 <= i < |s.procs| && (IsWorker(s.procs[i]) ==> s.procs[i].at in core) ==> Blocked(s, s.procs[i]))
    && (forall i: nat, j: nat :: Meet(s, i, j) ==> s.procs[j].at !in core)
  }

  /** In a still state the walk has called every vertex that can be reached. */
  lemma {:induction false} StuckCalled(g: Graph, start: Vertex, core: set<Vertex>, s: State, w: Vertex)
    requires Runnable(g, start) && Good(g, start, s) && Coverage(g, start, s) && Still(s, core)
    requires Reaches(g.edges, start, w)
    ensures Called(start, s, w) && w in s.visited
    decreases |g.vertices| - |Descendants(g.edges, w)|
  {
    if w != start {
      var x := ReachesLast(g.edges, start, w);
      AcyclicEdgeProper(g.edges, x, w);
      DescendantsShrink(g.edges, x, w);
      assert Edge(x, w).from in Endpoints(g.edges);
      SubsetNoLarger(Descendants(g.edges, x), g.vertices);
      SuccessorsContain(g.edges, x, w);
      StuckCalled(g, start, core, s, x);
      var k :| 0 <= k < |s.procs| && CallFor(start, s.procs[k], k, x);
      assert Blocked(s, s.procs[k]) && CallDone(g, start, s, s.procs[k]);
    }
    var k :| 0 <= k < |s.procs| && CallFor(start, s.procs[k], k, w);
    assert Blocked(s, s.procs[k]) && CallDone(g, start, s, s.procs[k]);
  }

  /** ... and scheduled it. */
  lemma StuckWorker(g: Graph, start: Vertex, core: set<Vertex>, s: State, w: Vertex) returns (i: nat)
    requires Runnable(g, start) && Good(g, start, s) && Coverage(g, start, s) && Still(s, core)
    requires Reaches(g.edges, start, w)
    ensures i < |s.procs| && IsWorker(s.procs[i]) && s.procs[i].at == w
  {
    StuckCalled(g, start, core, s, w);
    i :| 0 <= i < |s.procs| && GoroutineFor(s.procs[i], w);
    assert IsWorker(s.procs[i]) || Blocked(s, s.procs[i]);
  }

  /** A goroutine that received whatever was delivered to its vertex. */
  ghost predicate Foremost(s: State, i: nat) {
    && i < |s.procs| && IsWorker(s.procs[i])
    && forall e :: e in s.delivered && e.to == s.procs[i].at ==> Got(s, i, e.from, e.to)
  }

  lemma StuckForemost(g: Graph, start: Vertex, core: set<Vertex>, s: State, w: Vertex) returns (i: nat)
    requires Runnable(g, start) && Good(g, start, s) && Tracks(g, start, s) && OneReceiver(core, s) && Still(s, core)
    requires w in core && Reaches(g.edges, start, w)
    ensures Foremost(s, i) && s.procs[i].at == w
  {
    if e :| e in s.delivered && e.to == w {
      i := s.delivered[e].receiver;
      forall f | f in s.delivered && f.to == w ensures Got(s, i, f.from, f.to) {
        assert SameReceiver(s, e, f) && f == Edge(f.from, f.to);
      }
    } else {
      i := StuckWorker(g, start, core, s, w);
    }
  }

  /** The state of such a goroutine when it is blocked: it waits for an unserved channel, serves one, or is through. */
  ghost predicate Settled(g: Graph, s: State, p: Proc) {
    match p
    case Wait(v, todo) => todo != [] && Edge(todo[0], v) in g.edges && Edge(todo[0], v) !in s.delivered
    case Send(v, todo, _) => todo != [] && Edge(v, todo[0]) in g.edges && Edge(v, todo[0]) !in s.delivered
    case SendDone(_, _) => true
    case Ended(_, _) => true
    case _ => false
  }

  lemma StuckSettled(g: Graph, start: Vertex, s: State, i: nat)
    requires Good(g, start, s) && Tracks(g, start, s) && Foremost(s, i) && Blocked(s, s.procs[i])
    ensures Settled(g, s, s.procs[i])
  {
    var p := s.procs[i];
    AbortedMisses(g, start, s, i);
    assert Local(g, start, s, i);
    if p.Wait? {
      assert p.todo[0] in p.todo;
      PredecessorsContain(g.edges, p.todo[0], p.at);
      assert Edge(p.todo[0], p.at).to == p.at;
    } else if p.Send? {
      assert p.todo[0] in p.todo;
      SuccessorsContain(g.edges, p.at, p.todo[0]);
      assert !HasSent(p, p.todo[0]);
    }
  }

  /** A goroutine that gave up lacks a value that was delivered to its vertex. */
  lemma AbortedMisses(g: Graph, start: Vertex, s: State, i: nat)
    requires Inv(g, start, s) && AbortsExplained(s) && i < |s.procs|
    ensures s.procs[i].Aborted? ==> exists e :: e in s.delivered && e.to == s.procs[i].at && !Got(s, i, e.from, e.to)
  {
    if s.procs[i].Aborted? {
      assert MissedValue(s, i);
      var u :| Edge(u, s.procs[i].at) in s.closed && !Got(s, i, u, s.procs[i].at);
      assert Edge(u, s.procs[i].at) in s.delivered;
      assert !Got(s, i, Edge(u, s.procs[i].at).from, Edge(u, s.procs[i].at).to);
    }
  }

  lemma SettledWaits(g: Graph, s: State, p: Proc)
    requires Settled(g, s, p)
    ensures p.Wait? ==> exists e :: e in g.edges && e.to == p.at && e !in s.delivered
  {
    if p.Wait? {
      assert Edge(p.todo[0], p.at).to == p.at;
    }
  }

  lemma StillBlocks(s: State, core: set<Vertex>, i: nat)
    requires Still(s, core) && i < |s.procs| && (IsWorker(s.procs[i]) ==> s.procs[i].at in core)
    ensures Blocked(s, s.procs[i])
  {
  }

  /** A goroutine of v that received everything and has returned: it serves a dependent, or is through. */
  ghost predicate ReturnedAt(g: Graph, s: State, i: nat, v: Vertex) {
    && i < |s.procs| && Settled(g, s, s.procs[i]) && !s.procs[i].Wait? && s.procs[i].at == v
    && v in ResultsIn(s.trace)
  }

  lemma SettledServed(g: Graph, start: Vertex, s: State, i: nat, v: Vertex)
    requires Good(g, start, s) && Tracks(g, start, s) && Foremost(s, i) && s.procs[i].at == v && Blocked(s, s.procs[i])
    requires forall e :: e in g.edges && e.to == v ==> e in s.delivered
    ensures ReturnedAt(g, s, i, v)
  {
    StuckSettled(g, start, s, i);
    SettledWaits(g, s, s.procs[i]);
    assert TracedOf(s.trace, s.procs[i]);
  }

  /** A vertex of a still core all of whose channels were served has returned. */
  lemma ServedReturned(g: Graph, start: Vertex, core: set<Vertex>, s: State, v: Vertex) returns (i: nat)
    requires Runnable(g, start) && Good(g, start, s) && Tracks(g, start, s) && OneReceiver(core, s) && Still(s, core)
    requires v in core && Reaches(g.edges, start, v) && forall e :: e in g.edges && e.to == v ==> e in s.delivered
    ensures ReturnedAt(g, s, i, v)
  {
    i := StuckForemost(g, start, core, s, v);
    StillBlocks(s, core, i);
    SettledServed(g, start, s, i, v);
  }

  /** A vertex that has not served v still has it to serve. */
  lemma StillToServe(g: Graph, start: Vertex, s: State, v: Vertex, a: Vertex, i: nat)
    requires Inv(g, start, s) && Edge(a, v) in g.edges && Edge(a, v) !in s.delivered && ReturnedAt(g, s, i, a)
    ensures s.procs[i].Send? && s.procs[i].at == a && v in s.procs[i].todo
    ensures Edge(a, s.procs[i].todo[0]) in g.edges && Edge(a, s.procs[i].todo[0]) !in s.delivered
  {
    assert Local(g, start, s, i);
    SuccessorsContain(g.edges, a, v);
    assert !HasSent(s.procs[i], v);
  }

  lemma {:induction false} LowestEdge(es: set<Edge>, rank: Ranking) returns (e: Edge)
    requires es != {} && es <= rank.Keys
    ensures e in es && forall f :: f in es ==> rank[e] <= rank[f]
    decreases |es|
  {
    e :| e in es;
    if es != {e} {
      var f := LowestEdge(es - {e}, rank);
      if rank[f] < rank[e] {
        e := f;
      }
    }
  }

  /** What a core, its orders and a ranking of the edges into it must be. */
  ghost predicate Ranked(g: Graph, start: Vertex, core: set<Vertex>, o: Orders, rank: Ranking) {
    && Runnable(g, start) && IsCore(g, core) && OrdersFor(g, core, o) && Compatible(g, core, o, rank)
    && forall v :: v in core ==> Reaches(g.edges, start, v)
  }

  ghost predicate StillIn(g: Graph, start: Vertex, core: set<Vertex>, o: Orders, s: State) {
    Good(g, start, s) && Tracks(g, start, s) && Orderly(o, core, s) && Still(s, core)
  }

  ghost function Unserved(g: Graph, core: set<Vertex>, s: State): set<Edge> {
    set e | e in g.edges && e.to in core && e !in s.delivered
  }

  /** With compatible orders every channel into the core gets its value: the lowest unserved one would be ready on both sides. */
  lemma StuckCoreServed(g: Graph, start: Vertex, core: set<Vertex>, o: Orders, rank: Ranking, s: State)
    requires Ranked(g, start, core, o, rank) && StillIn(g, start, core, o, s)
    ensures forall e :: e in g.edges && e.to in core ==> e in s.delivered
  {
    var missing := Unserved(g, core, s);
    if missing != {} {
      var e := LowestEdge(missing, rank);
      assert IsLowest(g, core, rank, s, e);
      var i := LowestSends(g, start, core, o, rank, s, e);
      var j := LowestWaits(g, start, core, o, rank, s, e);
      NoMeeting(s, core, i, j);
    } else {
      assert forall e :: e in g.edges && e.to in core && e !in s.delivered ==> e in missing;
    }
  }

  lemma NoMeeting(s: State, core: set<Vertex>, i: nat, j: nat)
    requires Still(s, core)
    ensures Meet(s, i, j) ==> s.procs[j].at !in core
  {
  }

  lemma WaitsRise(g: Graph, core: set<Vertex>, o: Orders, rank: Ranking, v: Vertex, a: nat, b: nat)
    requires Compatible(g, core, o, rank) && v in core && v in o.wait && a <= b < |o.wait[v]|
    ensures a == b || Before(rank, Edge(o.wait[v][a], v), Edge(o.wait[v][b], v))
  {
  }

  lemma SendsRise(g: Graph, core: set<Vertex>, o: Orders, rank: Ranking, u: Vertex, a: nat, b: nat)
    requires Compatible(g, core, o, rank) && u in core && u in o.send && a <= b < |o.send[u]| && o.send[u][b] in core
    ensures a == b || (o.send[u][a] in core && Before(rank, Edge(u, o.send[u][a]), Edge(u, o.send[u][b])))
  {
  }

  ghost predicate IsLowest(g: Graph, core: set<Vertex>, rank: Ranking, s: State, e: Edge) {
    e in Unserved(g, core, s) && e in rank && forall f :: f in Unserved(g, core, s) ==> f in rank && rank[e] <= rank[f]
  }

  /** The sender of the lowest unserved channel is at it. */
  lemma LowestSends(g: Graph, start: Vertex, core: set<Vertex>, o: Orders, rank: Ranking, s: State, e: Edge) returns (i: nat)
    requires Ranked(g, start, core, o, rank) && StillIn(g, start, core, o, s) && IsLowest(g, core, rank, s, e)
    ensures i < |s.procs| && s.procs[i].Send? && s.procs[i].at == e.from && s.procs[i].todo != [] && s.procs[i].todo[0] == e.to
  {
    assert e.from in Endpoints(g.edges);
    forall f | f in g.edges && f.to == e.from ensures f in s.delivered {
      assert Before(rank, f, e);
    }
    i := ServedReturned(g, start, core, s, e.from);
    StillToServe(g, start, s, e.to, e.from, i);
    assert InOrder(o, core, s.procs[i]);
    LowestIsNext(g, core, o, rank, s, e, s.procs[i]);
  }

  /** Among the channels a sender still has to serve the lowest one comes first. */
  lemma LowestIsNext(g: Graph, core: set<Vertex>, o: Orders, rank: Ranking, s: State, e: Edge, p: Proc)
    requires Compatible(g, core, o, rank) && IsLowest(g, core, rank, s, e) && InOrder(o, core, p)
    requires p.Send? && p.at == e.from && p.at in core && e.to in p.todo
    requires Edge(p.at, p.todo[0]) in g.edges && Edge(p.at, p.todo[0]) !in s.delivered
    ensures p.todo[0] == e.to
  {
    var a, b := |o.send[p.at]| - |p.todo|, IndexIn(o.send[p.at], p.todo, e.to);
    SendsRise(g, core, o, rank, p.at, a, b);
    assert e == Edge(p.at, e.to);
  }

  /** The receiver of the lowest unserved channel is at it. */
  lemma LowestWaits(g: Graph, start: Vertex, core: set<Vertex>, o: Orders, rank: Ranking, s: State, e: Edge) returns (j: nat)
    requires Ranked(g, start, core, o, rank) && StillIn(g, start, core, o, s) && IsLowest(g, core, rank, s, e)
    ensures j < |s.procs| && s.procs[j].Wait? && s.procs[j].at == e.to && s.procs[j].todo != [] && s.procs[j].todo[0] == e.from
  {
    j := StuckForemost(g, start, core, s, e.to);
    StuckSettled(g, start, s, j);
    var p := s.procs[j];
    assert Local(g, start, s, j) && InOrder(o, core, p);
    PredecessorsContain(g.edges, e.from, p.at);
    assert e == Edge(e.from, p.at);
    assert !Got(s, j, e.from, p.at);
    var a, b := |o.wait[p.at]| - |p.todo|, IndexIn(o.wait[p.at], p.todo, e.from);
    WaitsRise(g, core, o, rank, p.at, a, b);
    assert Edge(p.todo[0], p.at) in Unserved(g, core, s);
  }

  /** Where x, a member of the suffix xs, is in ys. */
  ghost function IndexIn(ys: seq<Vertex>, xs: seq<Vertex>, x: Vertex): (k: nat)
    requires IsSuffix(xs, ys) && x in xs
    ensures |ys| - |xs| <= k < |ys| && ys[k] == x
  {
    var i :| 0 <= i < |xs| && xs[i] == x;
    |ys| - |xs| + i
  }

  // ---------------------------------------------------------------- main result

  /** Apart from the caller cancelling, nothing can happen any more. */
  ghost predicate Stuck(g: Graph, o: Orders, s: State) {
    forall step :: Follows(o, g.vertices, s, step) && step != Cancel ==> !Enabled(g, s, step)
  }

  lemma StuckIsStill(g: Graph, start: Vertex, o: Orders, s: State)
    requires OrdersFor(g, g.vertices, o) && Good(g, start, s) && Stuck(g, o, s)
    ensures Still(s, g.vertices) && forall i :: 0 <= i < |s.procs| ==> Blocked(s, s.procs[i])
  {
    forall i | 0 <= i < |s.procs| ensures Blocked(s, s.procs[i]) {
      if !Blocked(s, s.procs[i]) {
        var step := UnblockedMoves(g, start, g.vertices, o, s, i);
      }
    }
    forall i: nat, j: nat ensures !Meet(s, i, j) {
      if Meet(s, i, j) {
        MeetDelivers(g, start, s, i, j);
      }
    }
  }

  /** Deadlock freedom. A run that follows compatible orders, races or not, can only stop with Run returned and every BlockRun
      returned. */
  lemma CompatibleOrdersComplete(g: Graph, start: Vertex, o: Orders, rank: Ranking, ss: seq<State>, steps: seq<Step>)
    requires Ranked(g, start, g.vertices, o, rank) && IsRunIn(g, start, g.vertices, o, ss, steps) && Stuck(g, o, ss[|steps|])
    ensures var s := ss[|steps|];
            && |s.procs| > 0 && s.procs[0].MainDone?
            && s.delivered.Keys == g.edges
            && forall v :: v in g.vertices ==> v in ResultsIn(s.trace)
  {
    var s := ss[|steps|];
    RunGood(g, start, ss, steps, |steps|);
    RunTracks(g, start, ss, steps, |steps|);
    RunOrderly(g, start, g.vertices, o, ss, steps, |steps|);
    StuckIsStill(g, start, o, s);
    StuckCoreServed(g, start, g.vertices, o, rank, s);
    forall e | e in g.edges ensures e in s.delivered {
      assert e.to in Endpoints(g.edges);
    }
    forall i: nat | Reporting(s, i) ensures false {
      ReportReady(g, start, s, i);
      assert Follows(o, g.vertices, s, Report(i));
    }
    AllServedComplete(g, start, s);
  }

  /** The main goroutine waits for the vertex whose goroutine i is about to report or has ended. */
  ghost predicate Reporting(s: State, i: nat) {
    && i < |s.procs| && (s.procs[i].SendDone? || s.procs[i].Ended?)
    && s.procs[0].MainWait? && s.procs[0].todo != [] && s.procs[0].todo[0] == s.procs[i].at
  }

  lemma ReportReady(g: Graph, start: Vertex, s: State, i: nat)
    requires Good(g, start, s) && Reporting(s, i)
    ensures Enabled(g, s, Report(i))
  {
    assert s.procs[0].todo[0] in s.procs[0].todo;
    assert HasReported(s.procs[i]) ==> MainPassed(s, s.procs[i].at);
    DoneChannelOpen(g, start, s, i);
  }

  lemma DeliveredAreEdges(g: Graph, start: Vertex, s: State)
    requires Inv(g, start, s) && forall e :: e in g.edges ==> e in s.delivered
    ensures s.delivered.Keys == g.edges
  {
    assert Shared(g, start, s);
  }

  lemma AllReturned(g: Graph, start: Vertex, s: State)
    requires Runnable(g, start) && Good(g, start, s) && Tracks(g, start, s) && OneReceiver(g.vertices, s) && Still(s, g.vertices)
    requires forall v :: v in g.vertices ==> Reaches(g.edges, start, v)
    requires forall e :: e in g.edges ==> e in s.delivered
    ensures forall v :: v in g.vertices ==> v in ResultsIn(s.trace)
  {
    forall v | v in g.vertices ensures v in ResultsIn(s.trace) {
      var i := ServedReturned(g, start, g.vertices, s, v);
    }
  }

  /** When every channel was served and nothing moves, all vertices returned and Run did. */
  lemma AllServedComplete(g: Graph, start: Vertex, s: State)
    requires Runnable(g, start) && Good(g, start, s) && Tracks(g, start, s) && OneReceiver(g.vertices, s) && Still(s, g.vertices)
    requires forall v :: v in g.vertices ==> Reaches(g.edges, start, v)
    requires forall e :: e in g.edges ==> e in s.delivered
    requires forall i: nat :: !Reporting(s, i)
    ensures s.procs[0].MainDone? && s.delivered.Keys == g.edges
    ensures forall v :: v in g.vertices ==> v in ResultsIn(s.trace)
  {
    AllReturned(g, start, s);
    MainThrough(g, start, s);
    DeliveredAreEdges(g, start, s);
  }

  lemma MainThrough(g: Graph, start: Vertex, s: State)
    requires Runnable(g, start) && Good(g, start, s) && Tracks(g, start, s) && OneReceiver(g.vertices, s) && Still(s, g.vertices)
    requires forall v :: v in g.vertices ==> Reaches(g.edges, start, v)
    requires forall e :: e in g.edges ==> e in s.delivered
    requires forall i: nat :: !Reporting(s, i)
    ensures s.procs[0].MainDone?
  {
    assert Local(g, start, s, 0) && Blocked(s, s.procs[0]);
    if s.procs[0].MainWait? {
      var v := s.procs[0].todo[0];
      assert v in s.procs[0].todo;
      var i := ServedReturned(g, start, g.vertices, s, v);
      assert Reporting(s, i);
    }
  }

  // ---------------------------------------------------------------- cancelled runs

  /** The goroutine that called Run is walking, waiting for the results, or through. */
  lemma MainIsThere(g: Graph, start: Vertex, s: State)
    requires Good(g, start, s)
    ensures |s.procs| > 0 && (IsWalker(s.procs[0]) || IsMain(s.procs[0])) && !s.procs[0].Walked?
  {
    assert Local(g, start, s, 0);
  }

  /** Cancelling ends Run: whatever was lost or is waited for, a cancelled run that can go no further has returned. */
  lemma CancelledReturns(g: Graph, start: Vertex, ss: seq<State>, steps: seq<Step>)
    requires Runnable(g, start) && IsRun(g, start, ss, steps)
    requires ss[|steps|].cancelled && forall step :: !Enabled(g, ss[|steps|], step)
    ensures |ss[|steps|].procs| > 0 && ss[|steps|].procs[0].MainDone?
  {
    var s := ss[|steps|];
    RunGood(g, start, ss, steps, |steps|);
    MainIsThere(g, start, s);
    if !Blocked(s, s.procs[0]) {
      var step := UnblockedMoves(g, start, {}, Orders(map[], map[]), s, 0);
    } else {
      assert !Enabled(g, s, MainCancelled);
    }
  }
}
