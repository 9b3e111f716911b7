/** Safety of the executor in every interleaving: each vertex runs at most once and only after its dependencies
    returned, no channel is misused, and what Run returns tells what happened. */
module ExecutorSafety {
  import opened Graphs
  import opened Executor

  // ---------------------------------------------------------------- phases of a goroutine

  predicate IsWalker(p: Proc) {
    p.Check? || p.Mark? || p.Spawn? || p.ListDown? || p.Descend? || p.Walked?
  }

  predicate IsMain(p: Proc) {
    p.MainWait? || p.MainDone?
  }

  predicate IsWorker(p: Proc) {
    !IsWalker(p) && !IsMain(p)
  }

  predicate HasReported(p: Proc) {
    p.CloseDone? || p.Ended?
  }

  predicate HasFinished(p: Proc) {
    p.Returned? || p.Send? || p.Close? || p.SendDone? || HasReported(p)
  }

  predicate HasStarted(p: Proc) {
    p.Running? || HasFinished(p)
  }

  /** All dependencies received. */
  predicate IsReady(p: Proc) {
    (p.Wait? && p.todo == []) || HasStarted(p)
  }

  predicate HasSent(p: Proc, v: Vertex) {
    match p
    case Send(_, todo, _) => v !in todo
    case Close(_, todo, _) => todo == [] || v !in todo[1..]
    case _ => p.SendDone? || HasReported(p)
  }

  predicate HasClosed(p: Proc, v: Vertex) {
    match p
    case Send(_, todo, _) => v !in todo
    case Close(_, todo, _) => v !in todo
    case _ => p.SendDone? || HasReported(p)
  }

  /** Goroutine i received the value of the channel from u to v. */
  predicate Got(s: State, i: nat, u: Vertex, v: Vertex) {
    Edge(u, v) in s.delivered && s.delivered[Edge(u, v)].receiver == i
  }

  ghost predicate Distinct(xs: seq<Vertex>) {
    forall i, j :: 0 <= i < j < |xs| ==> xs[i] != xs[j]
  }

  /** xs is part of an iteration over the members of within. */
  ghost predicate Iterates(xs: seq<Vertex>, within: set<Vertex>) {
    Distinct(xs) && forall x :: x in xs ==> x in within
  }

  // ---------------------------------------------------------------- the invariant

  /** Where each goroutine can be, and what its remaining work can hold. */
  ghost predicate WellPlaced(g: Graph, start: Vertex, p: Proc, i: nat) {
    if IsMain(p) then
      i == 0 && (p.MainWait? ==> Iterates(p.todo, g.vertices))
    else
      && p.at in g.vertices
      && (p.at == start || Predecessors(g.edges, p.at) != {})
      && (IsWalker(p) ==> (i == 0 <==> p.at == start))
      && (p.Walked? || IsWorker(p) ==> i != 0)
      && (p.Descend? ==> Iterates(p.todo, Successors(g.edges, p.at)))
      && (p.Wait? ==> Iterates(p.todo, Predecessors(g.edges, p.at)))
      && (p.Send? || p.Close? ==> Iterates(p.todo, Successors(g.edges, p.at)))
      && (p.Close? ==> p.todo != [])
  }

  /** Only Run's own call schedules the start vertex. */
  ghost predicate StartOnce(start: Vertex, s: State) {
    && (forall i :: 0 <= i < |s.procs| && IsWorker(s.procs[i]) && s.procs[i].at == start ==>
          !s.procs[0].Check? && !s.procs[0].Mark? && !s.procs[0].Spawn?)
    && (forall i, j :: 0 <= i < j < |s.procs| && IsWorker(s.procs[i]) && IsWorker(s.procs[j]) ==>
          !(s.procs[i].at == start && s.procs[j].at == start))
  }

  /** What a goroutine received is what it no longer waits for. */
  ghost predicate ReceiptsOf(g: Graph, s: State, p: Proc, i: nat) {
    && (p.Wait? ==> forall u :: u in Predecessors(g.edges, p.at) ==> (u !in p.todo <==> Got(s, i, u, p.at)))
    && (HasStarted(p) ==> forall u :: u in Predecessors(g.edges, p.at) ==> Got(s, i, u, p.at))
    && (p.Aborted? ==> exists u :: u in Predecessors(g.edges, p.at) && !Got(s, i, u, p.at))
  }

  /** At most one goroutine of each vertex has all its dependencies. */
  ghost predicate OneReady(s: State) {
    forall i, j :: 0 <= i < |s.procs| && 0 <= j < |s.procs| && BothReady(s, i, j) ==> i == j
  }

  ghost predicate BothReady(s: State, i: nat, j: nat)
    requires i < |s.procs| && j < |s.procs|
  {
    IsReady(s.procs[i]) && IsReady(s.procs[j]) && s.procs[i].at == s.procs[j].at
  }

  /** The channels out of a vertex are in the state its ready goroutine left them in. */
  ghost predicate SendsOf(g: Graph, s: State, p: Proc) {
    IsReady(p) ==>
      forall v :: v in Successors(g.edges, p.at) ==>
        && (HasSent(p, v) <==> Edge(p.at, v) in s.delivered)
        && (HasClosed(p, v) <==> Edge(p.at, v) in s.closed)
  }

  ghost predicate HasSender(s: State, u: Vertex) {
    exists i :: 0 <= i < |s.procs| && IsReady(s.procs[i]) && s.procs[i].at == u
  }

  ghost predicate Local(g: Graph, start: Vertex, s: State, i: nat)
    requires i < |s.procs|
  {
    WellPlaced(g, start, s.procs[i], i) && ReceiptsOf(g, s, s.procs[i], i) && SendsOf(g, s, s.procs[i])
  }

  /** What is not about one goroutine. */
  ghost predicate Shared(g: Graph, start: Vertex, s: State) {
    && StartOnce(start, s)
    && (forall e :: e in s.delivered ==> e in g.edges && s.delivered[e].receiver < |s.procs| && HasSender(s, e.from))
    && s.closed <= s.delivered.Keys
  }

  ghost predicate Inv(g: Graph, start: Vertex, s: State) {
    && |s.procs| > 0
    && (forall i :: 0 <= i < |s.procs| ==> Local(g, start, s, i))
    && Shared(g, start, s)
  }

  // ---------------------------------------------------------------- preservation

  lemma InitInv(g: Graph, start: Vertex)
    requires Runnable(g, start)
    ensures Inv(g, start, Init(start))
  {
  }

  /** Two ready goroutines of a vertex would both have received the one value of some channel into it. */
  lemma InvOneReady(g: Graph, start: Vertex, s: State)
    requires Inv(g, start, s)
    ensures OneReady(s)
  {
    forall i, j | 0 <= i < |s.procs| && 0 <= j < |s.procs| && BothReady(s, i, j)
      ensures i == j
    {
      var v := s.procs[i].at;
      assert Local(g, start, s, i) && Local(g, start, s, j);
      if v != start {
        var u :| u in Predecessors(g.edges, v);
        assert Got(s, i, u, v) && Got(s, j, u, v);
      }
    }
  }

  ghost predicate PastSpawn(p: Proc) {
    !p.Check? && !p.Mark? && !p.Spawn?
  }

  /** What a goroutine must look like after a move that leaves the edge channels alone. */
  ghost predicate MayBecome(g: Graph, start: Vertex, s: State, i: nat, q: Proc)
    requires i < |s.procs|
  {
    var p := s.procs[i];
    && WellPlaced(g, start, q, i)
    && ReceiptsOf(g, s, q, i)
    && SendsOf(g, s, q)
    && (IsReady(p) ==> IsReady(q) && q.at == p.at)
    && (IsWorker(q) ==> IsWorker(p) && q.at == p.at)
    && (PastSpawn(p) ==> PastSpawn(q))
  }

  lemma MoveInv(g: Graph, start: Vertex, s: State, t: State, i: nat, q: Proc)
    requires Inv(g, start, s) && i < |s.procs| && MayBecome(g, start, s, i, q)
    requires t.procs == s.procs[i := q] && t.delivered == s.delivered && t.closed == s.closed
    ensures Inv(g, start, t)
  {
    forall k | 0 <= k < |t.procs| ensures Local(g, start, t, k) {
      assert Local(g, start, s, k);
    }
    forall e | e in t.delivered ensures HasSender(t, e.from) {
      assert HasSender(s, e.from);
      var k :| 0 <= k < |s.procs| && IsReady(s.procs[k]) && s.procs[k].at == e.from;
      assert IsReady(t.procs[k]) && t.procs[k].at == e.from;
    }
  }

  lemma AppendInv(g: Graph, start: Vertex, s: State, t: State, r: Proc)
    requires Inv(g, start, s)
    requires WellPlaced(g, start, r, |s.procs|) && ReceiptsOf(g, s, r, |s.procs|) && SendsOf(g, s, r)
    requires IsWorker(r) && r.at == start ==>
               PastSpawn(s.procs[0]) && forall k :: 0 <= k < |s.procs| && IsWorker(s.procs[k]) ==> s.procs[k].at != start
    requires t.procs == s.procs + [r] && t.delivered == s.delivered && t.closed == s.closed
    ensures Inv(g, start, t)
  {
    forall k | 0 <= k < |t.procs| ensures Local(g, start, t, k) {
      if k < |s.procs| {
        assert Local(g, start, s, k);
      }
    }
    forall e | e in t.delivered ensures HasSender(t, e.from) {
      assert HasSender(s, e.from);
      var k :| 0 <= k < |s.procs| && IsReady(s.procs[k]) && s.procs[k].at == e.from;
      assert IsReady(t.procs[k]) && t.procs[k].at == e.from;
    }
  }

  /** The moves of execute. */
  lemma WalkMoves(g: Graph, start: Vertex, s: State, i: nat, q: Proc)
    requires i < |s.procs| && Local(g, start, s, i)
    requires IsWalker(s.procs[i]) && IsWalker(q) && q.at == s.procs[i].at
    requires PastSpawn(s.procs[i]) ==> PastSpawn(q)
    requires q.Walked? ==> i > 0
    requires q.Descend? ==> Iterates(q.todo, Successors(g.edges, q.at))
    ensures MayBecome(g, start, s, i, q)
  {
  }

  lemma MainMoves(g: Graph, start: Vertex, s: State, q: Proc)
    requires |s.procs| > 0 && Local(g, start, s, 0) && PastSpawn(s.procs[0]) && !IsWorker(s.procs[0])
    requires q.MainDone? || (q.MainWait? && Iterates(q.todo, g.vertices))
    ensures MayBecome(g, start, s, 0, q)
  {
  }

  /** A goroutine that finds one of its channels closed lacks that channel's value. */
  lemma AbortMoves(g: Graph, start: Vertex, s: State, i: nat)
    requires i < |s.procs| && Local(g, start, s, i) && s.procs[i].Wait? && s.procs[i].todo != []
    ensures MayBecome(g, start, s, i, Aborted(s.procs[i].at))
  {
    var p := s.procs[i];
    assert p.todo[0] in p.todo;
    assert !Got(s, i, p.todo[0], p.at);
  }

  lemma RunMoves(g: Graph, start: Vertex, s: State, i: nat, q: Proc)
    requires i < |s.procs| && Local(g, start, s, i)
    requires var p := s.procs[i];
             (p.Wait? && p.todo == [] && q == Running(p.at)) || (p.Running? && q.Returned? && q.at == p.at)
    ensures MayBecome(g, start, s, i, q)
  {
  }

  lemma SendMoves(g: Graph, start: Vertex, s: State, i: nat, q: Proc)
    requires i < |s.procs| && Local(g, start, s, i)
    requires var p := s.procs[i];
             || (p.Returned? && q.Send? && q.at == p.at && Lists(q.todo, Successors(g.edges, p.at)))
             || (p.Send? && p.todo == [] && q == SendDone(p.at, p.ok))
             || (p.SendDone? && q == CloseDone(p.at, p.ok))
             || (p.CloseDone? && q == Ended(p.at, p.ok))
    ensures MayBecome(g, start, s, i, q)
  {
  }

  lemma StepWalk(g: Graph, start: Vertex, s: State, step: Step)
    requires Runnable(g, start) && Inv(g, start, s) && Enabled(g, s, step)
    requires step.CheckVisited? || step.MarkVisited? || step.ListDownVertices? || step.EndWalk?
    ensures Inv(g, start, Apply(g, s, step))
  {
    var t := Apply(g, s, step);
    WalkMoves(g, start, s, step.i, t.procs[step.i]);
    MoveInv(g, start, s, t, step.i, t.procs[step.i]);
  }

  lemma StepMain(g: Graph, start: Vertex, s: State, step: Step)
    requires Runnable(g, start) && Inv(g, start, s) && Enabled(g, s, step)
    requires step.AwaitAll? || step.MainReceivesClosed? || step.MainCancelled? || step.MainReturns?
    ensures Inv(g, start, Apply(g, s, step))
  {
    var t := Apply(g, s, step);
    MainMoves(g, start, s, t.procs[0]);
    MoveInv(g, start, s, t, 0, t.procs[0]);
  }

  lemma StepWork(g: Graph, start: Vertex, s: State, step: Step)
    requires Runnable(g, start) && Inv(g, start, s) && Enabled(g, s, step)
    requires step.ReceiveClosed? || step.BeginRun? || step.EndRun? || step.ListDependents? || step.EndSends? || step.CloseReport?
    ensures Inv(g, start, Apply(g, s, step))
  {
    var t := Apply(g, s, step);
    var i := step.i;
    if step.ReceiveClosed? {
      AbortMoves(g, start, s, i);
    } else if step.BeginRun? || step.EndRun? {
      RunMoves(g, start, s, i, t.procs[i]);
    } else {
      SendMoves(g, start, s, i, t.procs[i]);
    }
    MoveInv(g, start, s, t, i, t.procs[i]);
  }

  lemma StepReport(g: Graph, start: Vertex, s: State, step: Step)
    requires Runnable(g, start) && Inv(g, start, s) && Enabled(g, s, step) && step.Report?
    ensures Inv(g, start, Apply(g, s, step))
  {
    var t := Apply(g, s, step);
    var q := CloseDone(s.procs[step.i].at, s.procs[step.i].ok);
    var mid := s.(procs := s.procs[step.i := q]);
    SendMoves(g, start, s, step.i, q);
    MoveInv(g, start, s, mid, step.i, q);
    MainMoves(g, start, mid, t.procs[0]);
    MoveInv(g, start, mid, t, 0, t.procs[0]);
  }

  lemma StepExecuteDown(g: Graph, start: Vertex, s: State, step: Step)
    requires Runnable(g, start) && Inv(g, start, s) && Enabled(g, s, step) && step.ExecuteDown?
    ensures Inv(g, start, Apply(g, s, step))
  {
    var p := s.procs[step.i];
    var q := Descend(p.at, p.todo[1..]);
    var mid := s.(procs := s.procs[step.i := q]);
    WalkMoves(g, start, s, step.i, q);
    MoveInv(g, start, s, mid, step.i, q);
    var w := p.todo[0];
    SuccessorsContain(g.edges, p.at, w);
    PredecessorsContain(g.edges, p.at, w);
    assert Edge(p.at, w).to in Endpoints(g.edges);
    AppendInv(g, start, mid, Apply(g, s, step), Check(w));
  }

  lemma StepSpawnWorker(g: Graph, start: Vertex, s: State, step: Step)
    requires Runnable(g, start) && Inv(g, start, s) && Enabled(g, s, step) && step.SpawnWorker?
    ensures Inv(g, start, Apply(g, s, step))
  {
    var v := s.procs[step.i].at;
    var mid := s.(procs := s.procs[step.i := ListDown(v)]);
    WalkMoves(g, start, s, step.i, ListDown(v));
    MoveInv(g, start, s, mid, step.i, ListDown(v));
    var r := Wait(v, step.order);
    FreshWorkerReceipts(g, mid, r);
    FreshWorkerSends(g, start, mid, r);
    AppendInv(g, start, mid, Apply(g, s, step), r);
  }

  /** A new vertex goroutine has received nothing. */
  lemma FreshWorkerReceipts(g: Graph, s: State, r: Proc)
    requires (forall e :: e in s.delivered ==> s.delivered[e].receiver < |s.procs|) && r.Wait? && Lists(r.todo, Predecessors(g.edges, r.at))
    ensures ReceiptsOf(g, s, r, |s.procs|)
  {
  }

  /** If it has nothing to wait for it is the start vertex, which never sent. */
  lemma FreshWorkerSends(g: Graph, start: Vertex, s: State, r: Proc)
    requires Shared(g, start, s) && r.Wait? && Lists(r.todo, Predecessors(g.edges, r.at))
    requires r.at == start || Predecessors(g.edges, r.at) != {}
    requires r.at == start ==> forall k :: 0 <= k < |s.procs| && IsWorker(s.procs[k]) ==> s.procs[k].at != start
    ensures SendsOf(g, s, r)
  {
    if r.todo == [] {
      assert r.at == start;
      forall e | e in s.delivered ensures e.from != start {
        assert HasSender(s, e.from);
      }
    }
  }

  lemma SenderStays(s: State, t: State, u: Vertex, i: nat)
    requires HasSender(s, u) && i < |s.procs| && |s.procs| <= |t.procs|
    requires forall k :: 0 <= k < |s.procs| && k != i ==> t.procs[k] == s.procs[k]
    requires IsReady(s.procs[i]) ==> IsReady(t.procs[i]) && t.procs[i].at == s.procs[i].at
    ensures HasSender(t, u)
  {
    var k :| 0 <= k < |s.procs| && IsReady(s.procs[k]) && s.procs[k].at == u;
    assert IsReady(t.procs[k]) && t.procs[k].at == u;
  }

  /** The sender closes a channel it has just served: the channel was open. */
  lemma CloseMoves(g: Graph, start: Vertex, s: State, t: State, i: nat)
    requires i < |s.procs| && Local(g, start, s, i) && s.procs[i].Close?
    requires t.delivered == s.delivered && t.closed == s.closed + {Edge(s.procs[i].at, s.procs[i].todo[0])}
    ensures Edge(s.procs[i].at, s.procs[i].todo[0]) in s.delivered.Keys - s.closed
    ensures var p := s.procs[i];
            var q := Send(p.at, p.todo[1..], p.ok);
            WellPlaced(g, start, q, i) && ReceiptsOf(g, t, q, i) && SendsOf(g, t, q)
  {
    var p := s.procs[i];
    var v := p.todo[0];
    assert v in p.todo;
    assert v in Successors(g.edges, p.at);
    assert HasSent(p, v) && !HasClosed(p, v);
  }

  /** The channel fields of another state only matter to a goroutine through the edges at its own vertex. */
  ghost predicate SameChannels(g: Graph, s: State, t: State, p: Proc, i: nat)
    requires !IsMain(p)
  {
    && (forall u :: u in Predecessors(g.edges, p.at) ==> (Got(s, i, u, p.at) <==> Got(t, i, u, p.at)))
    && (IsReady(p) ==> forall v :: v in Successors(g.edges, p.at) ==>
          && (Edge(p.at, v) in s.delivered <==> Edge(p.at, v) in t.delivered)
          && (Edge(p.at, v) in s.closed <==> Edge(p.at, v) in t.closed))
  }

  lemma Unnoticed(g: Graph, start: Vertex, s: State, t: State, i: nat)
    requires i < |s.procs| && i < |t.procs| && t.procs[i] == s.procs[i] && Local(g, start, s, i)
    requires !IsMain(s.procs[i]) ==> SameChannels(g, s, t, s.procs[i], i)
    ensures Local(g, start, t, i)
  {
  }

  lemma StepCloseEdgeLocal(g: Graph, start: Vertex, s: State, t: State, i: nat)
    requires Inv(g, start, s) && i < |s.procs| && s.procs[i].Close?
    requires var Close(u, todo, ok) := s.procs[i];
             && todo != [] && t.procs == s.procs[i := Send(u, todo[1..], ok)]
             && t.delivered == s.delivered && t.closed == s.closed + {Edge(u, todo[0])}
    ensures forall k :: 0 <= k < |t.procs| ==> Local(g, start, t, k)
    ensures Edge(s.procs[i].at, s.procs[i].todo[0]) in s.delivered.Keys - s.closed
  {
    InvOneReady(g, start, s);
    CloseMoves(g, start, s, t, i);
    forall k | 0 <= k < |t.procs| ensures Local(g, start, t, k) {
      if k != i {
        if !IsMain(s.procs[k]) && IsReady(s.procs[k]) {
          assert s.procs[k].at == s.procs[i].at ==> BothReady(s, k, i);
        }
        Unnoticed(g, start, s, t, k);
      }
    }
  }

  lemma SharedAfterClose(g: Graph, start: Vertex, s: State, t: State, i: nat)
    requires Shared(g, start, s) && i < |s.procs| && s.procs[i].Close?
    requires var Close(u, todo, ok) := s.procs[i];
             && todo != [] && t.procs == s.procs[i := Send(u, todo[1..], ok)] && Edge(u, todo[0]) in s.delivered
             && t.delivered == s.delivered && t.closed == s.closed + {Edge(u, todo[0])}
    ensures Shared(g, start, t)
  {
    forall e | e in t.delivered ensures HasSender(t, e.from) {
      SenderStays(s, t, e.from, i);
    }
  }

  lemma StepCloseEdge(g: Graph, start: Vertex, s: State, step: Step)
    requires Runnable(g, start) && Inv(g, start, s) && Enabled(g, s, step) && step.CloseEdge?
    ensures Inv(g, start, Apply(g, s, step)) && !Apply(g, s, step).panicked
  {
    var t := Apply(g, s, step);
    StepCloseEdgeLocal(g, start, s, t, step.i);
    SharedAfterClose(g, start, s, t, step.i);
  }

  /** The sender's half of a delivery: the channel had not been used. */
  lemma DeliverSends(g: Graph, start: Vertex, s: State, t: State, i: nat, j: nat)
    requires Acyclic(g.edges) && i < |s.procs| && Local(g, start, s, i) && s.procs[i].Send? && s.procs[i].todo != []
    requires s.closed <= s.delivered.Keys
    requires t.closed == s.closed && t.delivered == s.delivered[Edge(s.procs[i].at, s.procs[i].todo[0]) := Delivery(j, |s.delivered|)]
    ensures Edge(s.procs[i].at, s.procs[i].todo[0]) in g.edges && Edge(s.procs[i].at, s.procs[i].todo[0]) !in s.delivered
    ensures var Send(u, todo, ok) := s.procs[i];
            var q := Close(u, todo, ok);
            WellPlaced(g, start, q, i) && ReceiptsOf(g, t, q, i) && SendsOf(g, t, q)
  {
    var Send(u, todo, ok) := s.procs[i];
    assert todo[0] in todo;
    SuccessorsContain(g.edges, u, todo[0]);
    AcyclicEdgeProper(g.edges, u, todo[0]);
    assert !HasSent(s.procs[i], todo[0]);
  }

  /** The receiver's half. */
  lemma DeliverReceives(g: Graph, start: Vertex, s: State, t: State, i: nat, j: nat)
    requires j < |s.procs| && Local(g, start, s, j) && s.procs[j].Wait? && s.procs[j].todo != []
    requires Edge(s.procs[j].todo[0], s.procs[j].at) !in s.delivered
    requires s.procs[j].todo[0] != s.procs[j].at
    requires forall e :: e in s.delivered ==> e.from != s.procs[j].at
    requires s.closed <= s.delivered.Keys
    requires t.closed == s.closed && t.delivered == s.delivered[Edge(s.procs[j].todo[0], s.procs[j].at) := Delivery(j, |s.delivered|)]
    ensures var q := Wait(s.procs[j].at, s.procs[j].todo[1..]);
            WellPlaced(g, start, q, j) && ReceiptsOf(g, t, q, j) && SendsOf(g, t, q)
  {
  }

  /** A vertex that still misses a dependency has not sent anything. */
  lemma NotYetSent(g: Graph, start: Vertex, s: State, e: Edge)
    requires Inv(g, start, s) && e in g.edges && e !in s.delivered
    ensures !HasSender(s, e.to)
  {
    PredecessorsContain(g.edges, e.from, e.to);
    assert e == Edge(e.from, e.to);
    forall k | 0 <= k < |s.procs| && IsReady(s.procs[k]) ensures s.procs[k].at != e.to {
      assert Local(g, start, s, k);
      assert !Got(s, k, e.from, e.to);
    }
  }

  ghost predicate Delivers(s: State, t: State, i: nat, j: nat) {
    && i < |s.procs| && s.procs[i].Send? && s.procs[i].todo != []
    && j < |s.procs| && s.procs[j].Wait? && s.procs[j].todo != []
    && s.procs[i].todo[0] == s.procs[j].at && s.procs[j].todo[0] == s.procs[i].at
    && t.procs == s.procs[i := Close(s.procs[i].at, s.procs[i].todo, s.procs[i].ok)]
                         [j := Wait(s.procs[j].at, s.procs[j].todo[1..])]
    && t.closed == s.closed
    && t.delivered == s.delivered[Edge(s.procs[i].at, s.procs[j].at) := Delivery(j, |s.delivered|)]
  }

  lemma DeliverUnnoticed(g: Graph, start: Vertex, s: State, t: State, i: nat, j: nat, k: nat)
    requires Delivers(s, t, i, j) && k < |s.procs| && k != i && k != j && Local(g, start, s, k)
    requires Edge(s.procs[i].at, s.procs[j].at) !in s.delivered
    requires IsReady(s.procs[k]) ==> s.procs[k].at != s.procs[i].at
    ensures Local(g, start, t, k)
  {
  }

  lemma StepDeliverLocal(g: Graph, start: Vertex, s: State, t: State, i: nat, j: nat)
    requires Runnable(g, start) && Inv(g, start, s) && Delivers(s, t, i, j)
    ensures forall k :: 0 <= k < |t.procs| ==> Local(g, start, t, k)
    ensures Edge(s.procs[i].at, s.procs[j].at) in g.edges
  {
    var u, v := s.procs[i].at, s.procs[j].at;
    DeliverSends(g, start, s, t, i, j);
    AcyclicEdgeProper(g.edges, u, v);
    NotYetSent(g, start, s, Edge(u, v));
    DeliverReceives(g, start, s, t, i, j);
    InvOneReady(g, start, s);
    forall k | 0 <= k < |t.procs| ensures Local(g, start, t, k) {
      if k != i && k != j {
        if !IsMain(s.procs[k]) && IsReady(s.procs[k]) {
          assert s.procs[k].at == u ==> BothReady(s, k, i);
        }
        DeliverUnnoticed(g, start, s, t, i, j, k);
      }
    }
  }

  lemma SharedAfterDeliver(g: Graph, start: Vertex, s: State, t: State, i: nat, j: nat)
    requires Shared(g, start, s) && Delivers(s, t, i, j) && Edge(s.procs[i].at, s.procs[j].at) in g.edges
    ensures Shared(g, start, t)
  {
    forall e | e in t.delivered ensures HasSender(t, e.from) {
      if e in s.delivered {
        assert HasSender(s, e.from);
        var k :| 0 <= k < |s.procs| && IsReady(s.procs[k]) && s.procs[k].at == e.from;
        assert IsReady(t.procs[k]) && t.procs[k].at == e.from;
      } else {
        assert IsReady(t.procs[i]) && t.procs[i].at == e.from;
      }
    }
  }

  lemma StepDeliver(g: Graph, start: Vertex, s: State, step: Step)
    requires Runnable(g, start) && Inv(g, start, s) && Enabled(g, s, step) && step.Deliver?
    ensures Inv(g, start, Apply(g, s, step))
  {
    var t := Apply(g, s, step);
    assert Delivers(s, t, step.i, step.j);
    StepDeliverLocal(g, start, s, t, step.i, step.j);
    SharedAfterDeliver(g, start, s, t, step.i, step.j);
  }
}
