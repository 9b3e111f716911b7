/** What a run keeps beyond safety: goroutines iterate in their orders, aborted ones are explained, every call is followed up. */
module ExecutorProgress {
  import opened Graphs
  import opened Executor
  import opened ExecutorSteps
  import opened ExecutorSafety
  import opened ExecutorTrace

  /** Iteration orders: of the dependencies a vertex waits for, and of the dependents it sends to. */
  datatype Orders = Orders(wait: map<Vertex, seq<Vertex>>, send: map<Vertex, seq<Vertex>>)

  ghost predicate OrdersFor(g: Graph, core: set<Vertex>, o: Orders) {
    forall v :: v in core ==>
      && v in o.wait && Lists(o.wait[v], Predecessors(g.edges, v))
      && v in o.send && Lists(o.send[v], Successors(g.edges, v))
  }

  ghost predicate IsCore(g: Graph, core: set<Vertex>) {
    core <= g.vertices && forall e :: e in g.edges && e.to in core ==> e.from in core
  }

  /** At the vertices of the core the step iterates in the given orders. */
  predicate Follows(o: Orders, core: set<Vertex>, s: State, step: Step) {
    match step
    case SpawnWorker(i, order) =>
      i < |s.procs| && s.procs[i].Spawn? && (s.procs[i].at in core ==> s.procs[i].at in o.wait && order == o.wait[s.procs[i].at])
    case ListDependents(i, order) =>
      i < |s.procs| && s.procs[i].Returned? && (s.procs[i].at in core ==> s.procs[i].at in o.send && order == o.send[s.procs[i].at])
    case _ => true
  }

  ghost predicate IsRunIn(g: Graph, start: Vertex, core: set<Vertex>, o: Orders, ss: seq<State>, steps: seq<Step>) {
    IsRun(g, start, ss, steps) && forall k :: 0 <= k < |steps| ==> Follows(o, core, ss[k], steps[k])
  }

  type Ranking = map<Edge, nat>

  /** At the vertices of the core waits go up in rank; so do sends to other vertices of the core, which come first. */
  ghost predicate Compatible(g: Graph, core: set<Vertex>, o: Orders, rank: Ranking) {
    && (forall e :: e in g.edges && e.to in core ==> e in rank)
    && (forall v, i, j :: v in core && v in o.wait && 0 <= i < j < |o.wait[v]| ==>
          Before(rank, Edge(o.wait[v][i], v), Edge(o.wait[v][j], v)))
    && (forall u, i, j :: u in core && u in o.send && 0 <= i < j < |o.send[u]| && o.send[u][j] in core ==>
          o.send[u][i] in core && Before(rank, Edge(u, o.send[u][i]), Edge(u, o.send[u][j])))
    && (forall e, f :: e in g.edges && f in g.edges && e.to == f.from && f.to in core ==> Before(rank, e, f))
  }

  predicate Before(rank: Ranking, e: Edge, f: Edge) {
    e in rank && f in rank && rank[e] < rank[f]
  }

  predicate IsSuffix(xs: seq<Vertex>, ys: seq<Vertex>) {
    |xs| <= |ys| && xs == ys[|ys| - |xs|..]
  }

  // ---------------------------------------------------------------- further invariants

  /** The remaining iterations are what is left of the given orders. */
  ghost predicate InOrder(o: Orders, core: set<Vertex>, p: Proc) {
    && (p.Wait? && p.at in core ==> p.at in o.wait && IsSuffix(p.todo, o.wait[p.at]))
    && ((p.Send? || p.Close?) && p.at in core ==> p.at in o.send && IsSuffix(p.todo, o.send[p.at]))
  }

  ghost predicate AllInOrder(o: Orders, core: set<Vertex>, s: State) {
    forall i :: 0 <= i < |s.procs| ==> InOrder(o, core, s.procs[i])
  }

  /** The channels into a vertex are served in its wait order. */
  ghost predicate ServedInTurn(o: Orders, core: set<Vertex>, s: State) {
    forall v, a, b :: v in core && v in o.wait && 0 <= a < b < |o.wait[v]| && Edge(o.wait[v][b], v) in s.delivered ==>
      Edge(o.wait[v][a], v) in s.delivered
  }

  predicate SameReceiver(s: State, e: Edge, f: Edge)
    requires e in s.delivered && f in s.delivered
  {
    s.delivered[e].receiver == s.delivered[f].receiver
  }

  /** All goroutines of a vertex wait in the same order, so that the first to receive receives everything. */
  ghost predicate OneReceiver(core: set<Vertex>, s: State) {
    forall e, f :: e in s.delivered && f in s.delivered && e.to == f.to && e.to in core ==> SameReceiver(s, e, f)
  }

  ghost predicate Orderly(o: Orders, core: set<Vertex>, s: State) {
    AllInOrder(o, core, s) && ServedInTurn(o, core, s) && OneReceiver(core, s)
  }

  /** Values are received by goroutines of the edge's target. */
  ghost predicate ReceiversRight(s: State) {
    forall e :: e in s.delivered ==>
      && s.delivered[e].receiver < |s.procs|
      && IsWorker(s.procs[s.delivered[e].receiver]) && s.procs[s.delivered[e].receiver].at == e.to
  }

  ghost predicate MissedValue(s: State, i: nat)
    requires i < |s.procs| && s.procs[i].Aborted?
  {
    exists u :: Edge(u, s.procs[i].at) in s.closed && !Got(s, i, u, s.procs[i].at)
  }

  /** A goroutine gives up only when another one took a value it waited for. */
  ghost predicate AbortsExplained(s: State) {
    forall i :: 0 <= i < |s.procs| && s.procs[i].Aborted? ==> MissedValue(s, i)
  }

  /** Some execute call was made for w; Run's own call turns into the waiting main goroutine. */
  ghost predicate Called(start: Vertex, s: State, w: Vertex) {
    exists k :: 0 <= k < |s.procs| && CallFor(start, s.procs[k], k, w)
  }

  predicate CallFor(start: Vertex, p: Proc, k: nat, w: Vertex) {
    (IsWalker(p) && p.at == w) || (k == 0 && IsMain(p) && w == start)
  }

  ghost predicate Scheduled(s: State, w: Vertex) {
    exists k :: 0 <= k < |s.procs| && GoroutineFor(s.procs[k], w)
  }

  predicate GoroutineFor(p: Proc, w: Vertex) {
    (p.Spawn? || IsWorker(p)) && p.at == w
  }

  /** What a call has done so far: its vertex is marked, and the down vertices it is past have been called. */
  ghost predicate CallDone(g: Graph, start: Vertex, s: State, p: Proc) {
    && (p.Spawn? || p.ListDown? || p.Descend? || p.Walked? ==> p.at in s.visited)
    && (IsMain(p) ==> start in s.visited)
    && (p.Descend? ==> forall w :: w in Successors(g.edges, p.at) && w !in p.todo ==> Called(start, s, w))
    && (p.Walked? ==> forall w :: w in Successors(g.edges, p.at) ==> Called(start, s, w))
    && (IsMain(p) ==> forall w :: w in Successors(g.edges, start) ==> Called(start, s, w))
  }

  ghost predicate Coverage(g: Graph, start: Vertex, s: State) {
    && Called(start, s, start)
    && (forall i :: 0 <= i < |s.procs| ==> CallDone(g, start, s, s.procs[i]))
    && (forall v :: v in s.visited ==> Scheduled(s, v))
  }

  ghost predicate Tracks(g: Graph, start: Vertex, s: State) {
    ReceiversRight(s) && AbortsExplained(s) && Coverage(g, start, s)
  }

  // ---------------------------------------------------------------- preservation

  lemma StepInOrder(g: Graph, o: Orders, core: set<Vertex>, s: State, step: Step)
    requires AllInOrder(o, core, s) && Enabled(g, s, step) && Follows(o, core, s, step)
    ensures AllInOrder(o, core, Apply(g, s, step))
  {
    var t := Apply(g, s, step);
    forall i | 0 <= i < |t.procs| ensures InOrder(o, core, t.procs[i]) {
      if i < |s.procs| {
        MovedAt(g, s, step, i);
        MovedInOrder(o, core, s, step, i, s.procs[i], t.procs[i]);
      } else {
        AddedAt(g, s, step, i);
        NewInOrder(o, core, s, step, t.procs[i]);
      }
    }
  }

  lemma WalkInOrder(o: Orders, core: set<Vertex>, s: State, step: Step, i: nat, p: Proc, q: Proc)
    requires WalkMoved(s, step, i, p, q)
    requires i < |s.procs| && p == s.procs[i] && InOrder(o, core, p) && Follows(o, core, s, step)
    ensures InOrder(o, core, q)
  {
  }

  lemma WorkInOrder(o: Orders, core: set<Vertex>, s: State, step: Step, i: nat, p: Proc, q: Proc)
    requires WorkMoved(step, i, p, q)
    requires i < |s.procs| && p == s.procs[i] && InOrder(o, core, p) && Follows(o, core, s, step)
    ensures InOrder(o, core, q)
  {
  }

  lemma MainInOrder(o: Orders, core: set<Vertex>, s: State, step: Step, i: nat, p: Proc, q: Proc)
    requires MainMoved(step, i, p, q)
    requires i < |s.procs| && p == s.procs[i] && InOrder(o, core, p) && Follows(o, core, s, step)
    ensures InOrder(o, core, q)
  {
  }

  lemma MovedInOrder(o: Orders, core: set<Vertex>, s: State, step: Step, i: nat, p: Proc, q: Proc)
    requires Moved(s, step, i, p, q)
    requires i < |s.procs| && p == s.procs[i] && InOrder(o, core, p) && Follows(o, core, s, step)
    ensures InOrder(o, core, q)
  {
    if q == p {
    } else if WalkMoved(s, step, i, p, q) {
      WalkInOrder(o, core, s, step, i, p, q);
    } else if MainMoved(step, i, p, q) {
      MainInOrder(o, core, s, step, i, p, q);
    } else {
      WorkInOrder(o, core, s, step, i, p, q);
    }
  }

  lemma NewInOrder(o: Orders, core: set<Vertex>, s: State, step: Step, q: Proc)
    requires Follows(o, core, s, step) && Added(s, step) == [q]
    ensures InOrder(o, core, q)
  {
    assert [q][0] == q;
  }

  /** Goroutines keep their kind and vertex; only Run's own call turns into the waiting main goroutine. */
  predicate SameKind(p: Proc, q: Proc, i: nat) {
    if IsMain(p) then (i == 0 ==> IsMain(q))
    else if IsWorker(p) then IsWorker(q) && q.at == p.at
    else (IsWalker(q) && q.at == p.at) || (i == 0 && IsMain(q))
  }

  lemma KindsStay(g: Graph, s: State, step: Step)
    requires Enabled(g, s, step)
    ensures |s.procs| <= |Apply(g, s, step).procs| && s.closed <= Apply(g, s, step).closed
    ensures forall i :: 0 <= i < |s.procs| ==> SameKind(s.procs[i], Apply(g, s, step).procs[i], i)
  {
    StepFields(g, s, step);
    StepAdds(g, s, step);
    forall i | 0 <= i < |s.procs| ensures SameKind(s.procs[i], Apply(g, s, step).procs[i], i) {
      MovedAt(g, s, step, i);
      MovedKind(s, step, i, s.procs[i], Apply(g, s, step).procs[i]);
    }
  }

  lemma WalkKind(s: State, step: Step, i: nat, p: Proc, q: Proc)
    requires WalkMoved(s, step, i, p, q)
    ensures SameKind(p, q, i)
  {
  }

  lemma WorkKind(s: State, step: Step, i: nat, p: Proc, q: Proc)
    requires WorkMoved(step, i, p, q)
    ensures SameKind(p, q, i)
  {
  }

  lemma MainKind(s: State, step: Step, i: nat, p: Proc, q: Proc)
    requires MainMoved(step, i, p, q)
    ensures SameKind(p, q, i)
  {
  }

  lemma MovedKind(s: State, step: Step, i: nat, p: Proc, q: Proc)
    requires Moved(s, step, i, p, q)
    ensures SameKind(p, q, i)
  {
    if q == p {
    } else if WalkMoved(s, step, i, p, q) {
      WalkKind(s, step, i, p, q);
    } else if MainMoved(step, i, p, q) {
      MainKind(s, step, i, p, q);
    } else {
      WorkKind(s, step, i, p, q);
    }
  }

  lemma StepReceiversRight(g: Graph, s: State, step: Step)
    requires ReceiversRight(s) && Enabled(g, s, step)
    ensures ReceiversRight(Apply(g, s, step))
  {
    KindsStay(g, s, step);
    StepFields(g, s, step);
    if step.Deliver? {
      DeliverRight(g, s, step);
    }
  }

  lemma DeliverRight(g: Graph, s: State, step: Step)
    requires ReceiversRight(s) && Enabled(g, s, step) && step.Deliver?
    ensures ReceiversRight(Apply(g, s, step))
  {
    KindsStay(g, s, step);
  }

  lemma CalledStays(g: Graph, start: Vertex, s: State, step: Step, w: Vertex)
    requires Inv(g, start, s) && Enabled(g, s, step) && Called(start, s, w)
    ensures Called(start, Apply(g, s, step), w)
  {
    KindsStay(g, s, step);
    var k :| 0 <= k < |s.procs| && CallFor(start, s.procs[k], k, w);
    assert Local(g, start, s, k);
    assert CallFor(start, Apply(g, s, step).procs[k], k, w);
  }

  lemma ScheduledStays(g: Graph, s: State, step: Step, w: Vertex)
    requires Enabled(g, s, step) && Scheduled(s, w)
    ensures Scheduled(Apply(g, s, step), w)
  {
    KindsStay(g, s, step);
    var t := Apply(g, s, step);
    var k :| 0 <= k < |s.procs| && GoroutineFor(s.procs[k], w);
    if s.procs[k].Spawn? {
      if step.SpawnWorker? && step.i == k {
        assert GoroutineFor(t.procs[|s.procs|], w);
      } else {
        SpawnStays(g, s, step, k);
        assert GoroutineFor(t.procs[k], w);
      }
    } else {
      assert GoroutineFor(t.procs[k], w);
    }
  }

  lemma SpawnStays(g: Graph, s: State, step: Step, k: nat)
    requires Enabled(g, s, step) && k < |s.procs| && s.procs[k].Spawn? && !(step.SpawnWorker? && step.i == k)
    ensures k < |Apply(g, s, step).procs| && Apply(g, s, step).procs[k] == s.procs[k]
  {
    MovedAt(g, s, step, k);
  }

  lemma MissedStays(g: Graph, start: Vertex, s: State, step: Step, i: nat)
    requires Inv(g, start, s) && Enabled(g, s, step) && i < |s.procs| && s.procs[i].Aborted? && MissedValue(s, i)
    ensures var t := Apply(g, s, step); i < |t.procs| && t.procs[i] == s.procs[i] && MissedValue(t, i)
  {
    KindsStay(g, s, step);
    var t := Apply(g, s, step);
    var u :| Edge(u, s.procs[i].at) in s.closed && !Got(s, i, u, s.procs[i].at);
    assert Edge(u, s.procs[i].at) in s.delivered;
    AbortedStays(g, s, step, i);
    assert !Got(t, i, u, s.procs[i].at);
  }

  lemma AbortedStays(g: Graph, s: State, step: Step, i: nat)
    requires Enabled(g, s, step) && i < |s.procs| && s.procs[i].Aborted?
    ensures var t := Apply(g, s, step); i < |t.procs| && t.procs[i] == s.procs[i]
    ensures forall e :: e in s.closed && e in s.delivered ==>
      e in Apply(g, s, step).delivered && Apply(g, s, step).delivered[e] == s.delivered[e]
  {
    MovedAt(g, s, step, i);
    StepFields(g, s, step);
  }

  lemma StepAborts(g: Graph, start: Vertex, s: State, step: Step)
    requires Inv(g, start, s) && AbortsExplained(s) && Enabled(g, s, step)
    ensures AbortsExplained(Apply(g, s, step))
  {
    var t := Apply(g, s, step);
    forall i | 0 <= i < |t.procs| && t.procs[i].Aborted? ensures MissedValue(t, i) {
      NewAborts(g, s, step, i);
      if s.procs[i].Aborted? {
        MissedStays(g, start, s, step, i);
      } else {
        assert Local(g, start, s, i);
        var u := s.procs[i].todo[0];
        assert u in s.procs[i].todo;
        assert !Got(s, i, u, s.procs[i].at);
      }
    }
  }

  lemma NewAborts(g: Graph, s: State, step: Step, i: nat)
    requires Enabled(g, s, step) && i < |Apply(g, s, step).procs| && Apply(g, s, step).procs[i].Aborted?
    ensures i < |s.procs| && (s.procs[i].Aborted? || (step == ReceiveClosed(i)))
  {
    if i < |s.procs| {
      MovedAt(g, s, step, i);
    } else {
      AddedAt(g, s, step, i);
    }
  }

  /** What changes about the calls: where each call was before. */
  ghost predicate CallMoved(g: Graph, start: Vertex, s: State, step: Step, i: nat, p: Proc, q: Proc) {
    match q
    case Spawn(_) => q == p || step == MarkVisited(i)
    case ListDown(v) => q == p || p == Spawn(v) || (p == Check(v) && v in s.visited)
    case Descend(v, todo) =>
      || q == p || (p == ListDown(v) && Lists(todo, Successors(g.edges, v)))
      || (p.Descend? && p.at == v && p.todo != [] && todo == p.todo[1..] && step == ExecuteDown(i))
    case Walked(v) => q == p || p == Descend(v, [])
    case MainWait(_) => IsMain(p) || p == Descend(start, [])
    case MainDone(_) => IsMain(p) || p == Descend(start, [])
    case _ => true
  }

  lemma WalkCall(g: Graph, start: Vertex, s: State, step: Step, i: nat, p: Proc, q: Proc)
    requires Enabled(g, s, step) && i < |s.procs| && p == s.procs[i] && WalkMoved(s, step, i, p, q)
    ensures CallMoved(g, start, s, step, i, p, q)
  {
  }

  lemma MainCall(g: Graph, start: Vertex, s: State, step: Step, i: nat, p: Proc, q: Proc)
    requires WellPlaced(g, start, p, i) && MainMoved(step, i, p, q)
    ensures CallMoved(g, start, s, step, i, p, q)
  {
  }

  lemma WorkCall(g: Graph, start: Vertex, s: State, step: Step, i: nat, p: Proc, q: Proc)
    requires WorkMoved(step, i, p, q)
    ensures CallMoved(g, start, s, step, i, p, q)
  {
  }

  lemma SameCall(g: Graph, start: Vertex, s: State, step: Step, i: nat, p: Proc)
    ensures CallMoved(g, start, s, step, i, p, p)
  {
  }

  lemma CallSteps(g: Graph, start: Vertex, s: State, step: Step, i: nat)
    requires Inv(g, start, s) && Enabled(g, s, step) && i < |Apply(g, s, step).procs|
    requires var q := Apply(g, s, step).procs[i]; !IsWorker(q) && !q.Check? && !q.Mark?
    ensures i < |s.procs| && CallMoved(g, start, s, step, i, s.procs[i], Apply(g, s, step).procs[i])
  {
    var q := Apply(g, s, step).procs[i];
    if i < |s.procs| {
      var p := s.procs[i];
      assert Local(g, start, s, i);
      MovedAt(g, s, step, i);
      if q == p {
        SameCall(g, start, s, step, i, p);
      } else if WalkMoved(s, step, i, p, q) {
        WalkCall(g, start, s, step, i, p, q);
      } else if MainMoved(step, i, p, q) {
        MainCall(g, start, s, step, i, p, q);
      } else {
        WorkCall(g, start, s, step, i, p, q);
      }
    } else {
      AddedAt(g, s, step, i);
    }
  }

  lemma StepCallDone(g: Graph, start: Vertex, s: State, step: Step, i: nat)
    requires Inv(g, start, s) && Coverage(g, start, s) && Enabled(g, s, step) && i < |Apply(g, s, step).procs|
    ensures CallDone(g, start, Apply(g, s, step), Apply(g, s, step).procs[i])
  {
    var t := Apply(g, s, step);
    var q := t.procs[i];
    if !IsWorker(q) && !q.Check? && !q.Mark? {
      CallSteps(g, start, s, step, i);
      assert CallDone(g, start, s, s.procs[i]);
      StepFields(g, s, step);
      forall w | Called(start, s, w) ensures Called(start, t, w) {
        CalledStays(g, start, s, step, w);
      }
      if step == ExecuteDown(i) {
        assert CallFor(start, t.procs[|s.procs|], |s.procs|, s.procs[i].todo[0]);
      }
    }
  }

  lemma StepCoverage(g: Graph, start: Vertex, s: State, step: Step)
    requires Inv(g, start, s) && Coverage(g, start, s) && Enabled(g, s, step)
    ensures Coverage(g, start, Apply(g, s, step))
  {
    var t := Apply(g, s, step);
    CalledStays(g, start, s, step, start);
    forall i | 0 <= i < |t.procs| ensures CallDone(g, start, t, t.procs[i]) {
      StepCallDone(g, start, s, step, i);
    }
    StepFields(g, s, step);
    forall v | v in t.visited ensures Scheduled(t, v) {
      if v in s.visited {
        ScheduledStays(g, s, step, v);
      } else {
        assert GoroutineFor(t.procs[step.i], v);
      }
    }
  }

  lemma InitTracks(g: Graph, start: Vertex)
    ensures Tracks(g, start, Init(start))
  {
    assert CallFor(start, Init(start).procs[0], 0, start);
  }

  lemma StepTracks(g: Graph, start: Vertex, s: State, step: Step)
    requires Inv(g, start, s) && Tracks(g, start, s) && Enabled(g, s, step)
    ensures Tracks(g, start, Apply(g, s, step))
  {
    StepReceiversRight(g, s, step);
    StepAborts(g, start, s, step);
    StepCoverage(g, start, s, step);
  }

  lemma {:induction false} RunTracks(g: Graph, start: Vertex, ss: seq<State>, steps: seq<Step>, k: nat)
    requires Runnable(g, start) && IsRun(g, start, ss, steps) && k < |ss|
    ensures Tracks(g, start, ss[k])
  {
    if k == 0 {
      InitTracks(g, start);
    } else {
      RunTracks(g, start, ss, steps, k - 1);
      RunGood(g, start, ss, steps, k - 1);
      assert ss[k - 1 + 1] == Apply(g, ss[k - 1], steps[k - 1]);
      StepTracks(g, start, ss[k - 1], steps[k - 1]);
    }
  }
}
