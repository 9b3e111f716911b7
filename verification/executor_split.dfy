/** Two goroutines of one vertex that take one value each, until both give up. */
module ExecutorSplit {
  import opened Graphs
  import opened Executor
  import opened ExecutorSteps
  import opened ExecutorSafety
  import opened ExecutorTrace
  import opened ExecutorProgress
  import opened ExecutorCompletion
  import opened ExecutorSchedules
  import opened ExecutorLost

  // ---------------------------------------------------------------- two goroutines for one vertex

  /** Both calls find v unmarked, mark it, and start a goroutine; each waits in its own order. */
  ghost function BothSpawned(s: State, v: Vertex, k: nat, l: nat, v1: seq<Vertex>, v2: seq<Vertex>): State
    requires k < |s.procs| && l < |s.procs|
  {
    s.(procs := s.procs[k := ListDown(v)][l := ListDown(v)] + [Wait(v, v1)] + [Wait(v, v2)], visited := s.visited + {v})
  }

  lemma SpawnTwo(g: Graph, start: Vertex, core: set<Vertex>, o: Orders, ss: seq<State>, steps: seq<Step>,
                 v: Vertex, k: nat, l: nat, v1: seq<Vertex>, v2: seq<Vertex>) returns (ss': seq<State>, steps': seq<Step>)
    requires CleanIn(g, start, core, o, ss, steps) && v !in core && !ss[|steps|].panicked
    requires k != l && k < |ss[|steps|].procs| && l < |ss[|steps|].procs|
    requires ss[|steps|].procs[k] == Check(v) && ss[|steps|].procs[l] == Check(v) && v !in ss[|steps|].visited
    requires Lists(v1, Predecessors(g.edges, v)) && Lists(v2, Predecessors(g.edges, v))
    ensures CleanIn(g, start, core, o, ss', steps')
    ensures ss'[|steps'|] == BothSpawned(ss[|steps|], v, k, l, v1, v2)
  {
    ss', steps' := MarkTwo(g, start, core, o, ss, steps, v, k, l);
    var s := ss'[|steps'|];
    ss', steps' := ExtendIn(g, start, core, o, ss', steps', SpawnWorker(k, v1));
    ss', steps' := ExtendIn(g, start, core, o, ss', steps', SpawnWorker(l, v2));
  }

  lemma MarkTwo(g: Graph, start: Vertex, core: set<Vertex>, o: Orders, ss: seq<State>, steps: seq<Step>,
                v: Vertex, k: nat, l: nat) returns (ss': seq<State>, steps': seq<Step>)
    requires CleanIn(g, start, core, o, ss, steps) && !ss[|steps|].panicked
    requires k != l && k < |ss[|steps|].procs| && l < |ss[|steps|].procs|
    requires ss[|steps|].procs[k] == Check(v) && ss[|steps|].procs[l] == Check(v) && v !in ss[|steps|].visited
    ensures CleanIn(g, start, core, o, ss', steps')
    ensures ss'[|steps'|]
            == ss[|steps|].(procs := ss[|steps|].procs[k := Spawn(v)][l := Spawn(v)], visited := ss[|steps|].visited + {v})
  {
    var s := ss[|steps|];
    ss', steps' := ExtendIn(g, start, core, o, ss, steps, CheckVisited(k));
    ss', steps' := ExtendIn(g, start, core, o, ss', steps', CheckVisited(l));
    ss', steps' := ExtendIn(g, start, core, o, ss', steps', MarkVisited(k));
    ss', steps' := ExtendIn(g, start, core, o, ss', steps', MarkVisited(l));
    assert ss'[|steps'|].procs == s.procs[k := Spawn(v)][l := Spawn(v)];
  }

  /** A goroutine of v that has received nothing, or only the first value of its order, and nothing since. */
  ghost predicate Half(s: State, v: Vertex, x: nat, order: seq<Vertex>) {
    && |order| > 1 && x < |s.procs|
    && if Edge(order[0], v) in s.delivered then s.procs[x] == Wait(v, order[1..]) || s.procs[x] == Aborted(v)
       else s.procs[x] == Wait(v, order)
  }

  /** v has the two goroutines x and y, and no others that could run it. */
  ghost predicate Split(s: State, v: Vertex, x: nat, y: nat, v1: seq<Vertex>, v2: seq<Vertex>) {
    && x != y && Half(s, v, x, v1) && Half(s, v, y, v2) && v in s.visited
    && v1[0] == v2[1] && v1[1] == v2[0]
    && forall i :: 0 <= i < |s.procs| && i != x && i != y ==> GivenUp(s.procs[i], v)
  }

  lemma SpawnedSplit(g: Graph, s: State, v: Vertex, k: nat, l: nat, v1: seq<Vertex>, v2: seq<Vertex>)
    requires Gathered(s, v) && k != l && k < |s.procs| && l < |s.procs| && |v1| > 1 && |v2| > 1 && v1[0] == v2[1] && v1[1] == v2[0]
    ensures Split(BothSpawned(s, v, k, l, v1, v2), v, |s.procs|, |s.procs| + 1, v1, v2)
  {
    var t := BothSpawned(s, v, k, l, v1, v2);
    forall i | 0 <= i < |t.procs| && i != |s.procs| && i != |s.procs| + 1 ensures GivenUp(t.procs[i], v) {
      assert AtCheck(s.procs[i], v);
    }
  }

  /** The scheduler that gives the first value of each order to that goroutine, and its second to the other. */
  ghost predicate Splitting(o: Orders, core: set<Vertex>, x: nat, y: nat, a: Vertex, b: Vertex, s: State, step: Step) {
    && Follows(o, core, s, step) && CleanStep(step)
    && (step.Deliver? && step.i < |s.procs| && s.procs[step.i].Send? ==>
          !(step.j == x && s.procs[step.i].at == b) && !(step.j == y && s.procs[step.i].at == a))
  }

  /** That scheduler has nothing left to do. */
  ghost predicate NoSplitting(g: Graph, o: Orders, core: set<Vertex>, x: nat, y: nat, a: Vertex, b: Vertex, s: State) {
    forall step :: Splitting(o, core, x, y, a, b, s, step) ==> !Enabled(g, s, step)
  }

  /** A delivery into v from the first of an order goes to that goroutine: no other goroutine waits. */
  lemma SplitDelivery(g: Graph, s: State, v: Vertex, x: nat, y: nat, v1: seq<Vertex>, v2: seq<Vertex>, i: nat, j: nat)
    requires Split(s, v, x, y, v1, v2) && Enabled(g, s, Deliver(i, j)) && s.procs[j].at == v
    ensures j == x || j == y
  {
  }

  /** What a half-served goroutine may do next: receive its first value, or give up. */
  lemma StepHalf(g: Graph, start: Vertex, s: State, step: Step, v: Vertex, x: nat, order: seq<Vertex>)
    requires Inv(g, start, s) && Enabled(g, s, step) && Half(s, v, x, order)
    requires step.Deliver? && s.procs[step.j].at == v && s.procs[step.i].at == order[0] ==> step.j == x
    requires step.Deliver? && step.j == x ==> s.procs[step.i].at != order[1]
    ensures Half(Apply(g, s, step), v, x, order)
  {
    MovedAt(g, s, step, x);
    StepFields(g, s, step);
    if step.Deliver? {
      HalfDelivers(g, start, s, step, v, x, order);
    } else {
      HalfMoves(g, start, s, step, v, x, order);
    }
  }

  lemma HalfDelivers(g: Graph, start: Vertex, s: State, step: Step, v: Vertex, x: nat, order: seq<Vertex>)
    requires Inv(g, start, s) && Enabled(g, s, step) && Half(s, v, x, order) && step.Deliver?
    requires s.procs[step.j].at == v && s.procs[step.i].at == order[0] ==> step.j == x
    requires step.j == x ==> s.procs[step.i].at != order[1]
    ensures Half(Apply(g, s, step), v, x, order)
  {
    if step.j == x {
      assert s.procs[x].todo[0] == s.procs[step.i].at;
    }
  }

  lemma HalfMoves(g: Graph, start: Vertex, s: State, step: Step, v: Vertex, x: nat, order: seq<Vertex>)
    requires Inv(g, start, s) && Enabled(g, s, step) && Half(s, v, x, order) && !step.Deliver?
    ensures Half(Apply(g, s, step), v, x, order)
  {
    MovedAt(g, s, step, x);
    StepFields(g, s, step);
    var p, q := s.procs[x], Apply(g, s, step).procs[x];
    if p != q {
      assert WorkMoved(step, x, p, q);
      assert step == ReceiveClosed(x);
    }
  }

  lemma StepSplit(g: Graph, start: Vertex, o: Orders, core: set<Vertex>, s: State, step: Step,
                  v: Vertex, x: nat, y: nat, v1: seq<Vertex>, v2: seq<Vertex>)
    requires Inv(g, start, s) && Enabled(g, s, step) && Split(s, v, x, y, v1, v2)
    requires Splitting(o, core, x, y, v1[0], v2[0], s, step)
    ensures Split(Apply(g, s, step), v, x, y, v1, v2)
  {
    if step.Deliver? && s.procs[step.j].at == v {
      SplitDelivery(g, s, v, x, y, v1, v2, step.i, step.j);
    }
    StepHalf(g, start, s, step, v, x, v1);
    StepHalf(g, start, s, step, v, y, v2);
    StepFields(g, s, step);
    SplitOthers(g, s, step, v, x, y, v1, v2);
  }

  lemma SplitOthers(g: Graph, s: State, step: Step, v: Vertex, x: nat, y: nat, v1: seq<Vertex>, v2: seq<Vertex>)
    requires Enabled(g, s, step) && Split(s, v, x, y, v1, v2)
    ensures forall i :: 0 <= i < |Apply(g, s, step).procs| && i != x && i != y ==> GivenUp(Apply(g, s, step).procs[i], v)
  {
    var t := Apply(g, s, step);
    forall i | 0 <= i < |t.procs| && i != x && i != y ensures GivenUp(t.procs[i], v) {
      if i < |s.procs| {
        MovedAt(g, s, step, i);
        MovedGivenUp(s, step, i, s.procs[i], t.procs[i], v);
      } else {
        AddedAt(g, s, step, i);
        if step.SpawnWorker? {
          assert step.i != x && step.i != y && GivenUp(s.procs[step.i], v);
        }
        NewGivenUp(s, step, t.procs[i], v);
      }
    }
  }

  // ---------------------------------------------------------------- both goroutines give up

  /** The vertices that lead to v, and orders that serve them first and then v. */
  ghost predicate RaceCore(g: Graph, start: Vertex, core: set<Vertex>, xs: seq<Vertex>, v: Vertex) {
    && Topological(g.edges, g.vertices, xs) && v !in core
    && Ranked(g, start, core, SortedOrders(g, xs, core, {v}), SortedRank(g, xs))
  }

  /** The scheduler of the split has nothing left to do. */
  ghost predicate SplitEnd(g: Graph, start: Vertex, core: set<Vertex>, xs: seq<Vertex>, s: State,
                           v: Vertex, x: nat, y: nat, v1: seq<Vertex>, v2: seq<Vertex>) {
    var o := SortedOrders(g, xs, core, {v});
    && RaceCore(g, start, core, xs, v) && Good(g, start, s) && Tracks(g, start, s) && Orderly(o, core, s)
    && Split(s, v, x, y, v1, v2) && v1[0] != v2[0] && v1[0] in core && v2[0] in core
    && Edge(v1[0], v) in g.edges && Edge(v2[0], v) in g.edges
    && NoSplitting(g, o, core, x, y, v1[0], v2[0], s)
  }

  ghost predicate WorksAt(s: State, x: nat, v: Vertex) {
    x < |s.procs| && IsWorker(s.procs[x]) && s.procs[x].at == v
  }

  lemma HalfWorks(s: State, v: Vertex, x: nat, order: seq<Vertex>)
    requires Half(s, v, x, order)
    ensures WorksAt(s, x, v)
  {
  }

  lemma SplitBlocked(g: Graph, start: Vertex, core: set<Vertex>, o: Orders, s: State, x: nat, y: nat, a: Vertex, b: Vertex, i: nat)
    requires Good(g, start, s) && OrdersFor(g, core, o) && i < |s.procs|
    requires NoSplitting(g, o, core, x, y, a, b, s)
    ensures Blocked(s, s.procs[i])
  {
    if !Blocked(s, s.procs[i]) {
      var step := UnblockedMoves(g, start, core, o, s, i);
      OwnIsSplitting(o, core, x, y, a, b, s, step, i);
    }
  }

  lemma SplitMeets(g: Graph, start: Vertex, core: set<Vertex>, o: Orders, s: State, x: nat, y: nat, a: Vertex, b: Vertex,
                   i: nat, j: nat)
    requires Good(g, start, s) && Meet(s, i, j)
    requires NoSplitting(g, o, core, x, y, a, b, s)
    ensures j == x || j == y
  {
    MeetDelivers(g, start, s, i, j);
    assert j != x && j != y ==> Splitting(o, core, x, y, a, b, s, Deliver(i, j));
  }

  lemma SplitStill(g: Graph, start: Vertex, core: set<Vertex>, o: Orders, s: State, v: Vertex, x: nat, y: nat, a: Vertex, b: Vertex)
    requires Good(g, start, s) && OrdersFor(g, core, o) && NoSplitting(g, o, core, x, y, a, b, s)
    requires WorksAt(s, x, v) && WorksAt(s, y, v) && v !in core
    ensures Still(s, core)
  {
    forall i | 0 <= i < |s.procs| ensures Blocked(s, s.procs[i]) {
      SplitBlocked(g, start, core, o, s, x, y, a, b, i);
    }
    forall i: nat, j: nat | Meet(s, i, j) ensures s.procs[j].at !in core {
      SplitMeets(g, start, core, o, s, x, y, a, b, i, j);
    }
  }

  lemma OwnIsSplitting(o: Orders, core: set<Vertex>, x: nat, y: nat, a: Vertex, b: Vertex, s: State, step: Step, i: nat)
    requires i < |s.procs| && Follows(o, core, s, step) && OwnStep(s, step, i)
    ensures Splitting(o, core, x, y, a, b, s, step)
  {
  }

  lemma HeadIsNext(g: Graph, xs: seq<Vertex>, core: set<Vertex>, v: Vertex, a: Vertex, todo: seq<Vertex>)
    requires IsSuffix(todo, SortedSends(g, xs, core, {v}, a)) && v in todo
    ensures todo[0] in core || todo[0] == v
  {
    var order := SortedSends(g, xs, core, {v}, a);
    NextSecond(g, xs, core, {v}, a, |order| - |todo|, IndexIn(order, todo, v));
  }

  /** A core vertex that has served the core and not v is about to serve v. */
  lemma NextServed(g: Graph, start: Vertex, core: set<Vertex>, xs: seq<Vertex>, s: State, v: Vertex, a: Vertex, i: nat)
    requires Inv(g, start, s) && AllInOrder(SortedOrders(g, xs, core, {v}), core, s)
    requires a in core && a in g.vertices && Edge(a, v) in g.edges && Edge(a, v) !in s.delivered && ReturnedAt(g, s, i, a)
    requires forall e :: e in g.edges && e.to in core ==> e in s.delivered
    ensures s.procs[i].Send? && s.procs[i].todo != [] && s.procs[i].todo[0] == v
  {
    StillToServe(g, start, s, v, a, i);
    var p := s.procs[i];
    assert InOrder(SortedOrders(g, xs, core, {v}), core, p);
    HeadIsNext(g, xs, core, v, a, p.todo);
    assert Edge(a, p.todo[0]).to == p.todo[0];
  }

  lemma ServedClosed(g: Graph, start: Vertex, s: State, v: Vertex, a: Vertex, i: nat)
    requires Inv(g, start, s) && Edge(a, v) in g.edges && Edge(a, v) in s.delivered && ReturnedAt(g, s, i, a)
    ensures Edge(a, v) in s.closed
  {
    assert Local(g, start, s, i);
    SuccessorsContain(g.edges, a, v);
    assert HasSent(s.procs[i], v);
  }

  lemma OwnDeliveryIsSplitting(o: Orders, core: set<Vertex>, x: nat, y: nat, a: Vertex, b: Vertex, s: State, i: nat, first: bool)
    requires x != y && a != b && i < |s.procs| && s.procs[i].Send? && s.procs[i].at == if first then a else b
    ensures Splitting(o, core, x, y, a, b, s, Deliver(i, if first then x else y))
  {
  }

  /** The first value of each order went to its goroutine. */
  lemma FirstServed(g: Graph, start: Vertex, core: set<Vertex>, xs: seq<Vertex>, s: State,
                    v: Vertex, x: nat, y: nat, v1: seq<Vertex>, v2: seq<Vertex>, first: bool)
    requires SplitEnd(g, start, core, xs, s, v, x, y, v1, v2)
    ensures Edge(if first then v1[0] else v2[0], v) in s.closed
  {
    var o := SortedOrders(g, xs, core, {v});
    var a, z := if first then v1[0] else v2[0], if first then x else y;
    HalfWorks(s, v, x, v1);
    HalfWorks(s, v, y, v2);
    SplitStill(g, start, core, o, s, v, x, y, v1[0], v2[0]);
    StuckCoreServed(g, start, core, o, SortedRank(g, xs), s);
    var i := ServedReturned(g, start, core, s, a);
    assert Edge(a, v).from in Endpoints(g.edges);
    if Edge(a, v) !in s.delivered {
      NextServed(g, start, core, xs, s, v, a, i);
      MeetDelivers(g, start, s, i, z);
      OwnDeliveryIsSplitting(o, core, x, y, v1[0], v2[0], s, i, first);
    }
    ServedClosed(g, start, s, v, a, i);
  }

  lemma HalfAborts(g: Graph, s: State, v: Vertex, x: nat, order: seq<Vertex>)
    requires Half(s, v, x, order) && Edge(order[0], v) in s.delivered && Edge(order[1], v) in s.closed
    requires !s.panicked && !Enabled(g, s, ReceiveClosed(x))
    ensures s.procs[x] == Aborted(v)
  {
  }

  lemma StartedRuns(g: Graph, s: State, v: Vertex) returns (i: nat)
    requires Traced(g, s) && v in StartedIn(s.trace)
    ensures i < |s.procs| && HasStarted(s.procs[i]) && s.procs[i].at == v
  {
    assert StartedBySome(s, v);
    i :| 0 <= i < |s.procs| && HasStarted(s.procs[i]) && s.procs[i].at == v;
  }

  lemma AbortedLost(g: Graph, s: State, v: Vertex, x: nat, y: nat, v1: seq<Vertex>, v2: seq<Vertex>)
    requires Split(s, v, x, y, v1, v2) && s.procs[x] == Aborted(v) && s.procs[y] == Aborted(v) && Traced(g, s)
    ensures Lost(s, v)
  {
    AllGivenUp(s, v, x, y, v1, v2);
    GivenUpNotStarted(g, s, v);
  }

  lemma GivenUpNotStarted(g: Graph, s: State, v: Vertex)
    requires Traced(g, s) && forall i :: 0 <= i < |s.procs| ==> GivenUp(s.procs[i], v)
    ensures v !in StartedIn(s.trace)
  {
    if v in StartedIn(s.trace) {
      var i := StartedRuns(g, s, v);
    }
  }

  lemma AllGivenUp(s: State, v: Vertex, x: nat, y: nat, v1: seq<Vertex>, v2: seq<Vertex>)
    requires Split(s, v, x, y, v1, v2) && s.procs[x] == Aborted(v) && s.procs[y] == Aborted(v)
    ensures forall i :: 0 <= i < |s.procs| ==> GivenUp(s.procs[i], v)
  {
  }

  lemma NoReceiving(g: Graph, o: Orders, core: set<Vertex>, x: nat, y: nat, a: Vertex, b: Vertex, s: State, z: nat)
    requires NoSplitting(g, o, core, x, y, a, b, s)
    ensures !Enabled(g, s, ReceiveClosed(z))
  {
    assert Splitting(o, core, x, y, a, b, s, ReceiveClosed(z));
  }

  lemma ClosedServed(g: Graph, start: Vertex, s: State, e: Edge)
    requires Inv(g, start, s) && e in s.closed
    ensures e in s.delivered
  {
  }

  /** Each goroutine lacks what the other one got, and v is lost. */
  lemma SplitLost(g: Graph, start: Vertex, core: set<Vertex>, xs: seq<Vertex>, s: State,
                  v: Vertex, x: nat, y: nat, v1: seq<Vertex>, v2: seq<Vertex>)
    requires SplitEnd(g, start, core, xs, s, v, x, y, v1, v2)
    ensures Lost(s, v)
  {
    var o := SortedOrders(g, xs, core, {v});
    FirstServed(g, start, core, xs, s, v, x, y, v1, v2, true);
    FirstServed(g, start, core, xs, s, v, x, y, v1, v2, false);
    ClosedServed(g, start, s, Edge(v1[0], v));
    ClosedServed(g, start, s, Edge(v2[0], v));
    NoReceiving(g, o, core, x, y, v1[0], v2[0], s, x);
    NoReceiving(g, o, core, x, y, v1[0], v2[0], s, y);
    HalfAborts(g, s, v, x, v1);
    HalfAborts(g, s, v, y, v2);
    AbortedLost(g, s, v, x, y, v1, v2);
  }
}
