/** The order in which the channels around a vertex are served. */
module ExecutorDeliveries {
  import opened Graphs
  import opened Executor
  import opened ExecutorSteps
  import opened ExecutorSafety
  import opened ExecutorTrace
  import opened ExecutorProgress

  // ---------------------------------------------------------------- deliveries in order

  /** What a delivery knows of the past: earlier dependencies and dependents were served, this one was not. */
  lemma DeliverPast(g: Graph, start: Vertex, s: State, i: nat, j: nat)
    requires Runnable(g, start) && Inv(g, start, s) && Enabled(g, s, Deliver(i, j))
    ensures var u, v := s.procs[i].at, s.procs[j].at;
      && Edge(u, v) in g.edges && Edge(u, v) !in s.delivered && u in g.vertices && v in g.vertices
      && (forall e :: e in g.edges && e.to == u ==> e in s.delivered)
      && (forall f :: f in s.delivered ==> f.from != v)
  {
    var p, q := s.procs[i], s.procs[j];
    var u, v := p.at, q.at;
    assert Local(g, start, s, i) && Local(g, start, s, j);
    assert v in p.todo;
    SuccessorsContain(g.edges, u, v);
    AcyclicEdgeProper(g.edges, u, v);
    assert !HasSent(p, v);
    NotYetSent(g, start, s, Edge(u, v));
    forall e | e in g.edges && e.to == u ensures e in s.delivered {
      PredecessorsContain(g.edges, e.from, u);
      assert Got(s, i, e.from, u) && e == Edge(e.from, u);
    }
  }

  /** What precedes the head of a suffix is not in it. */
  lemma PastIndex(ys: seq<Vertex>, xs: seq<Vertex>, a: nat, b: nat)
    requires IsSuffix(xs, ys) && Distinct(ys) && xs != [] && a < b < |ys| && ys[b] == xs[0]
    ensures ys[a] !in xs
  {
    assert ys[|ys| - |xs|] == xs[0];
  }

  /** The receiver has received everything that comes earlier in its order. */
  lemma WaitPast(g: Graph, start: Vertex, core: set<Vertex>, o: Orders, s: State, j: nat, a: nat, b: nat)
    requires OrdersFor(g, core, o) && Inv(g, start, s) && AllInOrder(o, core, s)
    requires j < |s.procs| && s.procs[j].Wait? && s.procs[j].todo != [] && s.procs[j].at in core
    requires a < b < |o.wait[s.procs[j].at]| && o.wait[s.procs[j].at][b] == s.procs[j].todo[0]
    ensures Got(s, j, o.wait[s.procs[j].at][a], s.procs[j].at)
  {
    var q := s.procs[j];
    assert Local(g, start, s, j) && InOrder(o, core, q);
    PastIndex(o.wait[q.at], q.todo, a, b);
    assert o.wait[q.at][a] in Predecessors(g.edges, q.at);
  }

  /** The sender has served everything that comes earlier in its order. */
  lemma SendPast(g: Graph, start: Vertex, core: set<Vertex>, o: Orders, s: State, i: nat, a: nat, b: nat)
    requires OrdersFor(g, core, o) && Inv(g, start, s) && AllInOrder(o, core, s)
    requires i < |s.procs| && s.procs[i].Send? && s.procs[i].todo != [] && s.procs[i].at in core
    requires a < b < |o.send[s.procs[i].at]| && o.send[s.procs[i].at][b] == s.procs[i].todo[0]
    ensures Edge(s.procs[i].at, o.send[s.procs[i].at][a]) in s.delivered
  {
    var p := s.procs[i];
    assert Local(g, start, s, i) && InOrder(o, core, p);
    PastIndex(o.send[p.at], p.todo, a, b);
    assert o.send[p.at][a] in Successors(g.edges, p.at);
    assert HasSent(p, o.send[p.at][a]);
  }

  ghost function IndexOf(xs: seq<Vertex>, x: Vertex): (k: nat)
    requires x in xs
    ensures k < |xs| && xs[k] == x
  {
    var k :| 0 <= k < |xs| && xs[k] == x;
    k
  }

  lemma EarlierServed(o: Orders, core: set<Vertex>, s: State, v: Vertex, a: nat, b: nat)
    requires ServedInTurn(o, core, s) && v in core && v in o.wait && a < |o.wait[v]| && b < |o.wait[v]|
    requires Edge(o.wait[v][b], v) in s.delivered
    ensures a <= b ==> Edge(o.wait[v][a], v) in s.delivered
  {
  }

  /** Everything delivered to the vertex before went to the same goroutine. */
  lemma DeliverSameReceiver(g: Graph, start: Vertex, core: set<Vertex>, o: Orders, s: State, i: nat, j: nat, f: Edge)
    requires Runnable(g, start) && OrdersFor(g, core, o) && Inv(g, start, s) && Orderly(o, core, s) && Enabled(g, s, Deliver(i, j))
    requires s.procs[j].at in core && f in s.delivered && f.to == s.procs[j].at
    ensures Got(s, j, f.from, f.to)
  {
    var u, v := s.procs[i].at, s.procs[j].at;
    DeliverPast(g, start, s, i, j);
    PredecessorsContain(g.edges, u, v);
    PredecessorsContain(g.edges, f.from, v);
    assert f == Edge(f.from, v);
    var a, b := IndexOf(o.wait[v], u), IndexOf(o.wait[v], f.from);
    EarlierServed(o, core, s, v, a, b);
    WaitPast(g, start, core, o, s, j, b, a);
  }

  lemma DeliverOrderly(g: Graph, start: Vertex, core: set<Vertex>, o: Orders, s: State, step: Step)
    requires Runnable(g, start) && OrdersFor(g, core, o) && Inv(g, start, s) && Orderly(o, core, s)
    requires Enabled(g, s, step) && step.Deliver?
    ensures ServedInTurn(o, core, Apply(g, s, step)) && OneReceiver(core, Apply(g, s, step))
  {
    var t := Apply(g, s, step);
    var added := Edge(s.procs[step.i].at, s.procs[step.j].at);
    DeliverPast(g, start, s, step.i, step.j);
    forall v, a, b | v in core && v in o.wait && 0 <= a < b < |o.wait[v]| && Edge(o.wait[v][b], v) in t.delivered
      ensures Edge(o.wait[v][a], v) in t.delivered
    {
      if Edge(o.wait[v][b], v) == added {
        WaitPast(g, start, core, o, s, step.j, a, b);
      }
    }
    forall e, f | e in t.delivered && f in t.delivered && e.to == f.to && e.to in core ensures SameReceiver(t, e, f) {
      if e == added && f != added {
        DeliverSameReceiver(g, start, core, o, s, step.i, step.j, f);
      } else if f == added && e != added {
        DeliverSameReceiver(g, start, core, o, s, step.i, step.j, e);
      } else if e != added {
        assert SameReceiver(s, e, f);
      }
    }
  }

  lemma StepOrderly(g: Graph, start: Vertex, core: set<Vertex>, o: Orders, s: State, step: Step)
    requires Runnable(g, start) && OrdersFor(g, core, o) && Inv(g, start, s) && Orderly(o, core, s)
    requires Enabled(g, s, step) && Follows(o, core, s, step)
    ensures Orderly(o, core, Apply(g, s, step))
  {
    StepInOrder(g, o, core, s, step);
    if step.Deliver? {
      DeliverOrderly(g, start, core, o, s, step);
    } else {
      StepFields(g, s, step);
      OrderlyStays(o, core, s, Apply(g, s, step));
    }
  }

  lemma OrderlyStays(o: Orders, core: set<Vertex>, s: State, t: State)
    requires ServedInTurn(o, core, s) && OneReceiver(core, s) && t.delivered == s.delivered
    ensures ServedInTurn(o, core, t) && OneReceiver(core, t)
  {
    forall e, f | e in t.delivered && f in t.delivered && e.to == f.to && e.to in core ensures SameReceiver(t, e, f) {
      assert SameReceiver(s, e, f);
    }
  }

  lemma {:induction false} RunOrderly(g: Graph, start: Vertex, core: set<Vertex>, o: Orders, ss: seq<State>, steps: seq<Step>, k: nat)
    requires Runnable(g, start) && OrdersFor(g, core, o) && IsRunIn(g, start, core, o, ss, steps) && k < |ss|
    ensures Orderly(o, core, ss[k])
  {
    if k > 0 {
      RunOrderly(g, start, core, o, ss, steps, k - 1);
      RunGood(g, start, ss, steps, k - 1);
      assert ss[k - 1 + 1] == Apply(g, ss[k - 1], steps[k - 1]);
      StepOrderly(g, start, core, o, ss[k - 1], steps[k - 1]);
    }
  }
}
