/** Runs that a scheduler makes: taking allowed steps as long as there is one, and iteration orders that a core can live with. */
module ExecutorSchedules {
  import opened Graphs
  import opened Executor
  import opened ExecutorTermination
  import opened ExecutorProgress
  import opened ExecutorDeliveries
  import opened ExecutorCompletion

  // ---------------------------------------------------------------- extending runs

  ghost predicate Continues(ss: seq<State>, steps: seq<Step>, ss': seq<State>, steps': seq<Step>) {
    |ss| == |steps| + 1 && ss <= ss' && steps <= steps' && |ss'| == |steps'| + 1
  }

  lemma Extend(g: Graph, start: Vertex, ss: seq<State>, steps: seq<Step>, step: Step) returns (ss': seq<State>, steps': seq<Step>)
    requires IsRun(g, start, ss, steps) && Enabled(g, ss[|steps|], step)
    ensures IsRun(g, start, ss', steps') && Continues(ss, steps, ss', steps')
    ensures steps' == steps + [step] && ss'[|steps'|] == Apply(g, ss[|steps|], step)
  {
    ss', steps' := ss + [Apply(g, ss[|steps|], step)], steps + [step];
  }

  /** The run goes on with allowed steps until none is enabled. */
  lemma {:induction false} RunUnder(g: Graph, start: Vertex, ss: seq<State>, steps: seq<Step>, allowed: (State, Step) -> bool)
    returns (ss': seq<State>, steps': seq<Step>)
    requires Runnable(g, start) && IsRun(g, start, ss, steps)
    ensures IsRun(g, start, ss', steps') && Continues(ss, steps, ss', steps')
    ensures forall k :: |steps| <= k < |steps'| ==> allowed(ss'[k], steps'[k])
    ensures forall step :: allowed(ss'[|steps'|], step) ==> !Enabled(g, ss'[|steps'|], step)
    decreases WalkBound(|g.vertices|, |g.vertices|) + 1 - |steps|
  {
    if step :| allowed(ss[|steps|], step) && Enabled(g, ss[|steps|], step) {
      var ss1, steps1 := Extend(g, start, ss, steps, step);
      RunIsFinite(g, start, ss1, steps1);
      ss', steps' := RunUnder(g, start, ss1, steps1, allowed);
      assert ss'[|steps|] == ss1[|steps|] && steps'[|steps|] == steps1[|steps|];
    } else {
      ss', steps' := ss, steps;
    }
  }

  // ---------------------------------------------------------------- numbering the vertices

  /** xs lists vs with every edge going up. */
  ghost predicate Topological(es: set<Edge>, vs: set<Vertex>, xs: seq<Vertex>) {
    Lists(xs, vs) && forall i, j :: 0 <= i < |xs| && 0 <= j < |xs| && Edge(xs[i], xs[j]) in es ==> i < j
  }

  lemma {:induction false} MostDescendants(es: set<Edge>, vs: set<Vertex>) returns (v: Vertex)
    requires vs != {}
    ensures v in vs && forall u :: u in vs ==> |Descendants(es, u)| <= |Descendants(es, v)|
    decreases |vs|
  {
    v :| v in vs;
    if vs != {v} {
      var u := MostDescendants(es, vs - {v});
      if |Descendants(es, u)| > |Descendants(es, v)| {
        v := u;
      }
    }
  }

  lemma {:induction false} TopologicalExists(es: set<Edge>, vs: set<Vertex>) returns (xs: seq<Vertex>)
    requires Acyclic(es)
    ensures Topological(es, vs, xs)
    decreases |vs|
  {
    xs := [];
    if vs != {} {
      var v := MostDescendants(es, vs);
      var ys := TopologicalExists(es, vs - {v});
      xs := [v] + ys;
      forall i, j | 0 <= i < |xs| && 0 <= j < |xs| && Edge(xs[i], xs[j]) in es ensures i < j {
        AcyclicEdgeProper(es, xs[i], xs[j]);
        DescendantsShrink(es, xs[i], xs[j]);
        if i > 0 {
          assert xs[i] == ys[i - 1] && ys[i - 1] in ys;
          assert j > 0 ==> xs[j] == ys[j - 1];
        }
      }
    }
  }

  /** The members of keep, in the order of xs. */
  function Filter(xs: seq<Vertex>, keep: set<Vertex>): seq<Vertex> {
    if xs == [] then []
    else Filter(xs[..|xs| - 1], keep) + if xs[|xs| - 1] in keep then [xs[|xs| - 1]] else []
  }

  lemma {:induction false} FilterMembers(xs: seq<Vertex>, keep: set<Vertex>, x: Vertex)
    ensures x in Filter(xs, keep) <==> x in xs && x in keep
  {
    if xs != [] {
      var n := |xs| - 1;
      FilterMembers(xs[..n], keep, x);
      assert xs == xs[..n] + [xs[n]];
    }
  }

  /** Filtering keeps the order. */
  lemma {:induction false} FilterRises(xs: seq<Vertex>, keep: set<Vertex>, i: nat, j: nat) returns (a: nat, b: nat)
    requires i < j < |Filter(xs, keep)|
    ensures a < b < |xs| && xs[a] == Filter(xs, keep)[i] && xs[b] == Filter(xs, keep)[j]
  {
    var n := |xs| - 1;
    var front := Filter(xs[..n], keep);
    if j < |front| {
      a, b := FilterRises(xs[..n], keep, i, j);
    } else {
      b := n;
      FilterMembers(xs[..n], keep, front[i]);
      a :| 0 <= a < n && xs[..n][a] == front[i];
    }
  }

  lemma FilterLists(xs: seq<Vertex>, vs: set<Vertex>, keep: set<Vertex>)
    requires Lists(xs, vs) && keep <= vs
    ensures Lists(Filter(xs, keep), keep)
  {
    var f := Filter(xs, keep);
    forall x ensures x in keep <==> x in f {
      FilterMembers(xs, keep, x);
    }
    forall i, j | 0 <= i < j < |f| ensures f[i] != f[j] {
      var a, b := FilterRises(xs, keep, i, j);
    }
  }

  // ---------------------------------------------------------------- orders for a core

  /** Waiting along xs; serving the core first, then the vertices of next, each group along xs. */
  ghost function SortedOrders(g: Graph, xs: seq<Vertex>, core: set<Vertex>, next: set<Vertex>): Orders {
    Orders(map v | v in g.vertices :: Filter(xs, Predecessors(g.edges, v)), map u | u in g.vertices :: SortedSends(g, xs, core, next, u))
  }

  ghost function SortedSends(g: Graph, xs: seq<Vertex>, core: set<Vertex>, next: set<Vertex>, u: Vertex): seq<Vertex> {
    var down := Successors(g.edges, u);
    Filter(xs, down * core) + Filter(xs, (down - core) * next) + Filter(xs, down - core - next)
  }

  ghost function Place(xs: seq<Vertex>, x: Vertex): nat {
    if x in xs then IndexOf(xs, x) else 0
  }

  ghost function RankOf(xs: seq<Vertex>, e: Edge): nat {
    Place(xs, e.from) * |xs| + Place(xs, e.to)
  }

  /** Edges rank by their origin, then by their target. */
  ghost function SortedRank(g: Graph, xs: seq<Vertex>): Ranking {
    map e | e in g.edges :: RankOf(xs, e)
  }

  lemma RankStep(n: nat, a: nat, b: nat, c: nat, d: nat)
    requires a < c && b < n
    ensures a * n + b < c * n + d
  {
    assert (a + 1) * n <= c * n by {
      TimesMonotone(n, a + 1, c);
    }
    assert (a + 1) * n == a * n + n;
  }

  lemma TimesMonotone(n: nat, a: nat, b: nat)
    requires a <= b
    ensures a * n <= b * n
  {
  }

  lemma PlaceAt(xs: seq<Vertex>, a: nat)
    requires a < |xs| && forall i, j :: 0 <= i < j < |xs| ==> xs[i] != xs[j]
    ensures Place(xs, xs[a]) == a
  {
  }

  lemma RankBefore(g: Graph, xs: seq<Vertex>, e: Edge, f: Edge)
    requires Topological(g.edges, g.vertices, xs) && Endpoints(g.edges) <= g.vertices && e in g.edges && f in g.edges
    requires Place(xs, e.from) < Place(xs, f.from) || (e.from == f.from && Place(xs, e.to) < Place(xs, f.to))
    ensures Before(SortedRank(g, xs), e, f)
  {
    if Place(xs, e.from) < Place(xs, f.from) {
      assert e.to in Endpoints(g.edges);
      RankStep(|xs|, Place(xs, e.from), Place(xs, e.to), Place(xs, f.from), Place(xs, f.to));
    }
  }

  /** Every edge goes up. */
  lemma EdgeUp(es: set<Edge>, vs: set<Vertex>, xs: seq<Vertex>, e: Edge)
    requires Topological(es, vs, xs) && Endpoints(es) <= vs && e in es
    ensures Place(xs, e.from) < Place(xs, e.to)
  {
    assert e.from in Endpoints(es) && e.to in Endpoints(es);
    assert e == Edge(xs[Place(xs, e.from)], xs[Place(xs, e.to)]);
  }

  lemma FilterUp(xs: seq<Vertex>, keep: set<Vertex>, i: nat, j: nat)
    requires (forall i, j :: 0 <= i < j < |xs| ==> xs[i] != xs[j]) && i < j < |Filter(xs, keep)|
    ensures Place(xs, Filter(xs, keep)[i]) < Place(xs, Filter(xs, keep)[j])
  {
    var a, b := FilterRises(xs, keep, i, j);
    PlaceAt(xs, a);
    PlaceAt(xs, b);
  }

  lemma SortedSendsLists(g: Graph, xs: seq<Vertex>, core: set<Vertex>, next: set<Vertex>, u: Vertex)
    requires Lists(xs, g.vertices) && Endpoints(g.edges) <= g.vertices
    ensures Lists(SortedSends(g, xs, core, next, u), Successors(g.edges, u))
  {
    var down := Successors(g.edges, u);
    forall w | w in down ensures w in g.vertices {
      SuccessorsContain(g.edges, u, w);
      assert Edge(u, w).to in Endpoints(g.edges);
    }
    FilterLists(xs, g.vertices, down * core);
    FilterLists(xs, g.vertices, (down - core) * next);
    FilterLists(xs, g.vertices, down - core - next);
    ListsJoin(Filter(xs, down * core), down * core, Filter(xs, (down - core) * next), (down - core) * next);
    ListsJoin(Filter(xs, down * core) + Filter(xs, (down - core) * next), down * core + (down - core) * next,
              Filter(xs, down - core - next), down - core - next);
    assert down * core + (down - core) * next + (down - core - next) == down;
  }

  lemma ListsJoin(xs: seq<Vertex>, a: set<Vertex>, ys: seq<Vertex>, b: set<Vertex>)
    requires Lists(xs, a) && Lists(ys, b) && a !! b
    ensures Lists(xs + ys, a + b)
  {
    forall i, j | 0 <= i < j < |xs + ys| ensures (xs + ys)[i] != (xs + ys)[j] {
      if i < |xs| <= j {
        assert xs[i] in a && ys[j - |xs|] in b;
      }
    }
  }

  lemma SortedWaitsLists(g: Graph, xs: seq<Vertex>, v: Vertex)
    requires Lists(xs, g.vertices) && Endpoints(g.edges) <= g.vertices
    ensures Lists(Filter(xs, Predecessors(g.edges, v)), Predecessors(g.edges, v))
  {
    forall u | u in Predecessors(g.edges, v) ensures u in g.vertices {
      PredecessorsContain(g.edges, u, v);
      assert Edge(u, v).from in Endpoints(g.edges);
    }
    FilterLists(xs, g.vertices, Predecessors(g.edges, v));
  }

  /** Where core vertices come in the sends: first, and rising. */
  lemma SendsUp(g: Graph, xs: seq<Vertex>, core: set<Vertex>, next: set<Vertex>, u: Vertex, i: nat, j: nat)
    requires Lists(xs, g.vertices) && i < j < |SortedSends(g, xs, core, next, u)| && SortedSends(g, xs, core, next, u)[j] in core
    ensures var order := SortedSends(g, xs, core, next, u); order[i] in core && Place(xs, order[i]) < Place(xs, order[j])
  {
    var down := Successors(g.edges, u);
    var first, second, third := Filter(xs, down * core), Filter(xs, (down - core) * next), Filter(xs, down - core - next);
    var order := SortedSends(g, xs, core, next, u);
    FilterMembers(xs, (down - core) * next, order[j]);
    FilterMembers(xs, down - core - next, order[j]);
    PartOf(first, second, third, j);
    assert j < |first|;
    FilterMembers(xs, down * core, first[i]);
    FilterUp(xs, down * core, i, j);
  }

  /** What precedes a vertex of next in the sends belongs to the core or to next. */
  lemma NextSecond(g: Graph, xs: seq<Vertex>, core: set<Vertex>, next: set<Vertex>, u: Vertex, i: nat, j: nat)
    requires i <= j < |SortedSends(g, xs, core, next, u)| && SortedSends(g, xs, core, next, u)[j] in next
    ensures SortedSends(g, xs, core, next, u)[i] in core + next
  {
    var down := Successors(g.edges, u);
    var first, second, third := Filter(xs, down * core), Filter(xs, (down - core) * next), Filter(xs, down - core - next);
    var order := SortedSends(g, xs, core, next, u);
    FilterMembers(xs, down - core - next, order[j]);
    PartOf(first, second, third, i);
    PartOf(first, second, third, j);
    FilterMembers(xs, down * core, order[i]);
    FilterMembers(xs, (down - core) * next, order[i]);
  }

  /** Which part of three an element comes from. */
  lemma PartOf(a: seq<Vertex>, b: seq<Vertex>, c: seq<Vertex>, i: nat)
    requires i < |a + b + c|
    ensures i < |a| ==> (a + b + c)[i] == a[i]
    ensures |a| <= i < |a| + |b| ==> (a + b + c)[i] in b
    ensures |a| + |b| <= i ==> (a + b + c)[i] in c
  {
  }

  /** For any core there are iteration orders and a ranking compatible with them. */
  lemma SortedCompatible(g: Graph, start: Vertex, core: set<Vertex>, xs: seq<Vertex>, next: set<Vertex>)
    requires Runnable(g, start) && IsCore(g, core) && Topological(g.edges, g.vertices, xs)
    requires forall v :: v in core ==> Reaches(g.edges, start, v)
    ensures Ranked(g, start, core, SortedOrders(g, xs, core, next), SortedRank(g, xs))
  {
    var o, rank := SortedOrders(g, xs, core, next), SortedRank(g, xs);
    forall v | v in core
      ensures Lists(o.wait[v], Predecessors(g.edges, v)) && Lists(o.send[v], Successors(g.edges, v))
    {
      SortedWaitsLists(g, xs, v);
      SortedSendsLists(g, xs, core, next, v);
    }
    forall v, i, j | v in core && v in o.wait && 0 <= i < j < |o.wait[v]|
      ensures Before(rank, Edge(o.wait[v][i], v), Edge(o.wait[v][j], v))
    {
      WaitBefore(g, xs, v, i, j);
    }
    forall u, i, j | u in core && u in o.send && 0 <= i < j < |o.send[u]| && o.send[u][j] in core
      ensures o.send[u][i] in core && Before(rank, Edge(u, o.send[u][i]), Edge(u, o.send[u][j]))
    {
      SendBefore(g, xs, core, next, u, i, j);
    }
    forall e, f | e in g.edges && f in g.edges && e.to == f.from && f.to in core ensures Before(rank, e, f) {
      EdgeUp(g.edges, g.vertices, xs, e);
      RankBefore(g, xs, e, f);
    }
  }

  lemma WaitBefore(g: Graph, xs: seq<Vertex>, v: Vertex, i: nat, j: nat)
    requires Topological(g.edges, g.vertices, xs) && Endpoints(g.edges) <= g.vertices
    requires i < j < |Filter(xs, Predecessors(g.edges, v))|
    ensures var order := Filter(xs, Predecessors(g.edges, v)); Before(SortedRank(g, xs), Edge(order[i], v), Edge(order[j], v))
  {
    var order := Filter(xs, Predecessors(g.edges, v));
    FilterMembers(xs, Predecessors(g.edges, v), order[i]);
    FilterMembers(xs, Predecessors(g.edges, v), order[j]);
    PredecessorsContain(g.edges, order[i], v);
    PredecessorsContain(g.edges, order[j], v);
    FilterUp(xs, Predecessors(g.edges, v), i, j);
    RankBefore(g, xs, Edge(order[i], v), Edge(order[j], v));
  }

  lemma SendBefore(g: Graph, xs: seq<Vertex>, core: set<Vertex>, next: set<Vertex>, u: Vertex, i: nat, j: nat)
    requires Topological(g.edges, g.vertices, xs) && Endpoints(g.edges) <= g.vertices
    requires i < j < |SortedSends(g, xs, core, next, u)| && SortedSends(g, xs, core, next, u)[j] in core
    ensures var order := SortedSends(g, xs, core, next, u);
            order[i] in core && Before(SortedRank(g, xs), Edge(u, order[i]), Edge(u, order[j]))
  {
    var order := SortedSends(g, xs, core, next, u);
    SortedSendsLists(g, xs, core, next, u);
    assert order[i] in Successors(g.edges, u) && order[j] in Successors(g.edges, u);
    SuccessorsContain(g.edges, u, order[i]);
    SuccessorsContain(g.edges, u, order[j]);
    SendsUp(g, xs, core, next, u, i, j);
    RankBefore(g, xs, Edge(u, order[i]), Edge(u, order[j]));
  }
}
