/** What one pass of the transitive reduction does to the edge set, given the depths its first walk recorded. */
module Reduction {
  import opened Graphs
  import opened Walks

  lemma DepthBounds(es: set<Edge>, v: Vertex, depth: DepthMap, x: Vertex)
    requires Acyclic(es) && IsDepthMap(es, v, depth)
    ensures DepthOf(depth, x) > 0 <==> Reaches(es, v, x)
    ensures DepthOf(depth, x) == 1 <==> x == v
  {
    DescendantsContain(es, v, x);
    ReachesSelf(es, v);
    DescendantsContain(es, v, v);
    if x in depth {
      var p :| IsPathBetween(es, v, x, p) && depth[x] == |p|;
      if |p| > 1 {
        AcyclicPathOpen(es, p);
      }
    }
  }

  // ---------------------------------------------------------------- the deleting walk

  /** No edge into the same vertex starts deeper. */
  ghost predicate FromDeepest(es: set<Edge>, depth: DepthMap, e: Edge) {
    forall f :: f in es && f.to == e.to ==> DepthOf(depth, f.from) <= DepthOf(depth, e.from)
  }

  /** Closed form of a pass: an edge stays when its origin was not walked or is a deepest origin. */
  ghost predicate Keeps(es: set<Edge>, depth: DepthMap, e: Edge) {
    DepthOf(depth, e.from) == 0 || FromDeepest(es, depth, e)
  }

  ghost function Kept(es: set<Edge>, depth: DepthMap): set<Edge> {
    set e | e in es && Keeps(es, depth, e)
  }

  lemma KeptIsSubset(es: set<Edge>, depth: DepthMap)
    ensures Kept(es, depth) <= es
  {
  }

  /** A non-empty set of edges has one whose origin is deepest. */
  lemma {:induction false} DeepestExists(es: set<Edge>, depth: DepthMap) returns (e: Edge)
    requires es != {}
    ensures e in es && forall f :: f in es ==> DepthOf(depth, f.from) <= DepthOf(depth, e.from)
    decreases |es|
  {
    e :| e in es;
    if es != {e} {
      var f := DeepestExists(es - {e}, depth);
      if DepthOf(depth, f.from) > DepthOf(depth, e.from) {
        e := f;
      }
    }
  }

  /** Every vertex with an edge into it keeps one from a deepest origin. */
  lemma PassKeepsAnOrigin(es: set<Edge>, depth: DepthMap, w: Vertex) returns (e: Edge)
    requires Predecessors(es, w) != {}
    ensures e in Kept(es, depth) && e.to == w && FromDeepest(es, depth, e)
  {
    var u :| u in Predecessors(es, w);
    PredecessorsContain(es, u, w);
    var into := set f | f in es && f.to == w;
    assert Edge(u, w) in into;
    e := DeepestExists(into, depth);
    assert forall f :: f in es && f.to == w ==> f in into;
  }

  /** Everything reachable from v when the pass from v starts stays reachable from v along kept edges:
      go back from w through deepest kept origins. */
  lemma {:induction false} PassKeepsDescendants(es: set<Edge>, v: Vertex, depth: DepthMap, w: Vertex)
    requires Acyclic(es) && IsDepthMap(es, v, depth)
    requires Reaches(es, v, w)
    ensures Reaches(Kept(es, depth), v, w)
    decreases |Descendants(es, v)| - |Descendants(es, w)|
  {
    if v == w {
      ReachesSelf(Kept(es, depth), v);
    } else {
      var x := ReachesLast(es, v, w);
      PredecessorsContain(es, x, w);
      var e := PassKeepsAnOrigin(es, depth, w);
      assert Edge(x, w) in es;
      DepthBounds(es, v, depth, x);
      DepthBounds(es, v, depth, e.from);
      AcyclicEdgeProper(es, e.from, e.to);
      DescendantsShrink(es, e.from, w);
      if v != e.from {
        DescendantsShrink(es, v, e.from);
      }
      PassKeepsDescendants(es, v, depth, e.from);
      ReachesEdge(Kept(es, depth), e.from, w);
      ReachesTransitive(Kept(es, depth), v, e.from, w);
    }
  }

  /** A second edge into e.to from something e.from reaches is a detour around e. */
  lemma DetourMakesRedundant(es: set<Edge>, e: Edge, f: Edge)
    requires Acyclic(es) && e in es && f in es && f.to == e.to && f.from != e.from
    requires Reaches(es, e.from, f.from)
    ensures Redundant(es, e)
  {
    var x := ReachesFirst(es, e.from, f.from);
    assert !Reaches(es, f.to, f.from);
    ReachesEdge(es, f.from, f.to);
    ReachesTransitive(es, x, f.from, f.to);
    assert x != e.to;
  }

  /** The pass from v leaves no edge out of v that a longer path shadows. */
  lemma PassRemovesShadowedEdges(es: set<Edge>, v: Vertex, depth: DepthMap, e: Edge)
    requires Acyclic(es) && IsDepthMap(es, v, depth)
    requires e in es && e.from == v
    ensures e in Kept(es, depth) <==> !Redundant(es, e)
  {
    DepthBounds(es, v, depth, v);
    if Redundant(es, e) {
      var x :| Edge(v, x) in es && x != e.to && Reaches(es, x, e.to);
      var y := ReachesLast(es, x, e.to);
      ReachesEdge(es, v, x);
      ReachesTransitive(es, v, x, y);
      AcyclicEdgeProper(es, v, x);
      DepthBounds(es, v, depth, y);
      assert Edge(y, e.to) in es && y != v && DepthOf(depth, y) > 1;
    } else {
      forall f | f in es && f.to == e.to ensures DepthOf(depth, f.from) <= 1 {
        DepthBounds(es, v, depth, f.from);
        if Reaches(es, v, f.from) && f.from != v {
          DetourMakesRedundant(es, e, f);
        }
      }
    }
  }

  // ---------------------------------------------------------------- a sequence of passes

  /** The edges left after passes that recorded the given depths. */
  ghost function AfterPasses(es: set<Edge>, depths: seq<DepthMap>): (r: set<Edge>)
    ensures r <= es
  {
    if depths == [] then es
    else
      var n := |depths| - 1;
      Kept(AfterPasses(es, depths[..n]), depths[n])
  }

  /** Pass i starts from order[i], on the edges the passes before it left, and records depths[i]. */
  ghost predicate Passes(es: set<Edge>, order: seq<Vertex>, depths: seq<DepthMap>) {
    && |order| == |depths|
    && forall i :: 0 <= i < |order| ==> IsWalked(AfterPasses(es, depths[..i]), order[i], depths[i])
  }

  lemma PassesPrefix(es: set<Edge>, order: seq<Vertex>, depths: seq<DepthMap>)
    requires Passes(es, order, depths) && order != []
    ensures Passes(es, order[..|order| - 1], depths[..|order| - 1])
  {
    var n := |order| - 1;
    forall i | 0 <= i < n ensures IsWalked(AfterPasses(es, depths[..n][..i]), order[..n][i], depths[..n][i]) {
      assert depths[..n][..i] == depths[..i];
    }
  }

  lemma PassesExtend(es: set<Edge>, order: seq<Vertex>, depths: seq<DepthMap>, v: Vertex, depth: DepthMap)
    requires Passes(es, order, depths) && IsWalked(AfterPasses(es, depths), v, depth)
    ensures Passes(es, order + [v], depths + [depth])
    ensures AfterPasses(es, depths + [depth]) == Kept(AfterPasses(es, depths), depth)
  {
    var order', depths' := order + [v], depths + [depth];
    assert depths'[..|depths|] == depths;
    forall i | 0 <= i < |order'| ensures IsWalked(AfterPasses(es, depths'[..i]), order'[i], depths'[i]) {
      assert depths'[..i] == depths[..i];
      if i == |order| {
        assert depths[..i] == depths;
      }
    }
  }

  lemma LastPassWalked(es: set<Edge>, order: seq<Vertex>, depths: seq<DepthMap>)
    requires Passes(es, order, depths) && order != []
    ensures var n := |order| - 1; IsWalked(AfterPasses(es, depths[..n]), order[n], depths[n])
    ensures var n := |order| - 1; IsDepthMap(AfterPasses(es, depths[..n]), order[n], depths[n])
  {
    var n := |order| - 1;
    WalkRecordsDepths(AfterPasses(es, depths[..n]), order[n], depths[n]);
  }

  /** After its pass a vertex has no redundant edge out of it any more, and no pass orphans a vertex. */
  lemma {:induction false} PassesResult(es: set<Edge>, order: seq<Vertex>, depths: seq<DepthMap>)
    requires Acyclic(es) && Passes(es, order, depths)
    ensures forall e :: e in AfterPasses(es, depths) && e.from in order ==> !Redundant(AfterPasses(es, depths), e)
    ensures forall w :: Predecessors(es, w) != {} ==> Predecessors(AfterPasses(es, depths), w) != {}
  {
    if order != [] {
      var n := |order| - 1;
      PassesPrefix(es, order, depths);
      PassesResult(es, order[..n], depths[..n]);
      LastPassWalked(es, order, depths);
      var before := AfterPasses(es, depths[..n]);
      AcyclicSubgraph(before, es);
      assert forall u :: u in order ==> u in order[..n] || u == order[n];
      forall e | e in Kept(before, depths[n]) && e.from in order ensures !Redundant(Kept(before, depths[n]), e) {
        if e.from == order[n] {
          PassRemovesShadowedEdges(before, order[n], depths[n], e);
        }
        if Redundant(Kept(before, depths[n]), e) {
          RedundantMonotone(Kept(before, depths[n]), before, e);
        }
      }
      forall w | Predecessors(before, w) != {} ensures Predecessors(Kept(before, depths[n]), w) != {} {
        var e := PassKeepsAnOrigin(before, depths[n], w);
        PredecessorsContain(Kept(before, depths[n]), e.from, w);
        assert e == Edge(e.from, w);
      }
    }
  }

  ghost function NonRedundant(es: set<Edge>): set<Edge> {
    set e | e in es && !Redundant(es, e)
  }

  /** A subgraph without redundant edges keeps the reachability of an acyclic graph exactly when it is the graph's
      transitive reduction: all of its non-redundant edges and nothing else. */
  lemma MinimalKeepsReachIffReduction(es: set<Edge>, kept: set<Edge>)
    requires Acyclic(es) && kept <= es
    requires forall e :: e in kept ==> !Redundant(kept, e)
    ensures SameReach(es, kept) <==> kept == NonRedundant(es)
  {
    SameReachIffOnlyRedundantDeleted(es, kept);
    AcyclicSubgraph(kept, es);
    if SameReach(es, kept) {
      forall e | e in kept ensures !Redundant(es, e) {
        if Redundant(es, e) {
          SameReachRedundant(es, kept, e);
        }
      }
    }
  }

  lemma SameReachRedundant(es: set<Edge>, kept: set<Edge>, e: Edge)
    requires Acyclic(es) && Acyclic(kept) && SameReach(es, kept) && e in kept && Redundant(es, e) && kept <= es
    ensures Redundant(kept, e)
  {
    var x :| Edge(e.from, x) in es && x != e.to && Reaches(es, x, e.to);
    ReachesEdge(es, e.from, x);
    AcyclicEdgeProper(es, e.from, x);
    var y := ReachesFirst(kept, e.from, x);
    ReachesTransitive(kept, y, x, e.to);
    if y == e.to {
      AcyclicAntisymmetric(kept, x, e.to);
    }
  }

  // ---------------------------------------------------------------- graphs that the reduction handles

  /** A fork after which a needed edge e starts less deep than another edge f into the same vertex. */
  ghost predicate OutOfLevel(es: set<Edge>, y: Vertex, e: Edge, f: Edge, p: seq<Vertex>, q: seq<Vertex>) {
    e in NonRedundant(es) && f in es && e.to == f.to && Forks(es, y, e.from, f.from, p, q)
  }

  ghost predicate LevelAt(es: set<Edge>, y: Vertex) {
    forall e, f, p, q :: !OutOfLevel(es, y, e, f, p, q)
  }

  ghost predicate LevelFrom(es: set<Edge>, v: Vertex) {
    forall y :: Reaches(es, v, y) ==> LevelAt(es, y)
  }

  ghost predicate Levelled(es: set<Edge>) {
    forall y :: LevelAt(es, y)
  }

  lemma ReachesIn(es: set<Edge>, now: set<Edge>, u: Vertex, w: Vertex)
    requires SameReach(es, now)
    ensures Reaches(es, u, w) <==> Reaches(now, u, w)
  {
  }

  /** With only redundant edges deleted so far, a fork of what is left is a fork of the original. */
  lemma ForkBefore(es: set<Edge>, now: set<Edge>, y: Vertex, a: Vertex, b: Vertex, p: seq<Vertex>, q: seq<Vertex>)
    requires SameReach(es, now) && now <= es && Forks(now, y, a, b, p, q)
    ensures Forks(es, y, a, b, p, q)
  {
    ReachesIn(es, now, p[1], b);
    ReachesIn(es, now, q[1], a);
  }

  /** A needed edge does not start where another edge into its target can be reached. */
  lemma NeededApart(es: set<Edge>, e: Edge, f: Edge)
    requires Acyclic(es) && e in NonRedundant(es) && f in es && f != e && f.to == e.to
    ensures !Reaches(es, e.from, f.from)
  {
    assert f == Edge(f.from, f.to) && e == Edge(e.from, e.to);
    if Reaches(es, e.from, f.from) {
      DetourMakesRedundant(es, e, f);
    }
  }

  /** A walk that would make the pass drop a needed edge shows a fork. */
  lemma DroppedForks(es: set<Edge>, now: set<Edge>, v: Vertex, depth: DepthMap, e: Edge)
    returns (y: Vertex, f: Edge, p: seq<Vertex>, q: seq<Vertex>)
    requires Acyclic(es) && now <= es && SameReach(es, now) && IsWalked(now, v, depth)
    requires e in NonRedundant(es) && e in now && !Keeps(now, depth, e)
    ensures Reaches(es, v, y) && OutOfLevel(es, y, e, f, p, q)
  {
    f :| f in now && f.to == e.to && DepthOf(depth, f.from) > DepthOf(depth, e.from);
    var t :| IsWalk(now, t) && t.at == v && depth == Record(map[], 1, t);
    RecordIsLast(map[], 1, t, e.from);
    RecordIsLast(map[], 1, t, f.from);
    NeededApart(es, e, f);
    AcyclicSubgraph(now, es);
    ReachesIn(es, now, e.from, f.from);
    y, p, q := ForkOf(now, t, e.from, f.from);
    ReachesIn(es, now, v, y);
    ForkBefore(es, now, y, e.from, f.from, p, q);
  }

  /** A fork reachable from v gives a walk from v with which the pass drops the needed edge. */
  lemma ForkDrops(es: set<Edge>, v: Vertex, y: Vertex, e: Edge, f: Edge, p: seq<Vertex>, q: seq<Vertex>) returns (depth: DepthMap)
    requires Acyclic(es) && Reaches(es, v, y) && OutOfLevel(es, y, e, f, p, q)
    ensures IsWalked(es, v, depth) && !Keeps(es, depth, e)
  {
    var pre :| IsPathBetween(es, v, y, pre);
    var t := ForkedWalkAfter(es, pre, y, e.from, f.from, p, q);
    depth := Record(map[], 1, t);
    RecordIsLast(map[], 1, t, e.from);
    RecordIsLast(map[], 1, t, f.from);
  }

  /** Without a needed edge the connection is lost. */
  lemma NeededLost(es: set<Edge>, kept: set<Edge>, e: Edge)
    requires Acyclic(es) && kept <= es && e in NonRedundant(es) && e !in kept
    ensures Reaches(es, e.from, e.to) && !Reaches(kept, e.from, e.to)
  {
    AcyclicEdgeProper(es, e.from, e.to);
    if Reaches(kept, e.from, e.to) {
      var x := ReachesFirst(kept, e.from, e.to);
      ReachesMonotone(kept, es, x, e.to);
    }
  }

  /** Exactly when the pass from v is harmless whatever the order of its walk: no fork that v reaches is out of level. */
  lemma PassSafeIffLevel(es: set<Edge>, v: Vertex)
    requires Acyclic(es)
    ensures (forall depth :: IsWalked(es, v, depth) ==> SameReach(es, Kept(es, depth))) <==> LevelFrom(es, v)
  {
    if LevelFrom(es, v) {
      forall depth | IsWalked(es, v, depth) ensures SameReach(es, Kept(es, depth)) {
        LevelPassKeeps(es, es, v, depth);
        SameReachIffOnlyRedundantDeleted(es, Kept(es, depth));
      }
    } else {
      var y, e, f, p, q :| Reaches(es, v, y) && OutOfLevel(es, y, e, f, p, q);
      var depth := ForkDrops(es, v, y, e, f, p, q);
      NeededLost(es, Kept(es, depth), e);
    }
  }

  /** The pass from v over a level graph, from which only redundant edges are gone, keeps the needed edges. */
  lemma LevelPassKeeps(es: set<Edge>, now: set<Edge>, v: Vertex, depth: DepthMap)
    requires Acyclic(es) && LevelFrom(es, v) && NonRedundant(es) <= now <= es && IsWalked(now, v, depth)
    ensures NonRedundant(es) <= Kept(now, depth)
  {
    SameReachIffOnlyRedundantDeleted(es, now);
    forall e | e in NonRedundant(es) ensures Keeps(now, depth, e) {
      if !Keeps(now, depth, e) {
        var y, f, p, q := DroppedForks(es, now, v, depth, e);
      }
    }
  }

  lemma {:induction false} LevelPassesKeep(es: set<Edge>, order: seq<Vertex>, depths: seq<DepthMap>)
    requires Acyclic(es) && Levelled(es) && Passes(es, order, depths)
    ensures NonRedundant(es) <= AfterPasses(es, depths)
  {
    if order != [] {
      var n := |order| - 1;
      PassesPrefix(es, order, depths);
      LastPassWalked(es, order, depths);
      LevelPassesKeep(es, order[..n], depths[..n]);
      LevelPassKeeps(es, AfterPasses(es, depths[..n]), order[n], depths[n]);
    }
  }

  /** Whatever the iteration orders, the reduction of a levelled graph is its transitive reduction and loses nothing. */
  lemma LevelledReductionExact(es: set<Edge>, order: seq<Vertex>, depths: seq<DepthMap>)
    requires Acyclic(es) && Levelled(es) && Passes(es, order, depths) && forall e :: e in es ==> e.from in order
    ensures AfterPasses(es, depths) == NonRedundant(es) && SameReach(es, AfterPasses(es, depths))
  {
    LevelPassesKeep(es, order, depths);
    PassesResult(es, order, depths);
    SameReachIffOnlyRedundantDeleted(es, AfterPasses(es, depths));
    MinimalKeepsReachIffReduction(es, AfterPasses(es, depths));
  }

  /** Passes can always go on, each over what the ones before it left. */
  lemma {:induction false} MorePasses(es: set<Edge>, order: seq<Vertex>, depths: seq<DepthMap>, more: seq<Vertex>)
    returns (all: seq<DepthMap>)
    requires Acyclic(es) && Passes(es, order, depths)
    ensures Passes(es, order + more, all) && AfterPasses(es, all) <= AfterPasses(es, depths)
    decreases |more|
  {
    if more == [] {
      assert order + more == order;
      all := depths;
    } else {
      var now := AfterPasses(es, depths);
      AcyclicSubgraph(now, es);
      var t := SomeWalk(now, more[0]);
      var depth := Record(map[], 1, t);
      PassesExtend(es, order, depths, more[0], depth);
      all := MorePasses(es, order + [more[0]], depths + [depth], more[1..]);
      assert order + [more[0]] + more[1..] == order + more;
    }
  }

  /** A graph that is not level loses a needed edge when the pass that meets the fork comes first. */
  lemma UnlevelReduction(es: set<Edge>, vs: set<Vertex>, y: Vertex, e: Edge, f: Edge, p: seq<Vertex>, q: seq<Vertex>)
    returns (order: seq<Vertex>, depths: seq<DepthMap>)
    requires Acyclic(es) && Endpoints(es) <= vs && OutOfLevel(es, y, e, f, p, q)
    ensures Passes(es, order, depths) && Lists(order, vs) && e !in AfterPasses(es, depths)
  {
    ForkParts(es, y, e.from, f.from, p, q);
    assert Edge(y, p[1]).from in Endpoints(es);
    ReachesSelf(es, y);
    var depth := ForkDrops(es, y, y, e, f, p, q);
    PassesExtend(es, [], [], y, depth);
    assert [] + [y] == [y] && [] + [depth] == [depth];
    var rest := Listing(vs - {y});
    depths := MorePasses(es, [y], [depth], rest);
    order := [y] + rest;
  }

  /** Every reduction of the graph, whatever the order of its passes and walks, keeps all connections. */
  ghost predicate AlwaysSafe(es: set<Edge>, vs: set<Vertex>) {
    forall order, depths :: Passes(es, order, depths) && Lists(order, vs) ==> SameReach(es, AfterPasses(es, depths))
  }

  /** Exactly the levelled graphs are safe to reduce. */
  lemma ReductionSafeIffLevelled(es: set<Edge>, vs: set<Vertex>)
    requires Acyclic(es) && Endpoints(es) <= vs
    ensures AlwaysSafe(es, vs) <==> Levelled(es)
  {
    if Levelled(es) {
      forall order, depths | Passes(es, order, depths) && Lists(order, vs) ensures SameReach(es, AfterPasses(es, depths)) {
        forall e | e in es ensures e.from in order {
          assert e.from in Endpoints(es);
        }
        LevelledReductionExact(es, order, depths);
      }
    } else {
      var y, e, f, p, q :| OutOfLevel(es, y, e, f, p, q);
      var order, depths := UnlevelReduction(es, vs, y, e, f, p, q);
      NeededLost(es, AfterPasses(es, depths), e);
    }
  }

  // ---------------------------------------------------------------- a dependency the reduction loses

  const LOSSY: set<Edge> := {
    Edge("root", "b"), Edge("root", "c"), Edge("c", "e"), Edge("b", "d"), Edge("e", "d")}

  lemma LossyAcyclic()
    ensures Acyclic(LOSSY)
  {
    NumberedAcyclic(LOSSY, map["root" := 0, "b" := 1, "c" := 1, "e" := 2, "d" := 3]);
  }

  /** Whatever the iteration orders, reducing this graph deletes the edge from b to d, the only connection from b to d:
      the pass from the root finds b at depth 2 and e at depth 3, the lengths of the only paths to them. */
  lemma ReductionLosesADependency(order: seq<Vertex>, depths: seq<DepthMap>)
    requires Passes(LOSSY, order, depths) && "root" in order
    ensures Reaches(LOSSY, "b", "d") && !Redundant(LOSSY, Edge("b", "d"))
    ensures !Reaches(AfterPasses(LOSSY, depths), "b", "d")
  {
    LossyPasses(order, depths);
    ReachesEdge(LOSSY, "b", "d");
    OnlyEdgeFromB();
    OnlyConnection(LOSSY, AfterPasses(LOSSY, depths), Edge("b", "d"));
  }

  lemma OnlyEdgeFromB()
    ensures forall x :: Edge("b", x) in LOSSY ==> x == "d"
  {
  }

  /** The only edge out of its origin is not redundant, and without it the origin reaches nothing. */
  lemma OnlyConnection(es: set<Edge>, kept: set<Edge>, e: Edge)
    requires forall x :: Edge(e.from, x) in es ==> x == e.to
    requires kept <= es && e !in kept && e.from != e.to
    ensures !Redundant(es, e) && !Reaches(kept, e.from, e.to)
  {
    if Reaches(kept, e.from, e.to) {
      var x := ReachesFirst(kept, e.from, e.to);
    }
  }

  ghost predicate CutAtMost(es: set<Edge>) {
    LOSSY - {Edge("b", "d")} <= es <= LOSSY
  }

  /** No pass deletes another edge, and the pass from the root deletes that one. */
  lemma {:induction false} LossyPasses(order: seq<Vertex>, depths: seq<DepthMap>)
    requires Passes(LOSSY, order, depths)
    ensures CutAtMost(AfterPasses(LOSSY, depths))
    ensures "root" in order ==> Edge("b", "d") !in AfterPasses(LOSSY, depths)
  {
    if order != [] {
      var n := |order| - 1;
      PassesPrefix(LOSSY, order, depths);
      LossyPasses(order[..n], depths[..n]);
      LastPassWalked(LOSSY, order, depths);
      var es := AfterPasses(LOSSY, depths[..n]);
      LossyPass(es, order[n], depths[n]);
      KeptIsSubset(es, depths[n]);
      assert AfterPasses(LOSSY, depths) == Kept(es, depths[n]);
      if "root" in order && order[n] != "root" {
        assert "root" in order[..n];
      }
    }
  }

  /** Only d has more than one edge into it. */
  lemma LossyKeeps(es: set<Edge>, depth: DepthMap, e: Edge)
    requires e in LOSSY - {Edge("b", "d")} && e in es && es <= LOSSY
    requires DepthOf(depth, "e") == 0 || DepthOf(depth, "b") <= DepthOf(depth, "e")
    ensures Keeps(es, depth, e)
  {
  }

  lemma LossyPass(es: set<Edge>, v: Vertex, depth: DepthMap)
    requires CutAtMost(es) && IsDepthMap(es, v, depth)
    ensures CutAtMost(Kept(es, depth))
    ensures v == "root" ==> Edge("b", "d") !in Kept(es, depth)
  {
    LossyDepths(es, v, depth);
    assert Edge("e", "d") in es && Edge("e", "d").to == Edge("b", "d").to;
    forall e | e in LOSSY - {Edge("b", "d")} ensures Keeps(es, depth, e) {
      LossyKeeps(es, depth, e);
    }
  }

  lemma LossyDepths(es: set<Edge>, v: Vertex, depth: DepthMap)
    requires CutAtMost(es) && IsDepthMap(es, v, depth)
    ensures v == "root" ==> DepthOf(depth, "b") == 2 && DepthOf(depth, "e") == 3
    ensures v != "root" ==> DepthOf(depth, "b") == 0 || DepthOf(depth, "e") == 0
  {
    if v == "root" {
      ReachesEdge(es, "root", "b");
      ReachesEdge(es, "root", "c");
      ReachesEdge(es, "c", "e");
      ReachesTransitive(es, "root", "c", "e");
      DescendantsContain(es, "root", "b");
      DescendantsContain(es, "root", "e");
    }
    if "b" in depth {
      var p :| IsPathBetween(es, v, "b", p) && depth["b"] == |p|;
      PathBackwards(es, p);
    }
    if "e" in depth {
      var q :| IsPathBetween(es, v, "e", q) && depth["e"] == |q|;
      PathBackwards(es, q);
    }
  }

  /** The last edges of a path, as far as it has them. */
  lemma PathBackwards(es: set<Edge>, p: seq<Vertex>)
    requires IsPath(es, p)
    ensures |p| > 1 ==> Edge(p[|p| - 2], p[|p| - 1]) in es
    ensures |p| > 2 ==> Edge(p[|p| - 3], p[|p| - 2]) in es
    ensures |p| > 3 ==> Edge(p[|p| - 4], p[|p| - 3]) in es
  {
  }
}
