/** The mutable dependency graph: mirrored edge maps updated in place, and the reduction that
    deletes edges while it walks them. Map iteration orders are arbitrary throughout. */
module Dags {
  import opened Graphs
  import opened Walks
  import opened Reduction

  const ROOT: Vertex := "root"

  class Dag<T> {
    var vertices: map<Vertex, T>
    var downEdges: map<Vertex, set<Vertex>>  // from -> to
    var upEdges: map<Vertex, set<Vertex>>    // to -> from
    var vertexDepth: DepthMap

    /** The edges recorded in downEdges. */
    ghost function Downs(): set<Edge>
      reads this`downEdges
    {
      set u, w | u in downEdges && w in downEdges[u] :: Edge(u, w)
    }

    /** The edges recorded in upEdges. */
    ghost function Ups(): set<Edge>
      reads this`upEdges
    {
      set u, w | w in upEdges && u in upEdges[w] :: Edge(u, w)
    }

    /** The two maps mirror each other. */
    ghost predicate Valid()
      reads this`downEdges, this`upEdges
    {
      Downs() == Ups()
    }

    ghost function Edges(): set<Edge>
      reads this`downEdges
    {
      Downs()
    }

    constructor ()
      ensures Valid() && Edges() == {} && vertices == map[]
    {
      vertices := map[];
      downEdges := map[];
      upEdges := map[];
      vertexDepth := map[];
    }

    /** ok is false, and nothing changes, when the vertex already exists. */
    method AddVertex(s: Vertex, v: T) returns (ok: bool)
      modifies this`vertices
      ensures ok == (s !in old(vertices))
      ensures vertices == if ok then old(vertices)[s := v] else old(vertices)
    {
      if s in vertices {
        return false;
      }
      vertices := vertices[s := v];
      return true;
    }

    method AddDownEdge(from: Vertex, to: Vertex)
      modifies this`downEdges
      ensures Downs() == old(Downs()) + {Edge(from, to)}
    {
      if from !in downEdges {
        downEdges := downEdges[from := {}];
      }
      if to in downEdges[from] {
        assert Edge(from, to) in old(Downs());
        return;
      }
      downEdges := downEdges[from := downEdges[from] + {to}];
    }

    method AddUpEdge(from: Vertex, to: Vertex)
      modifies this`upEdges
      ensures Ups() == old(Ups()) + {Edge(to, from)}
    {
      if from !in upEdges {
        upEdges := upEdges[from := {}];
      }
      if to in upEdges[from] {
        assert Edge(to, from) in old(Ups());
        return;
      }
      upEdges := upEdges[from := upEdges[from] + {to}];
    }

    method DeleteDownEdge(from: Vertex, to: Vertex)
      modifies this`downEdges
      ensures Downs() == old(Downs()) - {Edge(from, to)}
    {
      if from in downEdges {
        if to in downEdges[from] {
          downEdges := downEdges[from := downEdges[from] - {to}];
        }
      }
    }

    method DeleteUpEdge(from: Vertex, to: Vertex)
      modifies this`upEdges
      ensures Ups() == old(Ups()) - {Edge(to, from)}
    {
      if from in upEdges {
        if to in upEdges[from] {
          upEdges := upEdges[from := upEdges[from] - {to}];
        }
      }
    }

    method Connect(from: Vertex, to: Vertex)
      requires Valid()
      modifies this`downEdges, this`upEdges
      ensures Valid() && Edges() == old(Edges()) + {Edge(from, to)}
    {
      AddDownEdge(from, to);
      AddUpEdge(to, from);
    }

    method Disconnect(from: Vertex, to: Vertex)
      requires Valid()
      modifies this`downEdges, this`upEdges
      ensures Valid() && Edges() == old(Edges()) - {Edge(from, to)}
    {
      DeleteDownEdge(from, to);
      DeleteUpEdge(to, from);
    }

    /** The successors of from, each once, in an arbitrary order. */
    method GetDownVertexes(from: Vertex) returns (tos: seq<Vertex>)
      ensures Lists(tos, Successors(Downs(), from))
    {
      tos := [];
      if from in downEdges {
        tos := Enumerate(downEdges[from]);
      }
      forall w ensures w in Successors(Downs(), from) <==> w in tos {
        SuccessorsContain(Downs(), from, w);
      }
    }

    /** The predecessors of from, each once, in an arbitrary order. */
    method GetUpVertexes(from: Vertex) returns (tos: seq<Vertex>)
      ensures Lists(tos, Predecessors(Ups(), from))
    {
      tos := [];
      if from in upEdges {
        tos := Enumerate(upEdges[from]);
      }
      forall w ensures w in Predecessors(Ups(), from) <==> w in tos {
        PredecessorsContain(Ups(), w, from);
      }
    }

    // -------------------------------------------------------------- transitive reduction

    /** Reduces the graph: one pass per vertex, in an arbitrary order. What is left is a mirrored subgraph without
        redundant edges in which every vertex that had an edge into it still has one. */
    method TransitiveReduction() returns (ghost order: seq<Vertex>, ghost depths: seq<DepthMap>)
      requires Valid() && Acyclic(Edges()) && Endpoints(Edges()) <= vertices.Keys
      modifies this`downEdges, this`upEdges, this`vertexDepth
      ensures Valid() && Lists(order, vertices.Keys)
      ensures Passes(old(Edges()), order, depths) && Edges() == AfterPasses(old(Edges()), depths)
      ensures forall e :: e in Edges() ==> !Redundant(Edges(), e)
      ensures forall w :: Predecessors(old(Edges()), w) != {} ==> Predecessors(Edges(), w) != {}
      ensures Levelled(old(Edges())) ==> Edges() == NonRedundant(old(Edges())) && SameReach(old(Edges()), Edges())
    {
      ghost var before := Edges();
      var todo := vertices.Keys;
      order, depths := [], [];
      while todo != {}
        invariant Valid() && todo <= vertices.Keys
        invariant Lists(order, vertices.Keys - todo)
        invariant Passes(before, order, depths) && Edges() == AfterPasses(before, depths)
        decreases |todo|
      {
        var v :| v in todo;
        AcyclicSubgraph(Edges(), before);
        ghost var es := Edges();
        ghost var visited := ReducePass(v);
        PassesExtend(before, order, depths, v, vertexDepth);
        order, depths := order + [v], depths + [vertexDepth];
        todo := todo - {v};
      }
      PassesResult(before, order, depths);
      forall e | e in before ensures e.from in order {
        assert e.from in Endpoints(before);
      }
      if Levelled(before) {
        LevelledReductionExact(before, order, depths);
      }
    }

    /** One pass from v: record depths, then delete. The remaining edges have a closed form in the recorded depths. */
    method ReducePass(v: Vertex) returns (ghost visited: set<Vertex>)
      requires Valid() && Acyclic(Edges())
      modifies this`downEdges, this`upEdges, this`vertexDepth
      ensures Valid() && IsWalked(old(Edges()), v, vertexDepth)
      ensures Edges() == Kept(old(Edges()), vertexDepth)
      ensures visited == Descendants(old(Edges()), v)
    {
      ghost var es := Edges();
      vertexDepth := map[];
      ghost var walk := DepthWalk(v, 1);
      assert IsWalked(es, v, vertexDepth);
      WalkRecordsDepths(es, v, vertexDepth);
      KeptIsSubset(es, vertexDepth);
      ReachesSelf(es, v);
      visited := DeleteWalk(v, es, v);
      forall w ensures w in visited <==> w in Descendants(es, v) {
        DescendantsContain(es, v, w);
        if Reaches(es, v, w) {
          PassKeepsDescendants(es, v, vertexDepth, w);
        }
      }
      forall e | e in es ensures e in Edges() <==> e in Kept(es, vertexDepth) {
        if e !in Kept(es, vertexDepth) {
          DoomedIsWalked(es, v, vertexDepth, e);
          PassKeepsDescendants(es, v, vertexDepth, e.to);
        }
      }
    }

    /** The first walk: every call records its vertex and goes on to each successor once, in an order of its own. */
    method DepthWalk(from: Vertex, depth: nat) returns (ghost walk: Walk)
      requires Valid() && Acyclic(Edges())
      modifies this`vertexDepth
      ensures IsWalk(Edges(), walk) && walk.at == from
      ensures vertexDepth == Record(old(vertexDepth), depth, walk)
      decreases Descendants(Edges(), from)
    {
      ghost var es := Edges();
      vertexDepth := vertexDepth[from := depth];
      ghost var first := vertexDepth;
      ghost var calls: seq<Walk> := [];
      var tos := GetDownVertexes(from);
      for i := 0 to |tos|
        invariant Starts(calls) == tos[..i] && forall j :: 0 <= j < i ==> IsWalk(es, calls[j])
        invariant vertexDepth == RecordEach(first, depth + 1, calls)
      {
        ChildOf(es, from, tos[i]);
        ghost var call := DepthWalk(tos[i], depth + 1);
        assert (calls + [call])[..i] == calls;
        calls := calls + [call];
      }
      assert tos[..|tos|] == tos;
      walk := Walk(from, calls);
    }

    /** The second walk of the pass from v, which started with the edges es. It only ever deletes edges the closed form
        drops, so whatever can be reached along kept edges is visited although edges disappear during the walk. */
    method DeleteWalk(from: Vertex, ghost es: set<Edge>, ghost v: Vertex) returns (ghost visited: set<Vertex>)
      requires Valid() && Acyclic(es) && IsDepthMap(es, v, vertexDepth)
      requires Kept(es, vertexDepth) <= Edges() <= es && Reaches(es, v, from)
      modifies this`downEdges, this`upEdges
      ensures Valid() && Kept(es, vertexDepth) <= Edges() <= old(Edges())
      ensures visited <= Descendants(es, from)
      ensures forall w :: Reaches(Kept(es, vertexDepth), from, w) ==> w in visited
      ensures Cleared(Edges(), visited, Kept(es, vertexDepth))
      decreases Descendants(es, from)
    {
      ghost var kept := Kept(es, vertexDepth);
      ProcessVertex(from, es);
      visited := {from};
      ReachesSelf(es, from);
      DescendantsContain(es, from, from);
      ghost var now := Edges();
      var tos := GetDownVertexes(from);
      for i := 0 to |tos|
        invariant Valid() && kept <= Edges() <= now
        invariant from in visited && visited <= Descendants(es, from)
        invariant Covered(kept, tos, i, visited) && Cleared(Edges(), visited, kept)
      {
        SuccessorsContain(now, from, tos[i]);
        SuccessorsContain(es, from, tos[i]);
        ChildOf(es, from, tos[i]);
        ReachesTransitive(es, v, from, tos[i]);
        ghost var before := Edges();
        ghost var more := DeleteWalk(tos[i], es, v);
        ClearedMore(before, Edges(), visited, more, kept);
        CoveredMore(kept, tos, i, visited, more);
        visited := visited + more;
      }
      KeptVisited(kept, now, from, tos, visited);
    }

    /** Deletes the edges into from whose origins were walked but are not deepest. */
    method ProcessVertex(from: Vertex, ghost es: set<Edge>)
      requires Valid()
      requires Kept(es, vertexDepth) <= Edges() <= es
      modifies this`downEdges, this`upEdges
      ensures Valid()
      ensures Edges() == set e | e in old(Edges()) && (e.to != from || e in Kept(es, vertexDepth))
    {
      ghost var start := Edges();
      var best := GetBestVertexDepth(from);
      BestIsDeepest(es, start, vertexDepth, from, best);
      var ups := GetUpVertexes(from);
      ghost var done: set<Vertex> := {};
      for i := 0 to |ups|
        invariant Valid() && Edges() == Without(start, from, vertexDepth, best, done)
        invariant forall j :: 0 <= j < i ==> ups[j] in done
      {
        WithoutOneMore(start, from, vertexDepth, best, done, ups[i]);
        if best != 0 {
          if DepthOf(vertexDepth, ups[i]) != 0 && DepthOf(vertexDepth, ups[i]) != best {
            Disconnect(ups[i], from);
          }
        }
        done := done + {ups[i]};
      }
      forall e | e in start && e.to == from ensures e.from in done {
        PredecessorsContain(start, e.from, from);
        assert Edge(e.from, from) == e;
      }
      WithoutAll(es, start, from, vertexDepth, best, done);
    }

    method GetBestVertexDepth(from: Vertex) returns (best: nat)
      ensures forall u :: u in Predecessors(Ups(), from) ==> DepthOf(vertexDepth, u) <= best
      ensures best == 0 || exists u :: u in Predecessors(Ups(), from) && DepthOf(vertexDepth, u) == best
    {
      best := 0;
      var ups := GetUpVertexes(from);
      for i := 0 to |ups|
        invariant forall j :: 0 <= j < i ==> DepthOf(vertexDepth, ups[j]) <= best
        invariant best == 0 || exists j :: 0 <= j < i && DepthOf(vertexDepth, ups[j]) == best
      {
        var d := DepthOf(vertexDepth, ups[i]);
        if d > best {
          best := d;
        }
      }
    }
  }

  /** The walk goes on to a smaller set of descendants. */
  lemma ChildOf(es: set<Edge>, from: Vertex, to: Vertex)
    requires Acyclic(es) && to in Successors(es, from)
    ensures Edge(from, to) in es && Reaches(es, from, to) && Descendants(es, to) < Descendants(es, from)
  {
    SuccessorsContain(es, from, to);
    AcyclicEdgeProper(es, from, to);
    DescendantsShrink(es, from, to);
  }

  /** Having visited what the children reach, a walk has visited what its vertex reaches. */
  lemma KeptVisited(kept: set<Edge>, now: set<Edge>, from: Vertex, tos: seq<Vertex>, visited: set<Vertex>)
    requires kept <= now && Lists(tos, Successors(now, from)) && from in visited
    requires Covered(kept, tos, |tos|, visited)
    ensures forall w :: Reaches(kept, from, w) ==> w in visited
  {
    forall w | Reaches(kept, from, w) ensures w in visited {
      if w != from {
        var x := ReachesFirst(kept, from, w);
        SuccessorsContain(now, from, x);
        var j :| 0 <= j < |tos| && tos[j] == x;
      }
    }
  }

  /** Into the visited vertices only kept edges are left. */
  ghost predicate Cleared(now: set<Edge>, visited: set<Vertex>, kept: set<Edge>) {
    forall e :: e in now && e.to in visited ==> e in kept
  }

  /** What kept edges reach from the first n children has been visited. */
  ghost predicate Covered(kept: set<Edge>, tos: seq<Vertex>, n: nat, visited: set<Vertex>)
    requires n <= |tos|
  {
    forall j, w :: 0 <= j < n && Reaches(kept, tos[j], w) ==> w in visited
  }

  lemma ClearedMore(now: set<Edge>, later: set<Edge>, visited: set<Vertex>, more: set<Vertex>, kept: set<Edge>)
    requires later <= now && Cleared(now, visited, kept) && Cleared(later, more, kept)
    ensures Cleared(later, visited + more, kept)
  {
  }

  lemma CoveredMore(kept: set<Edge>, tos: seq<Vertex>, n: nat, visited: set<Vertex>, more: set<Vertex>)
    requires n < |tos| && Covered(kept, tos, n, visited) && forall w :: Reaches(kept, tos[n], w) ==> w in more
    ensures Covered(kept, tos, n + 1, visited + more)
  {
  }

  /** Iterating over a map's keys: each once, in an arbitrary order. */
  method Enumerate<A(==,!new)>(s: set<A>) returns (xs: seq<A>)
    ensures Lists(xs, s)
  {
    xs := [];
    var rest := s;
    while rest != {}
      invariant rest <= s && Lists(xs, s - rest)
      decreases |rest|
    {
      var x :| x in rest;
      xs, rest := xs + [x], rest - {x};
    }
  }

  /** The guard of the deletion, for an origin of depth d against the best depth. */
  ghost predicate Drops(depth: DepthMap, best: nat, u: Vertex) {
    best != 0 && DepthOf(depth, u) != 0 && DepthOf(depth, u) != best
  }

  /** es after the deletions into w from the origins in done. */
  ghost function Without(es: set<Edge>, w: Vertex, depth: DepthMap, best: nat, done: set<Vertex>): set<Edge> {
    set e | e in es && !(e.to == w && e.from in done && Drops(depth, best, e.from))
  }

  lemma WithoutOneMore(es: set<Edge>, w: Vertex, depth: DepthMap, best: nat, done: set<Vertex>, u: Vertex)
    ensures Without(es, w, depth, best, done + {u})
         == if Drops(depth, best, u) then Without(es, w, depth, best, done) - {Edge(u, w)} else Without(es, w, depth, best, done)
  {
  }

  lemma WithoutAll(es: set<Edge>, now: set<Edge>, w: Vertex, depth: DepthMap, best: nat, done: set<Vertex>)
    requires forall e :: e in now && e.to == w ==> e.from in done
    requires forall e :: e in now && e.to == w ==> (Drops(depth, best, e.from) <==> e !in Kept(es, depth))
    ensures Without(now, w, depth, best, done) == set e | e in now && (e.to != w || e in Kept(es, depth))
  {
  }

  /** Computed from the edges still there, the best depth is that of a deepest original origin. */
  lemma BestIsDeepest(es: set<Edge>, now: set<Edge>, depth: DepthMap, w: Vertex, best: nat)
    requires Kept(es, depth) <= now <= es
    requires forall u :: u in Predecessors(now, w) ==> DepthOf(depth, u) <= best
    requires best == 0 || exists u :: u in Predecessors(now, w) && DepthOf(depth, u) == best
    ensures forall e :: e in now && e.to == w ==> (Drops(depth, best, e.from) <==> e !in Kept(es, depth))
  {
    forall e | e in now && e.to == w ensures Drops(depth, best, e.from) <==> e !in Kept(es, depth) {
      PredecessorsContain(es, e.from, w);
      assert e == Edge(e.from, w);
      var deepest := PassKeepsAnOrigin(es, depth, w);
      PredecessorsContain(now, deepest.from, w);
      assert deepest == Edge(deepest.from, w);
      PredecessorsContain(now, e.from, w);
      if best != 0 {
        var u :| u in Predecessors(now, w) && DepthOf(depth, u) == best;
        PredecessorsContain(now, u, w);
        assert Edge(u, w).to == deepest.to;
      }
    }
  }

  /** A pass only drops edges between walked vertices. */
  lemma DoomedIsWalked(es: set<Edge>, v: Vertex, depth: DepthMap, e: Edge)
    requires Acyclic(es) && IsDepthMap(es, v, depth) && e in es && e !in Kept(es, depth)
    ensures Reaches(es, v, e.from) && Reaches(es, v, e.to)
  {
    DepthBounds(es, v, depth, e.from);
    ReachesEdge(es, e.from, e.to);
    ReachesTransitive(es, v, e.from, e.to);
  }
}
