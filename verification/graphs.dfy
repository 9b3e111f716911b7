/** Directed graphs as sets of edges: paths, reachability, acyclicity, and the exact
    condition under which deleting edges from an acyclic graph loses no reachability. */
module Graphs {

  type Vertex = string

  datatype Edge = Edge(from: Vertex, to: Vertex)

  /** A path is a non-empty vertex sequence whose consecutive members are joined by edges. */
  ghost predicate IsPath(es: set<Edge>, p: seq<Vertex>) {
    |p| > 0 && forall i :: 0 <= i < |p| - 1 ==> Edge(p[i], p[i + 1]) in es
  }

  ghost predicate IsPathBetween(es: set<Edge>, u: Vertex, w: Vertex, p: seq<Vertex>) {
    IsPath(es, p) && p[0] == u && p[|p| - 1] == w
  }

  /** w can be reached from u along zero or more edges. */
  ghost predicate Reaches(es: set<Edge>, u: Vertex, w: Vertex) {
    exists p :: IsPathBetween(es, u, w, p)
  }

  ghost predicate Acyclic(es: set<Edge>) {
    forall e :: e in es ==> !Reaches(es, e.to, e.from)
  }

  function Endpoints(es: set<Edge>): set<Vertex> {
    (set e | e in es :: e.from) + (set e | e in es :: e.to)
  }

  /** Everything reachable from v, including v itself. */
  ghost function Descendants(es: set<Edge>, v: Vertex): set<Vertex> {
    set w | w in Endpoints(es) + {v} && Reaches(es, v, w)
  }

  /** The vertices an edge leads to from u. */
  function Successors(es: set<Edge>, u: Vertex): set<Vertex> {
    set e | e in es && e.from == u :: e.to
  }

  /** The vertices with an edge into w. */
  function Predecessors(es: set<Edge>, w: Vertex): set<Vertex> {
    set e | e in es && e.to == w :: e.from
  }

  /** xs lists the members of s, each once. */
  ghost predicate Lists<A(!new)>(xs: seq<A>, s: set<A>) {
    && (forall x :: x in s <==> x in xs)
    && (forall i, j :: 0 <= i < j < |xs| ==> xs[i] != xs[j])
  }

  lemma {:induction false} Listing<A(!new)>(s: set<A>) returns (xs: seq<A>)
    ensures Lists(xs, s)
    decreases |s|
  {
    xs := [];
    if s != {} {
      var x :| x in s;
      var ys := Listing(s - {x});
      xs := ys + [x];
    }
  }

  lemma SuccessorsContain(es: set<Edge>, u: Vertex, w: Vertex)
    ensures w in Successors(es, u) <==> Edge(u, w) in es
  {
    if Edge(u, w) in es {
      assert Edge(u, w).to in Successors(es, u);
    }
  }

  lemma PredecessorsContain(es: set<Edge>, u: Vertex, w: Vertex)
    ensures u in Predecessors(es, w) <==> Edge(u, w) in es
  {
    if Edge(u, w) in es {
      assert Edge(u, w).from in Predecessors(es, w);
    }
  }

  lemma ReachesSelf(es: set<Edge>, u: Vertex)
    ensures Reaches(es, u, u)
  {
    assert IsPathBetween(es, u, u, [u]);
  }

  lemma ReachesEdge(es: set<Edge>, u: Vertex, w: Vertex)
    requires Edge(u, w) in es
    ensures Reaches(es, u, w)
  {
    assert IsPathBetween(es, u, w, [u, w]);
  }

  lemma ReachesTransitive(es: set<Edge>, u: Vertex, v: Vertex, w: Vertex)
    requires Reaches(es, u, v) && Reaches(es, v, w)
    ensures Reaches(es, u, w)
  {
    var p :| IsPathBetween(es, u, v, p);
    var q :| IsPathBetween(es, v, w, q);
    var r := p + q[1..];
    forall i | 0 <= i < |r| - 1 ensures Edge(r[i], r[i + 1]) in es {
      if i < |p| - 1 {
        assert Edge(p[i], p[i + 1]) in es;
      } else {
        assert Edge(q[i - |p| + 1], q[i - |p| + 2]) in es;
      }
    }
    assert IsPathBetween(es, u, w, r);
  }

  /** A non-trivial connection starts with an edge. */
  lemma ReachesFirst(es: set<Edge>, u: Vertex, w: Vertex) returns (x: Vertex)
    requires Reaches(es, u, w) && u != w
    ensures Edge(u, x) in es && Reaches(es, x, w)
  {
    var p :| IsPathBetween(es, u, w, p);
    x := p[1];
    assert Edge(p[0], p[1]) in es;
    var q := p[1..];
    assert forall i :: 0 <= i < |q| - 1 ==> Edge(q[i], q[i + 1]) == Edge(p[i + 1], p[i + 2]);
    assert IsPathBetween(es, x, w, q);
  }

  /** A non-trivial connection ends with an edge. */
  lemma ReachesLast(es: set<Edge>, u: Vertex, w: Vertex) returns (x: Vertex)
    requires Reaches(es, u, w) && u != w
    ensures Edge(x, w) in es && Reaches(es, u, x)
  {
    var p :| IsPathBetween(es, u, w, p);
    x := p[|p| - 2];
    assert Edge(p[|p| - 2], p[|p| - 1]) in es;
    var q := p[..|p| - 1];
    assert forall i :: 0 <= i < |q| - 1 ==> Edge(q[i], q[i + 1]) == Edge(p[i], p[i + 1]);
    assert IsPathBetween(es, u, x, q);
  }

  lemma ReachesMonotone(small: set<Edge>, large: set<Edge>, u: Vertex, w: Vertex)
    requires small <= large && Reaches(small, u, w)
    ensures Reaches(large, u, w)
  {
    var p :| IsPathBetween(small, u, w, p);
    assert IsPathBetween(large, u, w, p);
  }

  lemma AcyclicSubgraph(small: set<Edge>, large: set<Edge>)
    requires small <= large && Acyclic(large)
    ensures Acyclic(small)
  {
    forall e | e in small ensures !Reaches(small, e.to, e.from) {
      if Reaches(small, e.to, e.from) {
        ReachesMonotone(small, large, e.to, e.from);
      }
    }
  }

  /** In an acyclic graph two distinct vertices never reach each other. */
  lemma AcyclicAntisymmetric(es: set<Edge>, u: Vertex, w: Vertex)
    requires Acyclic(es) && Reaches(es, u, w) && Reaches(es, w, u)
    ensures u == w
  {
    if u != w {
      var x := ReachesFirst(es, u, w);
      assert !Reaches(es, Edge(u, x).to, Edge(u, x).from);
      ReachesTransitive(es, x, w, u);
    }
  }

  lemma DescendantsContain(es: set<Edge>, v: Vertex, w: Vertex)
    ensures w in Descendants(es, v) <==> Reaches(es, v, w)
  {
    if Reaches(es, v, w) && w != v {
      var x := ReachesLast(es, v, w);
      assert Edge(x, w).to in Endpoints(es);
    }
  }

  /** Descendant sets shrink strictly along a connection: the measure behind every walk. */
  lemma DescendantsShrink(es: set<Edge>, u: Vertex, w: Vertex)
    requires Acyclic(es) && Reaches(es, u, w) && u != w
    ensures Descendants(es, w) < Descendants(es, u)
    ensures |Descendants(es, w)| < |Descendants(es, u)|
  {
    forall x | x in Descendants(es, w) ensures x in Descendants(es, u) {
      ReachesTransitive(es, u, w, x);
      DescendantsContain(es, u, x);
    }
    ReachesSelf(es, u);
    DescendantsContain(es, u, u);
    if u in Descendants(es, w) {
      AcyclicAntisymmetric(es, u, w);
    }
    StrictSubsetSmaller(Descendants(es, w), Descendants(es, u), u);
  }

  lemma StrictSubsetSmaller<T>(small: set<T>, large: set<T>, x: T)
    requires small <= large && x in large && x !in small
    ensures |small| < |large|
  {
    SubsetNoLarger(small, large - {x});
  }

  lemma {:induction false} SubsetNoLarger<T>(small: set<T>, large: set<T>)
    requires small <= large
    ensures |small| <= |large|
  {
    if small != {} {
      var x :| x in small;
      SubsetNoLarger(small - {x}, large - {x});
    }
  }

  /** One edge never leads back to where it started. */
  lemma AcyclicEdgeProper(es: set<Edge>, u: Vertex, w: Vertex)
    requires Acyclic(es) && Edge(u, w) in es
    ensures u != w && Reaches(es, u, w) && !Reaches(es, w, u)
  {
    ReachesEdge(es, u, w);
    ReachesSelf(es, u);
  }

  /** A numbering that every edge increases rules out cycles. */
  lemma NumberedAcyclic(es: set<Edge>, number: map<Vertex, nat>)
    requires forall e :: e in es ==> e.from in number && e.to in number && number[e.from] < number[e.to]
    ensures Acyclic(es)
  {
    forall e | e in es ensures !Reaches(es, e.to, e.from) {
      if Reaches(es, e.to, e.from) {
        var p :| IsPathBetween(es, e.to, e.from, p);
        NumberedPath(es, number, p);
      }
    }
  }

  lemma {:induction false} NumberedPath(es: set<Edge>, number: map<Vertex, nat>, p: seq<Vertex>)
    requires forall e :: e in es ==> e.from in number && e.to in number && number[e.from] < number[e.to]
    requires IsPath(es, p) && p[0] in number
    ensures p[|p| - 1] in number && number[p[0]] <= number[p[|p| - 1]]
  {
    if |p| > 1 {
      assert Edge(p[|p| - 2], p[|p| - 1]) in es;
      var q := p[..|p| - 1];
      assert forall i :: 0 <= i < |q| - 1 ==> Edge(q[i], q[i + 1]) == Edge(p[i], p[i + 1]);
      NumberedPath(es, number, q);
    }
  }

  /** A path of at least one edge never returns to its start. */
  lemma AcyclicPathOpen(es: set<Edge>, p: seq<Vertex>)
    requires Acyclic(es) && IsPath(es, p) && |p| > 1
    ensures p[0] != p[|p| - 1]
  {
    assert Edge(p[0], p[1]) in es;
    assert !Reaches(es, Edge(p[0], p[1]).to, Edge(p[0], p[1]).from);
    var q := p[1..];
    assert forall i :: 0 <= i < |q| - 1 ==> Edge(q[i], q[i + 1]) == Edge(p[i + 1], p[i + 2]);
    assert IsPathBetween(es, p[1], p[|p| - 1], q);
  }

  // ---------------------------------------------------------------- redundancy

  /** Besides the edge e itself, a longer path leads from e.from to e.to. */
  ghost predicate Redundant(es: set<Edge>, e: Edge) {
    exists x :: Edge(e.from, x) in es && x != e.to && Reaches(es, x, e.to)
  }

  lemma RedundantMonotone(small: set<Edge>, large: set<Edge>, e: Edge)
    requires small <= large && Redundant(small, e)
    ensures Redundant(large, e)
  {
    var x :| Edge(e.from, x) in small && x != e.to && Reaches(small, x, e.to);
    ReachesMonotone(small, large, x, e.to);
  }

  ghost predicate SameReach(es: set<Edge>, kept: set<Edge>) {
    forall u, w :: Reaches(es, u, w) <==> Reaches(kept, u, w)
  }

  /** Deleting edges from an acyclic graph keeps reachability exactly when every deleted edge was redundant. */
  lemma SameReachIffOnlyRedundantDeleted(es: set<Edge>, kept: set<Edge>)
    requires Acyclic(es) && kept <= es
    ensures SameReach(es, kept) <==> forall e :: e in es - kept ==> Redundant(es, e)
  {
    if SameReach(es, kept) {
      forall e | e in es - kept ensures Redundant(es, e) {
        AcyclicEdgeProper(es, e.from, e.to);
        var x := ReachesFirst(kept, e.from, e.to);
        ReachesMonotone(kept, es, x, e.to);
        assert Edge(e.from, x) in es && x != e.to;
      }
    }
    if forall e :: e in es - kept ==> Redundant(es, e) {
      forall u, w ensures Reaches(es, u, w) <==> Reaches(kept, u, w) {
        if Reaches(kept, u, w) {
          ReachesMonotone(kept, es, u, w);
        }
        if Reaches(es, u, w) {
          RedundantDeletionsKeepReach(es, kept, u, w);
        }
      }
    }
  }

  lemma {:induction false} RedundantDeletionsKeepReach(es: set<Edge>, kept: set<Edge>, u: Vertex, w: Vertex)
    requires Acyclic(es) && kept <= es
    requires forall e :: e in es - kept ==> Redundant(es, e)
    requires Reaches(es, u, w)
    ensures Reaches(kept, u, w)
    decreases |Descendants(es, u)| - |Descendants(es, w)|
  {
    if u == w {
      ReachesSelf(kept, u);
    } else if Edge(u, w) in kept {
      ReachesEdge(kept, u, w);
    } else {
      var x := ReachesFirst(es, u, w);
      if x == w {
        assert Redundant(es, Edge(u, w));
        x :| Edge(u, x) in es && x != w && Reaches(es, x, w);
      }
      AcyclicEdgeProper(es, u, x);
      DescendantsShrink(es, u, x);
      DescendantsShrink(es, x, w);
      RedundantDeletionsKeepReach(es, kept, u, x);
      RedundantDeletionsKeepReach(es, kept, x, w);
      ReachesTransitive(kept, u, x, w);
    }
  }

  /** When only root has no edge into it, root reaches every vertex. */
  lemma {:induction false} OnlySourceReachesAll(vs: set<Vertex>, es: set<Edge>, root: Vertex, w: Vertex)
    requires Acyclic(es) && Endpoints(es) <= vs && w in vs
    requires forall v :: v in vs && v != root ==> Predecessors(es, v) != {}
    ensures Reaches(es, root, w)
    decreases |vs| - |Descendants(es, w)|
  {
    if w == root {
      ReachesSelf(es, root);
    } else {
      var u :| u in Predecessors(es, w);
      PredecessorsContain(es, u, w);
      assert u in Endpoints(es);
      AcyclicEdgeProper(es, u, w);
      DescendantsShrink(es, u, w);
      SubsetNoLarger(Descendants(es, u), vs);
      OnlySourceReachesAll(vs, es, root, u);
      ReachesTransitive(es, root, u, w);
    }
  }
}
