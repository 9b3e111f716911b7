/** The depth walk of the transitive reduction as a tree of calls: which depths one walk can leave behind. */
module Walks {
  import opened Graphs

  type DepthMap = map<Vertex, nat>

  /** A vertex the walk never recorded counts as depth 0. */
  function DepthOf(depth: DepthMap, v: Vertex): nat {
    if v in depth then depth[v] else 0
  }

  /** A call of the walk and the calls it makes, in order. */
  datatype Walk = Walk(at: Vertex, down: seq<Walk>)

  function Starts(ts: seq<Walk>): (r: seq<Vertex>)
    ensures |r| == |ts|
    ensures forall i :: 0 <= i < |ts| ==> r[i] == ts[i].at
  {
    seq(|ts|, i requires 0 <= i < |ts| => ts[i].at)
  }

  /** Every call goes on to each successor once; the order is arbitrary and may differ from call to call. */
  ghost predicate IsWalk(es: set<Edge>, t: Walk) {
    Lists(Starts(t.down), Successors(es, t.at)) && forall i :: 0 <= i < |t.down| ==> IsWalk(es, t.down[i])
  }

  /** The depths after the walk: a call records its vertex before it goes on, and later calls overwrite earlier ones. */
  function Record(m: DepthMap, d: nat, t: Walk): DepthMap
    decreases t
  {
    RecordEach(m[t.at := d], d + 1, t.down)
  }

  function RecordEach(m: DepthMap, d: nat, ts: seq<Walk>): DepthMap
    decreases ts
  {
    if ts == [] then m else Record(RecordEach(m, d, ts[..|ts| - 1]), d, ts[|ts| - 1])
  }

  /** v's depth map after a walk from v. */
  ghost predicate IsWalked(es: set<Edge>, v: Vertex, depth: DepthMap) {
    exists t :: IsWalk(es, t) && t.at == v && depth == Record(map[], 1, t)
  }

  // ---------------------------------------------------------------- the last path to a vertex

  /** The path of the last call for x; empty when there is none. */
  function LastPath(t: Walk, x: Vertex): seq<Vertex> {
    var p := LastPathIn(t.down, x);
    if p != [] then [t.at] + p else if t.at == x then [x] else []
  }

  function LastPathIn(ts: seq<Walk>, x: Vertex): seq<Vertex> {
    if ts == [] then []
    else
      var p := LastPath(ts[|ts| - 1], x);
      if p != [] then p else LastPathIn(ts[..|ts| - 1], x)
  }

  /** The depth a walk leaves for a vertex is that of the last path to it. */
  lemma {:induction false} RecordIsLast(m: DepthMap, d: nat, t: Walk, x: Vertex)
    ensures LastPath(t, x) == [] ==> (x in Record(m, d, t) <==> x in m) && (x in m ==> Record(m, d, t)[x] == m[x])
    ensures LastPath(t, x) != [] ==> x in Record(m, d, t) && Record(m, d, t)[x] == d + |LastPath(t, x)| - 1
    decreases t, 0
  {
    RecordEachIsLast(m[t.at := d], d + 1, t.down, x);
  }

  lemma {:induction false} RecordEachIsLast(m: DepthMap, d: nat, ts: seq<Walk>, x: Vertex)
    ensures var r := RecordEach(m, d, ts);
            && (LastPathIn(ts, x) == [] ==> (x in r <==> x in m) && (x in m ==> r[x] == m[x]))
            && (LastPathIn(ts, x) != [] ==> x in r && r[x] == d + |LastPathIn(ts, x)| - 1)
    decreases ts, 1
  {
    if ts != [] {
      var n := |ts| - 1;
      RecordEachIsLast(m, d, ts[..n], x);
      RecordIsLast(RecordEach(m, d, ts[..n]), d, ts[n], x);
    }
  }

  /** The last child in ts below which x was called. */
  lemma {:induction false} LastIn(ts: seq<Walk>, x: Vertex) returns (i: nat)
    requires LastPathIn(ts, x) != []
    ensures i < |ts| && LastPathIn(ts, x) == LastPath(ts[i], x)
    ensures forall j :: i < j < |ts| ==> LastPath(ts[j], x) == []
  {
    var n := |ts| - 1;
    if LastPath(ts[n], x) != [] {
      i := n;
    } else {
      i := LastIn(ts[..n], x);
    }
  }

  lemma {:induction false} LastInWins(ts: seq<Walk>, x: Vertex, i: nat)
    requires i < |ts| && LastPath(ts[i], x) != [] && forall j :: i < j < |ts| ==> LastPath(ts[j], x) == []
    ensures LastPathIn(ts, x) == LastPath(ts[i], x)
  {
    var n := |ts| - 1;
    if i < n {
      LastInWins(ts[..n], x, i);
    }
  }

  lemma PathCons(es: set<Edge>, p: seq<Vertex>)
    requires |p| > 1
    ensures IsPath(es, p) <==> Edge(p[0], p[1]) in es && IsPath(es, p[1..])
  {
    if IsPath(es, p) {
      assert forall i :: 0 <= i < |p[1..]| - 1 ==> Edge(p[1..][i], p[1..][i + 1]) == Edge(p[i + 1], p[i + 2]);
    }
    if Edge(p[0], p[1]) in es && IsPath(es, p[1..]) {
      forall i | 0 <= i < |p| - 1 ensures Edge(p[i], p[i + 1]) in es {
        if i > 0 {
          assert Edge(p[1..][i - 1], p[1..][i]) in es;
        }
      }
    }
  }

  lemma ChildEdge(es: set<Edge>, t: Walk, i: nat)
    requires IsWalk(es, t) && i < |t.down|
    ensures Edge(t.at, t.down[i].at) in es && IsWalk(es, t.down[i])
  {
    assert Starts(t.down)[i] in Successors(es, t.at);
    SuccessorsContain(es, t.at, t.down[i].at);
  }

  lemma ChildFor(es: set<Edge>, t: Walk, w: Vertex) returns (i: nat)
    requires IsWalk(es, t) && Edge(t.at, w) in es
    ensures i < |t.down| && t.down[i].at == w
  {
    SuccessorsContain(es, t.at, w);
    i :| 0 <= i < |t.down| && Starts(t.down)[i] == w;
  }

  /** The last path is a path. */
  lemma {:induction false} LastPathIsPath(es: set<Edge>, t: Walk, x: Vertex)
    requires IsWalk(es, t) && LastPath(t, x) != []
    ensures IsPathBetween(es, t.at, x, LastPath(t, x))
  {
    if LastPathIn(t.down, x) != [] {
      var i := LastIn(t.down, x);
      ChildEdge(es, t, i);
      LastPathIsPath(es, t.down[i], x);
      var p := [t.at] + LastPath(t.down[i], x);
      assert p[1..] == LastPath(t.down[i], x);
      PathCons(es, p);
    }
  }

  lemma {:induction false} InSome(ts: seq<Walk>, x: Vertex, i: nat)
    requires i < |ts| && LastPath(ts[i], x) != []
    ensures LastPathIn(ts, x) != []
  {
    var n := |ts| - 1;
    if i < n {
      InSome(ts[..n], x, i);
    }
  }

  /** The walk calls exactly what its start reaches. */
  lemma {:induction false} WalkReaches(es: set<Edge>, t: Walk, p: seq<Vertex>)
    requires IsWalk(es, t) && IsPath(es, p) && p[0] == t.at
    ensures LastPath(t, p[|p| - 1]) != []
    decreases |p|
  {
    if |p| > 1 {
      PathCons(es, p);
      var i := ChildFor(es, t, p[1]);
      ChildEdge(es, t, i);
      WalkReaches(es, t.down[i], p[1..]);
      InSome(t.down, p[|p| - 1], i);
    }
  }

  lemma LastPathIff(es: set<Edge>, t: Walk, x: Vertex)
    requires IsWalk(es, t)
    ensures LastPath(t, x) != [] <==> Reaches(es, t.at, x)
  {
    if LastPath(t, x) != [] {
      LastPathIsPath(es, t, x);
    }
    if Reaches(es, t.at, x) {
      var p :| IsPathBetween(es, t.at, x, p);
      WalkReaches(es, t, p);
    }
  }

  // ---------------------------------------------------------------- every path once

  /** The walk makes the calls along p. */
  predicate Follows(t: Walk, p: seq<Vertex>) {
    p != [] && p[0] == t.at && (|p| == 1 || exists i :: 0 <= i < |t.down| && Follows(t.down[i], p[1..]))
  }

  /** A walk follows exactly the paths from its start. That it follows each once is that its calls have distinct children. */
  lemma {:induction false} FollowsEveryPath(es: set<Edge>, t: Walk, p: seq<Vertex>)
    requires IsWalk(es, t)
    ensures Follows(t, p) <==> IsPath(es, p) && p[0] == t.at
    decreases |p|
  {
    if |p| > 1 {
      PathCons(es, p);
      if Follows(t, p) {
        var i :| 0 <= i < |t.down| && Follows(t.down[i], p[1..]);
        ChildEdge(es, t, i);
        FollowsEveryPath(es, t.down[i], p[1..]);
      }
      if IsPath(es, p) && p[0] == t.at {
        var i := ChildFor(es, t, p[1]);
        ChildEdge(es, t, i);
        FollowsEveryPath(es, t.down[i], p[1..]);
      }
    }
  }

  // ---------------------------------------------------------------- what a walk records

  /** depth holds exactly the vertices reachable from v, each with the length of some path from v. */
  ghost predicate IsDepthMap(es: set<Edge>, v: Vertex, depth: DepthMap) {
    && depth.Keys == Descendants(es, v)
    && forall x :: x in depth ==> exists p :: IsPathBetween(es, v, x, p) && depth[x] == |p|
  }

  /** Whatever the order of its calls, a walk from v leaves such a map. */
  lemma WalkRecordsDepths(es: set<Edge>, v: Vertex, depth: DepthMap)
    requires IsWalked(es, v, depth)
    ensures IsDepthMap(es, v, depth)
  {
    var t :| IsWalk(es, t) && t.at == v && depth == Record(map[], 1, t);
    forall x ensures x in depth <==> x in Descendants(es, v)
             ensures x in depth ==> exists p :: IsPathBetween(es, v, x, p) && depth[x] == |p|
    {
      RecordIsLast(map[], 1, t, x);
      LastPathIff(es, t, x);
      DescendantsContain(es, v, x);
      if LastPath(t, x) != [] {
        LastPathIsPath(es, t, x);
        assert depth[x] == |LastPath(t, x)|;
      }
    }
  }

  // ---------------------------------------------------------------- building walks

  lemma {:induction false} SomeWalk(es: set<Edge>, v: Vertex) returns (t: Walk)
    requires Acyclic(es)
    ensures IsWalk(es, t) && t.at == v
    decreases |Descendants(es, v)|, 1, 0
  {
    t := WalkEndingIn(es, v, []);
  }

  /** A walk from v whose last children are the given ones. */
  lemma {:induction false} WalkEndingIn(es: set<Edge>, v: Vertex, last: seq<Walk>) returns (t: Walk)
    requires Acyclic(es)
    requires forall i :: 0 <= i < |last| ==> IsWalk(es, last[i]) && Edge(v, last[i].at) in es
    requires forall i, j :: 0 <= i < j < |last| ==> last[i].at != last[j].at
    ensures IsWalk(es, t) && t.at == v && |last| <= |t.down| && t.down[|t.down| - |last|..] == last
    decreases |Descendants(es, v)|, 0, 1
  {
    var rest := Successors(es, v) - (set i | 0 <= i < |last| :: last[i].at);
    var ts := SomeWalks(es, v, rest);
    t := Walk(v, ts + last);
    forall w ensures w in Successors(es, v) <==> w in Starts(ts + last) {
      SuccessorsContain(es, v, w);
      if i :| 0 <= i < |last| && last[i].at == w {
        assert Starts(ts + last)[|ts| + i] == w;
      }
      if w in rest {
        var i :| 0 <= i < |ts| && Starts(ts)[i] == w;
        assert Starts(ts + last)[i] == w;
      }
      if i :| 0 <= i < |ts + last| && Starts(ts + last)[i] == w {
        if i < |ts| {
          assert Starts(ts)[i] == w;
        }
      }
    }
    forall i, j | 0 <= i < j < |ts + last| ensures Starts(ts + last)[i] != Starts(ts + last)[j] {
      if i < |ts| {
        assert Starts(ts)[i] in rest;
        if j < |ts| {
          assert Starts(ts)[i] != Starts(ts)[j];
        }
      }
    }
  }

  /** Walks from each of some successors of v. */
  lemma {:induction false} SomeWalks(es: set<Edge>, v: Vertex, ws: set<Vertex>) returns (ts: seq<Walk>)
    requires Acyclic(es) && ws <= Successors(es, v)
    ensures Lists(Starts(ts), ws) && forall i :: 0 <= i < |ts| ==> IsWalk(es, ts[i])
    decreases |Descendants(es, v)|, 0, 0, |ws|
  {
    ts := [];
    if ws != {} {
      var w :| w in ws;
      SuccessorsContain(es, v, w);
      AcyclicEdgeProper(es, v, w);
      DescendantsShrink(es, v, w);
      var t := SomeWalk(es, w);
      var us := SomeWalks(es, v, ws - {w});
      ts := us + [t];
      assert Starts(ts) == Starts(us) + [w];
    }
  }

  lemma LastChildWins(t: Walk, x: Vertex, k: nat)
    requires k < |t.down| && LastPath(t.down[k], x) != [] && forall j :: k < j < |t.down| ==> LastPath(t.down[j], x) == []
    ensures LastPath(t, x) == [t.at] + LastPath(t.down[k], x)
  {
    LastInWins(t.down, x, k);
  }

  /** For any path some walk reaches its end by it last. */
  lemma {:induction false} WalkAlong(es: set<Edge>, p: seq<Vertex>) returns (t: Walk)
    requires Acyclic(es) && IsPath(es, p)
    ensures IsWalk(es, t) && t.at == p[0] && LastPath(t, p[|p| - 1]) == p
    decreases |p|
  {
    if |p| == 1 {
      t := SomeWalk(es, p[0]);
      LastPathIsPath(es, t, p[0]);
      if |LastPath(t, p[0])| > 1 {
        AcyclicPathOpen(es, LastPath(t, p[0]));
      }
    } else {
      PathCons(es, p);
      var c := WalkAlong(es, p[1..]);
      t := WalkEndingIn(es, p[0], [c]);
      assert t.down[|t.down| - 1] == t.down[|t.down| - 1..][0] == c;
      LastChildWins(t, p[|p| - 1], |t.down| - 1);
    }
  }

  // ---------------------------------------------------------------- forks

  /** From y, two paths part at once, the one to b longer than the one to a, and one of them does not lead to the other's end:
      a walk can follow both last. */
  ghost predicate Forks(es: set<Edge>, y: Vertex, a: Vertex, b: Vertex, p: seq<Vertex>, q: seq<Vertex>) {
    && IsPathBetween(es, y, a, p) && IsPathBetween(es, y, b, q) && |q| > |p| > 1
    && (!Reaches(es, p[1], b) || !Reaches(es, q[1], a))
  }

  /** Where the last paths of a walk to two vertices part there is a fork. */
  lemma {:induction false} ForkOf(es: set<Edge>, t: Walk, a: Vertex, b: Vertex) returns (y: Vertex, p: seq<Vertex>, q: seq<Vertex>)
    requires Acyclic(es) && IsWalk(es, t) && 0 < |LastPath(t, a)| < |LastPath(t, b)| && !Reaches(es, a, b)
    ensures Reaches(es, t.at, y) && Forks(es, y, a, b, p, q)
    decreases t
  {
    p, q := LastPath(t, a), LastPath(t, b);
    LastPathIsPath(es, t, a);
    LastPathIsPath(es, t, b);
    assert t.at != a;
    var i := LastIn(t.down, a);
    var j := LastIn(t.down, b);
    ChildEdge(es, t, i);
    ChildEdge(es, t, j);
    if i == j {
      y, p, q := ForkOf(es, t.down[i], a, b);
      ReachesEdge(es, t.at, t.down[i].at);
      ReachesTransitive(es, t.at, t.down[i].at, y);
    } else {
      y := t.at;
      ReachesSelf(es, y);
      LastPathIsPath(es, t.down[i], a);
      LastPathIsPath(es, t.down[j], b);
      assert p[1] == t.down[i].at && q[1] == t.down[j].at;
      LastPathIff(es, t.down[i], b);
      LastPathIff(es, t.down[j], a);
    }
  }

  lemma ForkParts(es: set<Edge>, y: Vertex, a: Vertex, b: Vertex, p: seq<Vertex>, q: seq<Vertex>)
    requires Forks(es, y, a, b, p, q)
    ensures Edge(y, p[1]) in es && IsPathBetween(es, p[1], a, p[1..]) && p == [y] + p[1..]
    ensures Edge(y, q[1]) in es && IsPathBetween(es, q[1], b, q[1..]) && q == [y] + q[1..]
    ensures p[1] != q[1]
  {
    PathCons(es, p);
    PathCons(es, q);
    assert IsPathBetween(es, p[1], a, p[1..]);
    assert IsPathBetween(es, q[1], b, q[1..]);
  }

  /** A walk whose last child leads by p to a but not to b, and the one before by q to b. */
  lemma LastTwo(es: set<Edge>, y: Vertex, a: Vertex, b: Vertex, tp: Walk, tq: Walk) returns (t: Walk)
    requires Acyclic(es) && IsWalk(es, tp) && IsWalk(es, tq) && Edge(y, tp.at) in es && Edge(y, tq.at) in es && tp.at != tq.at
    requires LastPath(tp, a) != [] && LastPath(tq, b) != [] && LastPath(tp, b) == []
    ensures IsWalk(es, t) && t.at == y
    ensures LastPath(t, a) == [y] + LastPath(tp, a) && LastPath(t, b) == [y] + LastPath(tq, b)
  {
    t := WalkEndingIn(es, y, [tq, tp]);
    var n := |t.down|;
    assert t.down[n - 2] == t.down[n - 2..][0] && t.down[n - 1] == t.down[n - 2..][1];
    LastChildWins(t, a, n - 1);
    LastChildWins(t, b, n - 2);
  }

  /** A fork is where the last paths of some walk part. */
  lemma ForkedWalk(es: set<Edge>, y: Vertex, a: Vertex, b: Vertex, p: seq<Vertex>, q: seq<Vertex>) returns (t: Walk)
    requires Acyclic(es) && Forks(es, y, a, b, p, q)
    ensures IsWalk(es, t) && t.at == y && LastPath(t, a) == p && LastPath(t, b) == q
  {
    ForkParts(es, y, a, b, p, q);
    var tp := WalkAlong(es, p[1..]);
    var tq := WalkAlong(es, q[1..]);
    if !Reaches(es, p[1], b) {
      LastPathIff(es, tp, b);
      t := LastTwo(es, y, a, b, tp, tq);
    } else {
      LastPathIff(es, tq, a);
      t := LastTwo(es, y, b, a, tq, tp);
    }
  }

  /** The same after any path that leads to the fork. */
  lemma {:induction false} ForkedWalkAfter(es: set<Edge>, pre: seq<Vertex>, y: Vertex, a: Vertex, b: Vertex, p: seq<Vertex>, q: seq<Vertex>)
    returns (t: Walk)
    requires Acyclic(es) && Forks(es, y, a, b, p, q) && IsPath(es, pre) && pre[|pre| - 1] == y
    ensures IsWalk(es, t) && t.at == pre[0]
    ensures 0 < |LastPath(t, a)| && |LastPath(t, b)| - |LastPath(t, a)| == |q| - |p|
    decreases |pre|
  {
    if |pre| == 1 {
      t := ForkedWalk(es, y, a, b, p, q);
    } else {
      PathCons(es, pre);
      var c := ForkedWalkAfter(es, pre[1..], y, a, b, p, q);
      t := WalkEndingIn(es, pre[0], [c]);
      var n := |t.down|;
      assert t.down[n - 1] == t.down[n - 1..][0] == c;
      LastChildWins(t, a, n - 1);
      LastChildWins(t, b, n - 1);
    }
  }
}
