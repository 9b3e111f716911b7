/** The calls of execute: one for every path from the start, whatever the interleaving. */
module ExecutorCalls {
  import opened Graphs
  import opened Executor
  import opened ExecutorSteps
  import opened ExecutorSafety
  import opened ExecutorTrace
  import opened ExecutorCompletion

  /** By goroutine, the path along which its call was made. */
  type Calls = map<nat, seq<Vertex>>

  predicate IsCall(p: Proc, k: nat) {
    IsWalker(p) || (k == 0 && IsMain(p))
  }

  /** The vertex of a call; Run's own call turns into the waiting main goroutine. */
  function CallVertex(start: Vertex, p: Proc): Vertex
    requires IsWalker(p) || IsMain(p)
  {
    if IsMain(p) then start else p.at
  }

  /** The call has already called w, if w is one of its down vertices. */
  predicate PastCall(p: Proc, w: Vertex) {
    match p
    case Descend(_, todo) => w !in todo
    case _ => p.Walked? || IsMain(p)
  }

  ghost predicate CallAlong(g: Graph, start: Vertex, s: State, k: nat, path: seq<Vertex>) {
    && k < |s.procs| && IsCall(s.procs[k], k)
    && IsPathBetween(g.edges, start, CallVertex(start, s.procs[k]), path)
  }

  ghost predicate HasCall(c: Calls, path: seq<Vertex>) {
    exists k :: k in c && c[k] == path
  }

  /** The call along the path to p's last vertex but one has made the call for its last. */
  ghost predicate CalledFrom(s: State, c: Calls, path: seq<Vertex>) {
    |path| > 1 ==>
      exists k :: k in c && k < |s.procs| && c[k] == path[..|path| - 1] && PastCall(s.procs[k], path[|path| - 1])
  }

  /** What a call is past, it has called. */
  ghost predicate CallsMade(g: Graph, start: Vertex, s: State, c: Calls, k: nat)
    requires k in c && CallAlong(g, start, s, k, c[k])
  {
    forall w :: Edge(CallVertex(start, s.procs[k]), w) in g.edges && PastCall(s.procs[k], w) ==> HasCall(c, c[k] + [w])
  }

  ghost predicate OnePerPath(c: Calls) {
    forall j, k :: j in c && k in c && c[j] == c[k] ==> j == k
  }

  /** c gives every call its path, no path twice. */
  ghost predicate Calling(g: Graph, start: Vertex, s: State, c: Calls) {
    && (forall k: nat :: k < |s.procs| && IsCall(s.procs[k], k) ==> k in c)
    && (forall k :: k in c ==> CallAlong(g, start, s, k, c[k]) && CallsMade(g, start, s, c, k) && CalledFrom(s, c, c[k]))
    && OnePerPath(c) && HasCall(c, [start])
  }

  lemma InitCalling(g: Graph, start: Vertex)
    ensures Calling(g, start, Init(start), map[0 := [start]])
  {
    var c: Calls := map[0 := [start]];
    assert c[0] == [start];
  }

  // ---------------------------------------------------------------- steps that make no call

  /** As far as calls are concerned nothing happened to the goroutine. */
  ghost predicate SameCalling(g: Graph, start: Vertex, k: nat, p: Proc, q: Proc) {
    && IsCall(p, k) == IsCall(q, k)
    && (IsCall(p, k) ==>
          && CallVertex(start, p) == CallVertex(start, q)
          && (forall w :: PastCall(p, w) ==> PastCall(q, w))
          && (forall w :: Edge(CallVertex(start, p), w) in g.edges && PastCall(q, w) ==> PastCall(p, w)))
  }

  lemma WalkCalling(g: Graph, start: Vertex, s: State, step: Step, k: nat, p: Proc, q: Proc)
    requires Enabled(g, s, step) && k < |s.procs| && p == s.procs[k] && WalkMoved(s, step, k, p, q) && !step.ExecuteDown?
    ensures SameCalling(g, start, k, p, q)
  {
    if step.ListDownVertices? {
      forall w | Edge(p.at, w) in g.edges ensures w in step.order {
        SuccessorsContain(g.edges, p.at, w);
      }
    }
  }

  lemma WorkCalling(g: Graph, start: Vertex, step: Step, k: nat, p: Proc, q: Proc)
    requires WorkMoved(step, k, p, q)
    ensures SameCalling(g, start, k, p, q)
  {
  }

  lemma MainCalling(g: Graph, start: Vertex, step: Step, k: nat, p: Proc, q: Proc)
    requires WellPlaced(g, start, p, k) && MainMoved(step, k, p, q)
    ensures SameCalling(g, start, k, p, q)
  {
  }

  lemma MovedCalling(g: Graph, start: Vertex, s: State, step: Step, k: nat)
    requires Inv(g, start, s) && Enabled(g, s, step) && k < |s.procs| && !step.ExecuteDown?
    ensures k < |Apply(g, s, step).procs| && SameCalling(g, start, k, s.procs[k], Apply(g, s, step).procs[k])
  {
    assert Local(g, start, s, k);
    MovedAt(g, s, step, k);
    var p, q := s.procs[k], Apply(g, s, step).procs[k];
    if q == p {
    } else if WalkMoved(s, step, k, p, q) {
      WalkCalling(g, start, s, step, k, p, q);
    } else if MainMoved(step, k, p, q) {
      MainCalling(g, start, step, k, p, q);
    } else {
      WorkCalling(g, start, step, k, p, q);
    }
  }

  lemma CallingStays(g: Graph, start: Vertex, s: State, t: State, c: Calls)
    requires Calling(g, start, s, c) && |s.procs| <= |t.procs|
    requires forall k: nat :: k < |s.procs| ==> SameCalling(g, start, k, s.procs[k], t.procs[k])
    requires forall k: nat :: |s.procs| <= k < |t.procs| ==> !IsCall(t.procs[k], k)
    ensures Calling(g, start, t, c)
  {
    forall k | k in c
      ensures CallAlong(g, start, t, k, c[k]) && CallsMade(g, start, t, c, k) && CalledFrom(t, c, c[k])
    {
      assert SameCalling(g, start, k, s.procs[k], t.procs[k]);
      assert CallAlong(g, start, s, k, c[k]) && CallsMade(g, start, s, c, k);
      CalledFromStays(g, start, s, t, c, c[k]);
    }
  }

  lemma CalledFromStays(g: Graph, start: Vertex, s: State, t: State, c: Calls, path: seq<Vertex>)
    requires CalledFrom(s, c, path) && |s.procs| <= |t.procs|
    requires forall k :: k in c ==> CallAlong(g, start, s, k, c[k])
    requires forall k: nat :: k < |s.procs| ==> SameCalling(g, start, k, s.procs[k], t.procs[k])
    ensures CalledFrom(t, c, path)
  {
    if |path| > 1 {
      var j :| j in c && j < |s.procs| && c[j] == path[..|path| - 1] && PastCall(s.procs[j], path[|path| - 1]);
      assert CallAlong(g, start, s, j, c[j]) && SameCalling(g, start, j, s.procs[j], t.procs[j]);
    }
  }

  // ---------------------------------------------------------------- a call

  /** A call whose path goes on to w in another call is past w. */
  lemma CalledIsPast(g: Graph, start: Vertex, s: State, c: Calls, i: nat, w: Vertex)
    requires Calling(g, start, s, c) && i in c && i < |s.procs|
    ensures HasCall(c, c[i] + [w]) ==> PastCall(s.procs[i], w)
  {
    var path := c[i] + [w];
    if HasCall(c, path) {
      var j :| j in c && c[j] == path;
      assert path[..|path| - 1] == c[i];
      assert CallAlong(g, start, s, i, c[i]) && CalledFrom(s, c, c[j]);
      var k :| k in c && k < |s.procs| && c[k] == path[..|path| - 1] && PastCall(s.procs[k], w);
      assert k == i;
    }
  }

  ghost predicate CallsNext(g: Graph, s: State, t: State, i: nat) {
    && i < |s.procs| && s.procs[i].Descend? && s.procs[i].todo != []
    && t.procs == s.procs[i := Descend(s.procs[i].at, s.procs[i].todo[1..])] + [Check(s.procs[i].todo[0])]
    && Iterates(s.procs[i].todo, Successors(g.edges, s.procs[i].at))
  }

  lemma NewCallAlong(g: Graph, start: Vertex, s: State, t: State, i: nat, c: Calls)
    requires Calling(g, start, s, c) && CallsNext(g, s, t, i) && i in c
    ensures CallAlong(g, start, t, |s.procs|, c[i] + [s.procs[i].todo[0]])
  {
    var w := s.procs[i].todo[0];
    var path := c[i] + [w];
    assert w in s.procs[i].todo;
    SuccessorsContain(g.edges, s.procs[i].at, w);
    assert CallAlong(g, start, s, i, c[i]);
    forall m | 0 <= m < |path| - 1 ensures Edge(path[m], path[m + 1]) in g.edges {
      if m < |c[i]| - 1 {
        assert Edge(c[i][m], c[i][m + 1]) in g.edges;
      }
    }
  }

  /** The old calls are where they were; the calling one is past one vertex more, whose call is there. */
  lemma OldCallAfter(g: Graph, start: Vertex, s: State, t: State, i: nat, c: Calls, d: Calls, k: nat)
    requires Calling(g, start, s, c) && CallsNext(g, s, t, i) && i in c && k in c
    requires d == c[|s.procs| := c[i] + [s.procs[i].todo[0]]]
    ensures CallAlong(g, start, t, k, d[k]) && CallsMade(g, start, t, d, k) && CalledFrom(t, d, d[k])
  {
    var w := s.procs[i].todo[0];
    assert CallAlong(g, start, s, k, c[k]) && CallsMade(g, start, s, c, k) && CalledFrom(s, c, c[k]);
    assert d[|s.procs|] == c[i] + [w];
    forall x | Edge(CallVertex(start, t.procs[k]), x) in g.edges && PastCall(t.procs[k], x) ensures HasCall(d, d[k] + [x]) {
      if k == i && x == w {
        assert d[|s.procs|] == d[k] + [x];
      } else {
        assert HasCall(c, c[k] + [x]);
        var j :| j in c && c[j] == c[k] + [x];
        assert d[j] == c[j];
      }
    }
    OldCalledFrom(g, start, s, t, i, c, d, c[k]);
  }

  lemma OldCalledFrom(g: Graph, start: Vertex, s: State, t: State, i: nat, c: Calls, d: Calls, path: seq<Vertex>)
    requires Calling(g, start, s, c) && CallsNext(g, s, t, i) && i in c && CalledFrom(s, c, path)
    requires d == c[|s.procs| := c[i] + [s.procs[i].todo[0]]]
    ensures CalledFrom(t, d, path)
  {
    if |path| > 1 {
      var j :| j in c && j < |s.procs| && c[j] == path[..|path| - 1] && PastCall(s.procs[j], path[|path| - 1]);
      assert d[j] == c[j] && PastCall(t.procs[j], path[|path| - 1]);
    }
  }

  lemma MoreCalls(c: Calls, n: nat, path: seq<Vertex>)
    requires OnePerPath(c) && !HasCall(c, path)
    ensures OnePerPath(c[n := path])
  {
    var d := c[n := path];
    forall j, k | j in d && k in d && d[j] == d[k] ensures j == k {
      assert j != n ==> j in c && d[j] == c[j];
      assert k != n ==> k in c && d[k] == c[k];
    }
  }

  lemma CallMade(g: Graph, start: Vertex, s: State, t: State, i: nat, c: Calls) returns (d: Calls)
    requires Calling(g, start, s, c) && CallsNext(g, s, t, i)
    ensures Calling(g, start, t, d)
  {
    var n := |s.procs|;
    var w := s.procs[i].todo[0];
    assert IsCall(s.procs[i], i);
    d := c[n := c[i] + [w]];
    CalledIsPast(g, start, s, c, i, w);
    assert w in s.procs[i].todo;
    MoreCalls(c, n, d[n]);
    AllCallsIn(g, s, t, i, c, d);
    forall k | k in d ensures CallAlong(g, start, t, k, d[k]) && CallsMade(g, start, t, d, k) && CalledFrom(t, d, d[k]) {
      OneCallAfter(g, start, s, t, i, c, d, k);
    }
    StartStays(g, start, s, c, d, n);
  }

  lemma AllCallsIn(g: Graph, s: State, t: State, i: nat, c: Calls, d: Calls)
    requires forall k: nat :: k < |s.procs| && IsCall(s.procs[k], k) ==> k in c
    requires CallsNext(g, s, t, i) && i in c
    requires d == c[|s.procs| := c[i] + [s.procs[i].todo[0]]]
    ensures forall k: nat :: k < |t.procs| && IsCall(t.procs[k], k) ==> k in d
  {
    forall k: nat | k < |t.procs| && IsCall(t.procs[k], k) ensures k in d {
      if k != i && k < |s.procs| {
        assert IsCall(s.procs[k], k);
      }
    }
  }

  lemma OneCallAfter(g: Graph, start: Vertex, s: State, t: State, i: nat, c: Calls, d: Calls, k: nat)
    requires Calling(g, start, s, c) && CallsNext(g, s, t, i) && i in c && k in d
    requires d == c[|s.procs| := c[i] + [s.procs[i].todo[0]]]
    ensures CallAlong(g, start, t, k, d[k]) && CallsMade(g, start, t, d, k) && CalledFrom(t, d, d[k])
  {
    if k in c {
      OldCallAfter(g, start, s, t, i, c, d, k);
    } else {
      NewCallAfter(g, start, s, t, i, c, d);
    }
  }

  lemma StartStays(g: Graph, start: Vertex, s: State, c: Calls, d: Calls, n: nat)
    requires Calling(g, start, s, c) && n == |s.procs| && n in d && d == c[n := d[n]]
    ensures HasCall(d, [start])
  {
    var j :| j in c && c[j] == [start];
    assert CallAlong(g, start, s, j, c[j]);
    assert d[j] == [start];
  }

  lemma NewCallAfter(g: Graph, start: Vertex, s: State, t: State, i: nat, c: Calls, d: Calls)
    requires Calling(g, start, s, c) && CallsNext(g, s, t, i) && i in c
    requires d == c[|s.procs| := c[i] + [s.procs[i].todo[0]]]
    ensures CallAlong(g, start, t, |s.procs|, d[|s.procs|]) && CallsMade(g, start, t, d, |s.procs|)
    ensures CalledFrom(t, d, d[|s.procs|])
  {
    NewCallAlong(g, start, s, t, i, c);
    var w := s.procs[i].todo[0];
    var path := c[i] + [w];
    assert CallAlong(g, start, s, i, c[i]);
    assert path[..|path| - 1] == c[i] && path[|path| - 1] == w;
    assert d[i] == c[i];
    assert PastCall(t.procs[i], w);
  }

  lemma StepCalling(g: Graph, start: Vertex, s: State, step: Step, c: Calls) returns (d: Calls)
    requires Inv(g, start, s) && Calling(g, start, s, c) && Enabled(g, s, step)
    ensures Calling(g, start, Apply(g, s, step), d)
  {
    var t := Apply(g, s, step);
    if step.ExecuteDown? {
      assert Local(g, start, s, step.i);
      d := CallMade(g, start, s, t, step.i, c);
    } else {
      StepAdds(g, s, step);
      forall k: nat | k < |s.procs| ensures SameCalling(g, start, k, s.procs[k], t.procs[k]) {
        MovedCalling(g, start, s, step, k);
      }
      forall k: nat | |s.procs| <= k < |t.procs| ensures !IsCall(t.procs[k], k) {
        AddedAt(g, s, step, k);
      }
      CallingStays(g, start, s, t, c);
      d := c;
    }
  }

  /** In every state of every run each call has its own path from the start. */
  lemma {:induction false} RunCalling(g: Graph, start: Vertex, ss: seq<State>, steps: seq<Step>, k: nat) returns (c: Calls)
    requires Runnable(g, start) && IsRun(g, start, ss, steps) && k < |ss|
    ensures Calling(g, start, ss[k], c)
  {
    if k == 0 {
      InitCalling(g, start);
      c := map[0 := [start]];
    } else {
      var before := RunCalling(g, start, ss, steps, k - 1);
      RunGood(g, start, ss, steps, k - 1);
      NextState(g, start, ss, steps, k - 1);
      c := StepCalling(g, start, ss[k - 1], steps[k - 1], before);
    }
  }

  // ---------------------------------------------------------------- every path is called

  /** The calls along p are past its next vertices. */
  ghost predicate PastAlong(s: State, c: Calls, p: seq<Vertex>) {
    forall k, m :: k in c && k < |s.procs| && 0 < m < |p| && c[k] == p[..m] ==> PastCall(s.procs[k], p[m])
  }

  lemma {:induction false} PathCalled(g: Graph, start: Vertex, s: State, c: Calls, p: seq<Vertex>, n: nat)
    requires Calling(g, start, s, c) && IsPath(g.edges, p) && p[0] == start && PastAlong(s, c, p) && 0 < n <= |p|
    ensures HasCall(c, p[..n])
  {
    if n == 1 {
      assert p[..1] == [start];
    } else {
      PathCalled(g, start, s, c, p, n - 1);
      var k :| k in c && c[k] == p[..n - 1];
      NextCalled(g, start, s, c, p, n - 1, k);
    }
  }

  lemma NextCalled(g: Graph, start: Vertex, s: State, c: Calls, p: seq<Vertex>, m: nat, k: nat)
    requires Calling(g, start, s, c) && IsPath(g.edges, p) && 0 < m < |p| && k in c && c[k] == p[..m] && PastAlong(s, c, p)
    ensures HasCall(c, p[..m + 1])
  {
    assert CallAlong(g, start, s, k, c[k]) && CallsMade(g, start, s, c, k);
    assert Edge(p[m - 1], p[m - 1 + 1]) in g.edges;
    assert p[..m + 1] == p[..m] + [p[m]];
  }

  /** Every path from the start is called exactly once: when nothing can move, the calls are the paths. */
  lemma StuckCallsArePaths(g: Graph, start: Vertex, core: set<Vertex>, ss: seq<State>, steps: seq<Step>) returns (c: Calls)
    requires Runnable(g, start) && IsRun(g, start, ss, steps) && Still(ss[|steps|], core)
    ensures forall k: nat :: k in c <==> k < |ss[|steps|].procs| && IsCall(ss[|steps|].procs[k], k)
    ensures forall k :: k in c ==> CallAlong(g, start, ss[|steps|], k, c[k])
    ensures forall p :: IsPath(g.edges, p) && p[0] == start ==> HasCall(c, p)
    ensures OnePerPath(c)
  {
    var s := ss[|steps|];
    c := RunCalling(g, start, ss, steps, |steps|);
    assert forall k :: k in c ==> CallAlong(g, start, s, k, c[k]);
    forall p | IsPath(g.edges, p) && p[0] == start ensures HasCall(c, p) {
      forall k, m | k in c && k < |s.procs| && 0 < m < |p| && c[k] == p[..m] ensures PastCall(s.procs[k], p[m]) {
        assert CallAlong(g, start, s, k, c[k]) && Blocked(s, s.procs[k]);
      }
      PathCalled(g, start, s, c, p, |p|);
      assert p[..|p|] == p;
    }
  }
}
