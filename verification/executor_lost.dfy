/** Lost vertices, whose goroutines have all given up; runs in which nothing goes wrong; and the run that brings two calls of a
    vertex to the check of its mark before either has set it. */
module ExecutorLost {
  import opened Graphs
  import opened Executor
  import opened ExecutorSteps
  import opened ExecutorSafety
  import opened ExecutorTrace
  import opened ExecutorProgress
  import opened ExecutorCompletion
  import opened ExecutorSchedules
  import opened ExecutorCalls
  import opened ExecutorRespect
  import opened ExecutorTree

  // ---------------------------------------------------------------- lost vertices

  /** Every goroutine of v has given up, and v is marked, so no call will start another. */
  ghost predicate Lost(s: State, v: Vertex) {
    && v in s.visited
    && v !in StartedIn(s.trace)
    && forall i :: 0 <= i < |s.procs| ==> GivenUp(s.procs[i], v)
  }

  /** A goroutine of v that has given up, or a call that will not start one. */
  predicate GivenUp(p: Proc, v: Vertex) {
    !IsMain(p) && p.at == v ==> p.Aborted? || (IsWalker(p) && !p.Mark? && !p.Spawn?)
  }

  lemma StepLost(g: Graph, s: State, step: Step, v: Vertex)
    requires Enabled(g, s, step) && Lost(s, v)
    ensures Lost(Apply(g, s, step), v)
  {
    StepFields(g, s, step);
    LostGoroutines(g, s, step, v);
    if step.BeginRun? {
      assert GivenUp(s.procs[step.i], v);
    }
    StepStarts(g, s, step, v);
  }

  lemma LostGoroutines(g: Graph, s: State, step: Step, v: Vertex)
    requires Enabled(g, s, step) && Lost(s, v)
    ensures forall i :: 0 <= i < |Apply(g, s, step).procs| ==> GivenUp(Apply(g, s, step).procs[i], v)
  {
    var t := Apply(g, s, step);
    forall i | 0 <= i < |t.procs| ensures GivenUp(t.procs[i], v) {
      if i < |s.procs| {
        MovedAt(g, s, step, i);
        MovedGivenUp(s, step, i, s.procs[i], t.procs[i], v);
      } else {
        AddedAt(g, s, step, i);
        NewGivenUp(s, step, t.procs[i], v);
      }
    }
  }

  lemma WalkGivenUp(s: State, step: Step, i: nat, p: Proc, q: Proc, v: Vertex)
    requires WalkMoved(s, step, i, p, q) && GivenUp(p, v) && v in s.visited
    ensures GivenUp(q, v)
  {
  }

  lemma WorkGivenUp(s: State, step: Step, i: nat, p: Proc, q: Proc, v: Vertex)
    requires WorkMoved(step, i, p, q) && GivenUp(p, v)
    ensures GivenUp(q, v)
  {
  }

  lemma MainGivenUp(s: State, step: Step, i: nat, p: Proc, q: Proc, v: Vertex)
    requires MainMoved(step, i, p, q)
    ensures GivenUp(q, v)
  {
  }

  lemma MovedGivenUp(s: State, step: Step, i: nat, p: Proc, q: Proc, v: Vertex)
    requires Moved(s, step, i, p, q) && GivenUp(p, v) && v in s.visited
    ensures GivenUp(q, v)
  {
    if q == p {
    } else if WalkMoved(s, step, i, p, q) {
      WalkGivenUp(s, step, i, p, q, v);
    } else if MainMoved(step, i, p, q) {
      MainGivenUp(s, step, i, p, q, v);
    } else {
      WorkGivenUp(s, step, i, p, q, v);
    }
  }

  lemma NewGivenUp(s: State, step: Step, q: Proc, v: Vertex)
    requires Added(s, step) == [q]
    requires step.SpawnWorker? && step.i < |s.procs| && s.procs[step.i].Spawn? ==> s.procs[step.i].at != v
    ensures GivenUp(q, v)
  {
    assert [q][0] == q;
  }

  lemma {:induction false} StaysLost(g: Graph, start: Vertex, ss: seq<State>, steps: seq<Step>, v: Vertex, i: nat, k: nat)
    requires IsRun(g, start, ss, steps) && i <= k < |ss| && Lost(ss[i], v)
    ensures Lost(ss[k], v)
    decreases k - i
  {
    if i < k {
      NextLost(g, start, ss, steps, v, i);
      StaysLost(g, start, ss, steps, v, i + 1, k);
    }
  }

  lemma NextLost(g: Graph, start: Vertex, ss: seq<State>, steps: seq<Step>, v: Vertex, k: nat)
    requires IsRun(g, start, ss, steps) && k < |steps| && Lost(ss[k], v)
    ensures Lost(ss[k + 1], v)
  {
    NextState(g, start, ss, steps, k);
    StepLost(g, ss[k], steps[k], v);
  }

  /** Once a vertex is lost Run never returns true, however the run goes on. */
  lemma LostNeverSucceeds(g: Graph, start: Vertex, ss: seq<State>, steps: seq<Step>, v: Vertex, i: nat, k: nat)
    requires Runnable(g, start) && IsRun(g, start, ss, steps) && v in g.vertices && i <= k < |ss| && Lost(ss[i], v)
    ensures |ss[k].procs| > 0 && ss[k].procs[0] != MainDone(true)
  {
    StaysLost(g, start, ss, steps, v, i, k);
    RunGood(g, start, ss, steps, k);
    if ss[k].procs[0] == MainDone(true) {
      ReturnedStarted(g, ss[k], v);
    }
  }

  // ---------------------------------------------------------------- marked vertices

  /** Not a call that found v unmarked and is still on its way, and not a goroutine of v, except an old one. */
  predicate Harmless(p: Proc, v: Vertex, earlier: bool) {
    !IsMain(p) && p.at == v ==> (IsWalker(p) && !p.Mark? && !p.Spawn?) || (IsWorker(p) && earlier)
  }

  /** v is marked, all its goroutines are among the first n, and no call is about to start another. */
  ghost predicate MarkedForGood(s: State, v: Vertex, n: nat) {
    && v in s.visited && n <= |s.procs|
    && forall i :: 0 <= i < |s.procs| ==> Harmless(s.procs[i], v, i < n)
  }

  lemma WalkMarked(s: State, step: Step, i: nat, p: Proc, q: Proc, v: Vertex, earlier: bool)
    requires WalkMoved(s, step, i, p, q) && v in s.visited && Harmless(p, v, earlier)
    ensures Harmless(q, v, earlier)
  {
  }

  lemma WorkMarked(step: Step, i: nat, p: Proc, q: Proc, v: Vertex, earlier: bool)
    requires WorkMoved(step, i, p, q) && Harmless(p, v, earlier)
    ensures Harmless(q, v, earlier)
  {
  }

  lemma MovedMarked(s: State, step: Step, i: nat, p: Proc, q: Proc, v: Vertex, earlier: bool)
    requires Moved(s, step, i, p, q) && v in s.visited && Harmless(p, v, earlier)
    ensures Harmless(q, v, earlier)
  {
    if q == p {
    } else if WalkMoved(s, step, i, p, q) {
      WalkMarked(s, step, i, p, q, v, earlier);
    } else if MainMoved(step, i, p, q) {
      assert IsMain(q);
    } else {
      WorkMarked(step, i, p, q, v, earlier);
    }
  }

  lemma NewMarked(s: State, step: Step, q: Proc, v: Vertex, n: nat)
    requires Added(s, step) == [q] && MarkedForGood(s, v, n)
    ensures Harmless(q, v, false)
  {
    assert [q][0] == q;
  }

  lemma StepMarked(g: Graph, s: State, step: Step, v: Vertex, n: nat)
    requires Enabled(g, s, step) && MarkedForGood(s, v, n)
    ensures MarkedForGood(Apply(g, s, step), v, n)
  {
    var t := Apply(g, s, step);
    StepFields(g, s, step);
    StepAdds(g, s, step);
    forall i | 0 <= i < |t.procs| ensures Harmless(t.procs[i], v, i < n) {
      if i < |s.procs| {
        MovedAt(g, s, step, i);
        MovedMarked(s, step, i, s.procs[i], t.procs[i], v, i < n);
      } else {
        AddedAt(g, s, step, i);
        NewMarked(s, step, t.procs[i], v, n);
      }
    }
  }

  lemma NextMarked(g: Graph, start: Vertex, ss: seq<State>, steps: seq<Step>, v: Vertex, k: nat, n: nat)
    requires IsRun(g, start, ss, steps) && k < |steps| && MarkedForGood(ss[k], v, n)
    ensures MarkedForGood(ss[k + 1], v, n)
  {
    NextState(g, start, ss, steps, k);
    StepMarked(g, ss[k], steps[k], v, n);
  }

  lemma {:induction false} StaysMarked(g: Graph, start: Vertex, ss: seq<State>, steps: seq<Step>, v: Vertex, i: nat, k: nat, n: nat)
    requires IsRun(g, start, ss, steps) && i <= k < |ss| && MarkedForGood(ss[i], v, n)
    ensures MarkedForGood(ss[k], v, n)
    decreases k - i
  {
    if i < k {
      NextMarked(g, start, ss, steps, v, i, n);
      StaysMarked(g, start, ss, steps, v, i + 1, k, n);
    }
  }

  /** Once v is marked and no call that found it unmarked is still on its way, v gets no goroutine any more, however many
      calls it still has. */
  lemma NoMoreGoroutines(g: Graph, start: Vertex, ss: seq<State>, steps: seq<Step>, v: Vertex, i: nat, k: nat, j: nat)
    requires IsRun(g, start, ss, steps) && i <= k < |ss| && v in ss[i].visited
    requires forall p :: p in ss[i].procs ==> p != Mark(v) && p != Spawn(v)
    requires |ss[i].procs| <= j < |ss[k].procs|
    ensures !(IsWorker(ss[k].procs[j]) && ss[k].procs[j].at == v)
  {
    var s := ss[i];
    forall x | 0 <= x < |s.procs| ensures Harmless(s.procs[x], v, true) {
      assert s.procs[x] in s.procs;
    }
    StaysMarked(g, start, ss, steps, v, i, k, |s.procs|);
    assert Harmless(ss[k].procs[j], v, false);
  }

  // ---------------------------------------------------------------- clean runs

  /** A step by which nothing goes wrong. */
  predicate CleanStep(step: Step) {
    step != Cancel && (step.EndRun? ==> step.success)
  }

  lemma {:induction false} RunClean(g: Graph, start: Vertex, ss: seq<State>, steps: seq<Step>, k: nat)
    requires IsRun(g, start, ss, steps) && k < |ss| && forall j :: 0 <= j < |steps| ==> CleanStep(steps[j])
    ensures Clean(ss[k])
  {
    if k > 0 {
      RunClean(g, start, ss, steps, k - 1);
      NextState(g, start, ss, steps, k - 1);
      assert CleanStep(steps[k - 1]);
      StepClean(g, ss[k - 1], steps[k - 1]);
    }
  }

  lemma StepClean(g: Graph, s: State, step: Step)
    requires Enabled(g, s, step) && CleanStep(step) && Clean(s)
    ensures Clean(Apply(g, s, step))
  {
    CancelOnly(g, s, step);
    if !step.BeginRun? && !step.EndRun? {
      StepFields(g, s, step);
    }
  }

  ghost predicate CleanRun(g: Graph, start: Vertex, ss: seq<State>, steps: seq<Step>) {
    IsRun(g, start, ss, steps) && forall j :: 0 <= j < |steps| ==> CleanStep(steps[j])
  }

  /** A clean run can go on cleanly until it can go no further. */
  lemma RunOut(g: Graph, start: Vertex, ss: seq<State>, steps: seq<Step>) returns (ss': seq<State>, steps': seq<Step>)
    requires Runnable(g, start) && CleanRun(g, start, ss, steps)
    ensures CleanRun(g, start, ss', steps') && Continues(ss, steps, ss', steps') && Finished(g, ss'[|steps'|])
  {
    ss', steps' := RunUnder(g, start, ss, steps, (s, step) => CleanStep(step));
    var s := ss'[|steps'|];
    forall step | step != Cancel ensures !Enabled(g, s, step) {
      if step.EndRun? {
        assert Enabled(g, s, step) <==> Enabled(g, s, EndRun(step.i, true));
        assert CleanStep(EndRun(step.i, true));
      } else {
        assert CleanStep(step);
      }
    }
    forall j | 0 <= j < |steps'| ensures CleanStep(steps'[j]) {
      if j < |steps| {
        assert steps'[j] == steps[j];
      }
    }
  }

  /** A clean run that follows the orders of a core. */
  ghost predicate CleanIn(g: Graph, start: Vertex, core: set<Vertex>, o: Orders, ss: seq<State>, steps: seq<Step>) {
    IsRunIn(g, start, core, o, ss, steps) && CleanRun(g, start, ss, steps)
  }

  lemma ExtendIn(g: Graph, start: Vertex, core: set<Vertex>, o: Orders, ss: seq<State>, steps: seq<Step>, step: Step)
    returns (ss': seq<State>, steps': seq<Step>)
    requires CleanIn(g, start, core, o, ss, steps)
    requires Enabled(g, ss[|steps|], step) && Follows(o, core, ss[|steps|], step) && CleanStep(step)
    ensures CleanIn(g, start, core, o, ss', steps') && |steps'| == |steps| + 1
    ensures ss'[|steps'|] == Apply(g, ss[|steps|], step)
  {
    ss', steps' := Extend(g, start, ss, steps, step);
    forall k | 0 <= k < |steps'| ensures Follows(o, core, ss'[k], steps'[k]) && CleanStep(steps'[k]) {
      if k < |steps| {
        assert ss'[k] == ss[k] && steps'[k] == steps[k];
        assert Follows(o, core, ss[k], steps[k]) && CleanStep(steps[k]);
      } else {
        assert ss'[k] == ss[|steps|];
      }
    }
  }

  /** A clean run goes on under a scheduler that is clean and follows the orders. */
  lemma ContinueIn(g: Graph, start: Vertex, core: set<Vertex>, o: Orders, ss: seq<State>, steps: seq<Step>,
                   ss': seq<State>, steps': seq<Step>)
    requires CleanIn(g, start, core, o, ss, steps) && IsRun(g, start, ss', steps') && Continues(ss, steps, ss', steps')
    requires forall k :: |steps| <= k < |steps'| ==> Follows(o, core, ss'[k], steps'[k]) && CleanStep(steps'[k])
    ensures CleanIn(g, start, core, o, ss', steps')
  {
    forall k | 0 <= k < |steps'| ensures Follows(o, core, ss'[k], steps'[k]) && CleanStep(steps'[k]) {
      if k < |steps| {
        assert ss'[k] == ss[k] && steps'[k] == steps[k];
        assert Follows(o, core, ss[k], steps[k]) && CleanStep(steps[k]);
      }
    }
  }

  // ---------------------------------------------------------------- gathering the calls of a vertex

  /** The scheduler that only walks, and does not let a call of v proceed. */
  ghost predicate Gathering(o: Orders, core: set<Vertex>, v: Vertex, s: State, step: Step) {
    && (step.CheckVisited? || step.MarkVisited? || step.SpawnWorker? || step.ListDownVertices? || step.ExecuteDown?)
    && Follows(o, core, s, step)
    && (step.CheckVisited? ==> step.i < |s.procs| && s.procs[step.i].Check? && s.procs[step.i].at != v)
  }

  /** All of v's calls are about to read its mark, and nothing has been sent. */
  ghost predicate Gathered(s: State, v: Vertex) {
    && v !in s.visited && s.delivered == map[]
    && forall i :: 0 <= i < |s.procs| ==> AtCheck(s.procs[i], v)
  }

  predicate AtCheck(p: Proc, v: Vertex) {
    !IsMain(p) && p.at == v ==> p.Check?
  }

  lemma StepGathered(g: Graph, o: Orders, core: set<Vertex>, s: State, step: Step, v: Vertex)
    requires Enabled(g, s, step) && Gathering(o, core, v, s, step) && Gathered(s, v)
    ensures Gathered(Apply(g, s, step), v)
  {
    var t := Apply(g, s, step);
    StepFields(g, s, step);
    if step.MarkVisited? {
      assert AtCheck(s.procs[step.i], v);
    }
    forall i | 0 <= i < |t.procs| ensures AtCheck(t.procs[i], v) {
      if i < |s.procs| {
        WalkOnly(g, s, step, i);
        assert AtCheck(s.procs[i], v);
      } else {
        AddedAt(g, s, step, i);
        NewAtCheck(s, step, t.procs[i], v);
      }
    }
  }

  /** A walking step moves by walking. */
  lemma WalkOnly(g: Graph, s: State, step: Step, i: nat)
    requires Enabled(g, s, step) && i < |s.procs|
    requires step.CheckVisited? || step.MarkVisited? || step.SpawnWorker? || step.ListDownVertices? || step.ExecuteDown?
    ensures i < |Apply(g, s, step).procs|
    ensures Apply(g, s, step).procs[i] == s.procs[i] || WalkMoved(s, step, i, s.procs[i], Apply(g, s, step).procs[i])
  {
    WalkMovedAt(g, s, step, i);
  }

  lemma NewAtCheck(s: State, step: Step, q: Proc, v: Vertex)
    requires Added(s, step) == [q] && forall i :: 0 <= i < |s.procs| ==> AtCheck(s.procs[i], v)
    ensures AtCheck(q, v)
  {
    assert [q][0] == q;
    if step.SpawnWorker? {
      assert AtCheck(s.procs[step.i], v);
    }
  }

  lemma {:induction false} RunGathered(g: Graph, start: Vertex, o: Orders, core: set<Vertex>, v: Vertex,
                                       ss: seq<State>, steps: seq<Step>, k: nat)
    requires IsRun(g, start, ss, steps) && k < |ss| && v != start
    requires forall j :: 0 <= j < |steps| ==> Gathering(o, core, v, ss[j], steps[j])
    ensures Gathered(ss[k], v)
  {
    if k > 0 {
      RunGathered(g, start, o, core, v, ss, steps, k - 1);
      NextState(g, start, ss, steps, k - 1);
      assert Gathering(o, core, v, ss[k - 1], steps[k - 1]);
      StepGathered(g, o, core, ss[k - 1], steps[k - 1], v);
    }
  }

  /** When no such step is left, every other walk is through with its down vertices. */
  lemma GatheredPast(g: Graph, start: Vertex, o: Orders, core: set<Vertex>, v: Vertex, s: State, i: nat, w: Vertex)
    requires Good(g, start, s) && OrdersFor(g, core, o)
    requires forall step :: Gathering(o, core, v, s, step) ==> !Enabled(g, s, step)
    requires i < |s.procs| && IsWalker(s.procs[i]) && s.procs[i].at != v
    ensures PastCall(s.procs[i], w)
  {
    var p := s.procs[i];
    if !p.Walked? && !(p.Descend? && p.todo == []) {
      var step := UnblockedMoves(g, start, core, o, s, i);
      assert Gathering(o, core, v, s, step);
    }
  }

  lemma LeadsPast(g: Graph, start: Vertex, o: Orders, core: set<Vertex>, v: Vertex, s: State, c: Calls, p: seq<Vertex>)
    requires Runnable(g, start) && Good(g, start, s) && OrdersFor(g, core, o) && Calling(g, start, s, c)
    requires forall step :: Gathering(o, core, v, s, step) ==> !Enabled(g, s, step)
    requires IsPathBetween(g.edges, start, v, p)
    ensures PastAlong(s, c, p)
  {
    forall k, m | k in c && k < |s.procs| && 0 < m < |p| && c[k] == p[..m] ensures PastCall(s.procs[k], p[m]) {
      assert CallAlong(g, start, s, k, c[k]);
      TailNotStart(g.edges, p, m - 1);
      if IsWalker(s.procs[k]) {
        GatheredPast(g, start, o, core, v, s, k, p[m]);
      }
    }
  }

  lemma TailNotStart(es: set<Edge>, p: seq<Vertex>, m: nat)
    requires Acyclic(es) && IsPath(es, p) && m < |p| - 1
    ensures p[m] != p[|p| - 1]
  {
    var q := p[m..];
    assert forall i :: 0 <= i < |q| - 1 ==> Edge(q[i], q[i + 1]) == Edge(p[m + i], p[m + i + 1]);
    AcyclicPathOpen(es, q);
  }

  lemma PathSnoc(es: set<Edge>, q: seq<Vertex>, v: Vertex)
    requires IsPath(es, q) && Edge(q[|q| - 1], v) in es
    ensures IsPathBetween(es, q[0], v, q + [v])
  {
    var p := q + [v];
    forall i | 0 <= i < |p| - 1 ensures Edge(p[i], p[i + 1]) in es {
      if i < |q| - 1 {
        assert Edge(q[i], q[i + 1]) in es;
      }
    }
  }

  /** A call of v came along a path through each vertex with an edge into v. */
  lemma CallThrough(g: Graph, start: Vertex, o: Orders, core: set<Vertex>, v: Vertex, s: State, c: Calls, a: Vertex)
    returns (k: nat)
    requires Runnable(g, start) && Good(g, start, s) && OrdersFor(g, core, o) && Calling(g, start, s, c) && Gathered(s, v)
    requires forall step :: Gathering(o, core, v, s, step) ==> !Enabled(g, s, step)
    requires Edge(a, v) in g.edges && Reaches(g.edges, start, a)
    ensures k in c && k < |s.procs| && s.procs[k] == Check(v) && |c[k]| > 1 && c[k][|c[k]| - 2] == a
  {
    var q :| IsPathBetween(g.edges, start, a, q);
    var p := q + [v];
    PathSnoc(g.edges, q, v);
    LeadsPast(g, start, o, core, v, s, c, p);
    PathCalled(g, start, s, c, p, |p|);
    assert p[..|p|] == p;
    k :| k in c && c[k] == p;
    assert CallAlong(g, start, s, k, c[k]);
    PredecessorsContain(g.edges, a, v);
    assert AtCheck(s.procs[k], v);
  }

  /** Walking until only calls of v are left to look at its mark brings two of them together. */
  lemma GatherTwo(g: Graph, start: Vertex, core: set<Vertex>, o: Orders, v: Vertex, a: Vertex, b: Vertex)
    returns (ss: seq<State>, steps: seq<Step>, k: nat, l: nat)
    requires Runnable(g, start) && OrdersFor(g, core, o) && a != b
    requires Edge(a, v) in g.edges && Edge(b, v) in g.edges && Reaches(g.edges, start, a) && Reaches(g.edges, start, b)
    ensures CleanIn(g, start, core, o, ss, steps)
    ensures Gathered(ss[|steps|], v) && k != l && k < |ss[|steps|].procs| && l < |ss[|steps|].procs|
    ensures ss[|steps|].procs[k] == Check(v) && ss[|steps|].procs[l] == Check(v)
  {
    PredecessorsContain(g.edges, a, v);
    ss, steps := RunUnder(g, start, [Init(start)], [], (s, step) => Gathering(o, core, v, s, step));
    RunGathered(g, start, o, core, v, ss, steps, |steps|);
    ContinueIn(g, start, core, o, [Init(start)], [], ss, steps);
    RunGood(g, start, ss, steps, |steps|);
    var c := RunCalling(g, start, ss, steps, |steps|);
    k := CallThrough(g, start, o, core, v, ss[|steps|], c, a);
    l := CallThrough(g, start, o, core, v, ss[|steps|], c, b);
  }
}
