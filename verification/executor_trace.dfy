/** What a run of the executor leaves in its trace, and what the result of Run says about it. */
module ExecutorTrace {
  import opened Graphs
  import opened Executor
  import opened ExecutorSteps
  import opened ExecutorSafety

  // ---------------------------------------------------------------- the invariant

  ghost predicate TracedOf(trace: seq<Event>, p: Proc) {
    && (HasStarted(p) ==> p.at in StartedIn(trace))
    && (HasFinished(p) ==> p.at in ResultsIn(trace) && ResultsIn(trace)[p.at] == p.ok)
  }

  ghost predicate StartedBySome(s: State, v: Vertex) {
    exists i :: 0 <= i < |s.procs| && HasStarted(s.procs[i]) && s.procs[i].at == v
  }

  ghost predicate FinishedBySome(s: State, v: Vertex) {
    exists i :: 0 <= i < |s.procs| && HasFinished(s.procs[i]) && s.procs[i].at == v
  }

  /** The trace is legal and records exactly what the goroutines have been through. */
  ghost predicate Traced(g: Graph, s: State) {
    && Legal(g, s.trace)
    && (forall i :: 0 <= i < |s.procs| ==> TracedOf(s.trace, s.procs[i]))
    && (forall v :: v in StartedIn(s.trace) ==> StartedBySome(s, v))
    && (forall v :: v in ResultsIn(s.trace) ==> FinishedBySome(s, v))
    && (forall e :: e in s.delivered ==> e.from in ResultsIn(s.trace))
  }

  predicate MainPassed(s: State, v: Vertex)
    requires |s.procs| > 0
  {
    s.procs[0].MainDone? || (s.procs[0].MainWait? && v !in s.procs[0].todo)
  }

  ghost predicate EndedBySome(s: State, v: Vertex) {
    exists i :: 0 <= i < |s.procs| && s.procs[i].Ended? && s.procs[i].at == v
  }

  /** What the main goroutine knows when it is where it is. */
  ghost predicate MainKnows(g: Graph, s: State)
    requires |s.procs| > 0
  {
    var results := ResultsIn(s.trace);
    match s.procs[0]
    case MainWait(todo) => forall v :: v in g.vertices && v !in todo ==> v in results && results[v]
    case MainDone(true) => forall v :: v in g.vertices ==> v in results && results[v]
    case MainDone(false) => s.cancelled || exists v :: v in results && !results[v]
    case _ => true
  }

  ghost predicate Reports(g: Graph, s: State) {
    && |s.procs| > 0
    && (forall i :: 0 <= i < |s.procs| && HasReported(s.procs[i]) ==> MainPassed(s, s.procs[i].at))
    && (forall v :: v in s.doneClosed ==> EndedBySome(s, v))
    && MainKnows(g, s)
  }

  // ---------------------------------------------------------------- preservation

  /** As far as the trace is concerned nothing happened to the goroutine. */
  predicate SameStage(p: Proc, q: Proc) {
    && HasStarted(p) == HasStarted(q)
    && HasFinished(p) == HasFinished(q)
    && (HasStarted(p) ==> p.at == q.at)
    && (HasFinished(p) ==> p.ok == q.ok)
  }

  lemma TracedStays(g: Graph, s: State, t: State)
    requires Traced(g, s) && t.trace == s.trace && |s.procs| <= |t.procs|
    requires forall i :: 0 <= i < |s.procs| ==> SameStage(s.procs[i], t.procs[i])
    requires forall i :: |s.procs| <= i < |t.procs| ==> !HasStarted(t.procs[i])
    requires forall e :: e in t.delivered ==> e.from in ResultsIn(t.trace)
    ensures Traced(g, t)
  {
    forall i | 0 <= i < |t.procs| ensures TracedOf(t.trace, t.procs[i]) {
      if i < |s.procs| {
        assert TracedOf(s.trace, s.procs[i]);
      }
    }
    forall v | v in StartedIn(t.trace) ensures StartedBySome(t, v) {
      assert StartedBySome(s, v);
      var i :| 0 <= i < |s.procs| && HasStarted(s.procs[i]) && s.procs[i].at == v;
      assert HasStarted(t.procs[i]) && t.procs[i].at == v;
    }
    forall v | v in ResultsIn(t.trace) ensures FinishedBySome(t, v) {
      assert FinishedBySome(s, v);
      var i :| 0 <= i < |s.procs| && HasFinished(s.procs[i]) && s.procs[i].at == v;
      assert HasFinished(t.procs[i]) && t.procs[i].at == v;
    }
  }

  lemma TraceExtend(trace: seq<Event>, ev: Event)
    ensures StartedIn(trace + [ev]) == StartedIn(trace) + (if ev.Start? then {ev.v} else {})
    ensures ResultsIn(trace + [ev]) == if ev.Finish? then ResultsIn(trace)[ev.v := ev.success] else ResultsIn(trace)
  {
    assert (trace + [ev])[..|trace|] == trace;
  }

  lemma LegalExtend(g: Graph, trace: seq<Event>, ev: Event)
    requires Legal(g, trace) && MayFollow(g, trace, ev)
    ensures Legal(g, trace + [ev])
    ensures StartedIn(trace + [ev]) == StartedIn(trace) + (if ev.Start? then {ev.v} else {})
    ensures ResultsIn(trace + [ev]) == if ev.Finish? then ResultsIn(trace)[ev.v := ev.success] else ResultsIn(trace)
  {
    var next := trace + [ev];
    TraceExtend(trace, ev);
    forall k | 0 <= k < |next| ensures MayFollow(g, next[..k], next[k]) {
      assert next[..k] == trace[..k];
      assert trace[..|trace|] == trace;
    }
  }

  /** The goroutine is at the point of calling BlockRun: the vertex never ran and its dependencies returned. */
  lemma TracedBeginRun(g: Graph, start: Vertex, s: State, i: nat)
    requires Inv(g, start, s) && Traced(g, s) && i < |s.procs| && s.procs[i].Wait? && s.procs[i].todo == []
    ensures MayFollow(g, s.trace, Start(s.procs[i].at))
  {
    var v := s.procs[i].at;
    InvOneReady(g, start, s);
    if v in StartedIn(s.trace) {
      assert StartedBySome(s, v);
      var j :| 0 <= j < |s.procs| && HasStarted(s.procs[j]) && s.procs[j].at == v;
      assert BothReady(s, i, j);
    }
    assert Local(g, start, s, i);
    forall u | u in Predecessors(g.edges, v) ensures u in ResultsIn(s.trace) {
      assert Got(s, i, u, v);
      assert Edge(u, v).from == u;
    }
  }

  lemma TracedEndRun(g: Graph, start: Vertex, s: State, i: nat, success: bool)
    requires Inv(g, start, s) && Traced(g, s) && i < |s.procs| && s.procs[i].Running?
    ensures MayFollow(g, s.trace, Finish(s.procs[i].at, success))
  {
    var v := s.procs[i].at;
    InvOneReady(g, start, s);
    assert TracedOf(s.trace, s.procs[i]);
    if v in ResultsIn(s.trace) {
      assert FinishedBySome(s, v);
      var j :| 0 <= j < |s.procs| && HasFinished(s.procs[j]) && s.procs[j].at == v;
      assert BothReady(s, i, j);
    }
  }

  /** One goroutine moves on while the trace grows by its event. */
  lemma TracedMoves(g: Graph, s: State, t: State, i: nat, q: Proc, ev: Event)
    requires Traced(g, s) && i < |s.procs| && MayFollow(g, s.trace, ev)
    requires t.procs == s.procs[i := q] && t.trace == s.trace + [ev] && t.delivered == s.delivered
    requires HasStarted(q) && q.at == ev.v && (HasFinished(q) <==> ev.Finish?)
    requires ev.Start? ==> !HasStarted(s.procs[i])
    requires ev.Finish? ==> s.procs[i].Running? && s.procs[i].at == ev.v && q.ok == ev.success
    ensures Traced(g, t)
  {
    LegalExtend(g, s.trace, ev);
    forall k | 0 <= k < |t.procs| ensures TracedOf(t.trace, t.procs[k]) {
      assert TracedOf(s.trace, s.procs[k]);
    }
    forall v | v in StartedIn(t.trace) ensures StartedBySome(t, v) {
      if v == ev.v {
        assert HasStarted(t.procs[i]);
      } else {
        assert StartedBySome(s, v);
        var k :| 0 <= k < |s.procs| && HasStarted(s.procs[k]) && s.procs[k].at == v;
        assert HasStarted(t.procs[k]) && t.procs[k].at == v;
      }
    }
    forall v | v in ResultsIn(t.trace) ensures FinishedBySome(t, v) {
      if v == ev.v && ev.Finish? {
        assert HasFinished(t.procs[i]);
      } else {
        assert FinishedBySome(s, v);
        var k :| 0 <= k < |s.procs| && HasFinished(s.procs[k]) && s.procs[k].at == v;
        assert HasFinished(t.procs[k]) && t.procs[k].at == v;
      }
    }
  }

  lemma StageStays(g: Graph, s: State, step: Step)
    requires Enabled(g, s, step) && !step.BeginRun? && !step.EndRun?
    ensures var t := Apply(g, s, step);
            && t.trace == s.trace && |s.procs| <= |t.procs|
            && (forall i :: 0 <= i < |s.procs| ==> SameStage(s.procs[i], t.procs[i]))
            && (forall i :: |s.procs| <= i < |t.procs| ==> !HasStarted(t.procs[i]))
  {
    var t := Apply(g, s, step);
    StepFields(g, s, step);
    StepAdds(g, s, step);
    forall i | 0 <= i < |s.procs| ensures SameStage(s.procs[i], t.procs[i]) {
      MovedAt(g, s, step, i);
      MovedStage(s, step, i, s.procs[i], t.procs[i]);
    }
    forall i | |s.procs| <= i < |t.procs| ensures !HasStarted(t.procs[i]) {
      AddedAt(g, s, step, i);
      NewNotStarted(s, step, t.procs[i]);
    }
  }

  lemma WalkStage(s: State, step: Step, i: nat, p: Proc, q: Proc)
    requires WalkMoved(s, step, i, p, q)
    requires !step.BeginRun? && !step.EndRun?
    ensures SameStage(p, q)
  {
  }

  lemma WorkStage(s: State, step: Step, i: nat, p: Proc, q: Proc)
    requires WorkMoved(step, i, p, q)
    requires !step.BeginRun? && !step.EndRun?
    ensures SameStage(p, q)
  {
  }

  lemma MainStage(s: State, step: Step, i: nat, p: Proc, q: Proc)
    requires MainMoved(step, i, p, q)
    requires !step.BeginRun? && !step.EndRun?
    ensures SameStage(p, q)
  {
  }

  lemma MovedStage(s: State, step: Step, i: nat, p: Proc, q: Proc)
    requires Moved(s, step, i, p, q)
    requires !step.BeginRun? && !step.EndRun?
    ensures SameStage(p, q)
  {
    if q == p {
    } else if WalkMoved(s, step, i, p, q) {
      WalkStage(s, step, i, p, q);
    } else if MainMoved(step, i, p, q) {
      MainStage(s, step, i, p, q);
    } else {
      WorkStage(s, step, i, p, q);
    }
  }

  lemma NewNotStarted(s: State, step: Step, q: Proc)
    requires Added(s, step) == [q]
    ensures !HasStarted(q)
  {
    assert [q][0] == q;
  }

  lemma StepTraced(g: Graph, start: Vertex, s: State, step: Step)
    requires Inv(g, start, s) && Traced(g, s) && Enabled(g, s, step)
    ensures Traced(g, Apply(g, s, step))
  {
    var t := Apply(g, s, step);
    if step.BeginRun? {
      TracedBeginRun(g, start, s, step.i);
      TracedMoves(g, s, t, step.i, t.procs[step.i], Start(s.procs[step.i].at));
    } else if step.EndRun? {
      TracedEndRun(g, start, s, step.i, step.success);
      TracedMoves(g, s, t, step.i, t.procs[step.i], Finish(s.procs[step.i].at, step.success));
    } else {
      StageStays(g, s, step);
      if step.Deliver? {
        assert TracedOf(s.trace, s.procs[step.i]);
      }
      TracedStays(g, s, t);
    }
  }

  // ---------------------------------------------------------------- the done channels and the main goroutine

  /** A done channel that is closed was closed by the vertex's one ready goroutine, after main took its value. */
  lemma DoneChannelOpen(g: Graph, start: Vertex, s: State, i: nat)
    requires Inv(g, start, s) && Reports(g, s) && i < |s.procs| && (s.procs[i].SendDone? || s.procs[i].CloseDone?)
    ensures s.procs[i].at !in s.doneClosed
  {
    if s.procs[i].at in s.doneClosed {
      InvOneReady(g, start, s);
      assert EndedBySome(s, s.procs[i].at);
      var j :| 0 <= j < |s.procs| && s.procs[j].Ended? && s.procs[j].at == s.procs[i].at;
      assert BothReady(s, i, j);
    }
  }

  lemma MainNeverReceivesClosed(g: Graph, s: State)
    requires Reports(g, s)
    ensures !Enabled(g, s, MainReceivesClosed)
  {
  }

  /** Results never change once recorded. */
  lemma ResultsGrow(g: Graph, start: Vertex, s: State, step: Step)
    requires Inv(g, start, s) && Traced(g, s) && Enabled(g, s, step)
    ensures var before, after := ResultsIn(s.trace), ResultsIn(Apply(g, s, step).trace);
            before.Keys <= after.Keys && forall v :: v in before ==> after[v] == before[v]
  {
    if step.BeginRun? {
      TracedBeginRun(g, start, s, step.i);
      LegalExtend(g, s.trace, Start(s.procs[step.i].at));
    } else if step.EndRun? {
      TracedEndRun(g, start, s, step.i, step.success);
      LegalExtend(g, s.trace, Finish(s.procs[step.i].at, step.success));
    } else {
      StageStays(g, s, step);
    }
  }

  /** A step that is not about reporting: nothing it touches matters to the main goroutine. */
  lemma StepReportsElsewhere(g: Graph, start: Vertex, s: State, step: Step)
    requires Inv(g, start, s) && Traced(g, s) && Reports(g, s) && Enabled(g, s, step)
    requires !step.Report? && !step.CloseReport? && !step.AwaitAll?
    requires !step.MainReturns? && !step.MainCancelled? && !step.MainReceivesClosed?
    ensures Reports(g, Apply(g, s, step))
  {
    var t := Apply(g, s, step);
    ResultsGrow(g, start, s, step);
    MainStays(g, s, step);
    EndedStays(s, t);
  }

  lemma MainStays(g: Graph, s: State, step: Step)
    requires Enabled(g, s, step)
    requires !step.Report? && !step.CloseReport? && !step.AwaitAll?
    requires !step.MainReturns? && !step.MainCancelled? && !step.MainReceivesClosed?
    ensures var t := Apply(g, s, step);
            && |s.procs| <= |t.procs| && t.doneClosed == s.doneClosed && (s.cancelled ==> t.cancelled)
            && (IsMain(s.procs[0]) ==> t.procs[0] == s.procs[0])
            && (IsMain(t.procs[0]) ==> t.procs[0] == s.procs[0])
            && (forall i :: 0 <= i < |s.procs| && HasReported(s.procs[i]) ==> t.procs[i] == s.procs[i])
            && (forall i :: 0 <= i < |t.procs| && HasReported(t.procs[i]) ==> i < |s.procs| && t.procs[i] == s.procs[i])
  {
    var t := Apply(g, s, step);
    StepFields(g, s, step);
    StepAdds(g, s, step);
    forall i | 0 <= i < |s.procs| ensures ReportStays(i, s.procs[i], t.procs[i]) {
      MovedAt(g, s, step, i);
      MovedReport(s, step, i, s.procs[i], t.procs[i]);
    }
    forall i | |s.procs| <= i < |t.procs| ensures !HasReported(t.procs[i]) {
      AddedAt(g, s, step, i);
      NewNotStarted(s, step, t.procs[i]);
    }
  }

  predicate ReportStays(i: nat, p: Proc, q: Proc) {
    HasReported(p) || HasReported(q) || (i == 0 && (IsMain(p) || IsMain(q))) ==> q == p
  }

  lemma WalkReport(s: State, step: Step, i: nat, p: Proc, q: Proc)
    requires WalkMoved(s, step, i, p, q)
    requires !step.Report? && !step.CloseReport? && !step.AwaitAll?
    requires !step.MainReturns? && !step.MainCancelled? && !step.MainReceivesClosed?
    ensures ReportStays(i, p, q)
  {
  }

  lemma WorkReport(s: State, step: Step, i: nat, p: Proc, q: Proc)
    requires WorkMoved(step, i, p, q)
    requires !step.Report? && !step.CloseReport? && !step.AwaitAll?
    requires !step.MainReturns? && !step.MainCancelled? && !step.MainReceivesClosed?
    ensures ReportStays(i, p, q)
  {
  }

  lemma MovedReport(s: State, step: Step, i: nat, p: Proc, q: Proc)
    requires Moved(s, step, i, p, q)
    requires !step.Report? && !step.CloseReport? && !step.AwaitAll?
    requires !step.MainReturns? && !step.MainCancelled? && !step.MainReceivesClosed?
    ensures ReportStays(i, p, q)
  {
    assert !MainMoved(step, i, p, q);
    if q == p {
    } else if WalkMoved(s, step, i, p, q) {
      WalkReport(s, step, i, p, q);
    } else {
      WorkReport(s, step, i, p, q);
    }
  }

  lemma StepReportsMain(g: Graph, start: Vertex, s: State, step: Step)
    requires Inv(g, start, s) && Traced(g, s) && Reports(g, s) && Enabled(g, s, step)
    requires step.AwaitAll? || step.MainReturns? || step.MainCancelled?
    ensures Reports(g, Apply(g, s, step))
  {
    var t := Apply(g, s, step);
    EndedStays(s, t);
  }

  lemma EndedStays(s: State, t: State)
    requires t.doneClosed == s.doneClosed && |s.procs| <= |t.procs|
    requires forall v :: v in s.doneClosed ==> EndedBySome(s, v)
    requires forall i :: 0 <= i < |s.procs| && s.procs[i].Ended? ==> t.procs[i] == s.procs[i]
    ensures forall v :: v in t.doneClosed ==> EndedBySome(t, v)
  {
    forall v | v in t.doneClosed ensures EndedBySome(t, v) {
      assert EndedBySome(s, v);
      var i :| 0 <= i < |s.procs| && s.procs[i].Ended? && s.procs[i].at == v;
      assert t.procs[i] == s.procs[i];
    }
  }

  /** Main takes the value at the head of its list. */
  lemma ReportKnown(g: Graph, start: Vertex, s: State, step: Step)
    requires Inv(g, start, s) && Traced(g, s) && Reports(g, s) && Enabled(g, s, step) && step.Report?
    ensures |Apply(g, s, step).procs| > 0 && MainKnows(g, Apply(g, s, step))
  {
    assert Local(g, start, s, 0);
    assert TracedOf(s.trace, s.procs[step.i]);
  }

  lemma ReportPassed(g: Graph, start: Vertex, s: State, step: Step, i: nat)
    requires Inv(g, start, s) && Reports(g, s) && Enabled(g, s, step) && step.Report?
    requires i < |Apply(g, s, step).procs| && HasReported(Apply(g, s, step).procs[i])
    ensures MainPassed(Apply(g, s, step), Apply(g, s, step).procs[i].at)
  {
    assert Local(g, start, s, 0);
    if i != step.i {
      assert HasReported(s.procs[i]) && MainPassed(s, s.procs[i].at);
    }
  }

  lemma StepReportsReport(g: Graph, start: Vertex, s: State, step: Step)
    requires Inv(g, start, s) && Traced(g, s) && Reports(g, s) && Enabled(g, s, step) && step.Report?
    ensures Reports(g, Apply(g, s, step))
  {
    var t := Apply(g, s, step);
    ReportKnown(g, start, s, step);
    forall i | 0 <= i < |t.procs| && HasReported(t.procs[i]) ensures MainPassed(t, t.procs[i].at) {
      ReportPassed(g, start, s, step, i);
    }
    EndedStays(s, t);
  }

  lemma StepReportsClose(g: Graph, start: Vertex, s: State, step: Step)
    requires Inv(g, start, s) && Traced(g, s) && Reports(g, s) && Enabled(g, s, step) && step.CloseReport?
    ensures Reports(g, Apply(g, s, step)) && !Apply(g, s, step).panicked
  {
    var t := Apply(g, s, step);
    DoneChannelOpen(g, start, s, step.i);
    forall v | v in t.doneClosed ensures EndedBySome(t, v) {
      if v == s.procs[step.i].at {
        assert t.procs[step.i].Ended?;
      } else {
        assert EndedBySome(s, v);
        var i :| 0 <= i < |s.procs| && s.procs[i].Ended? && s.procs[i].at == v;
        assert t.procs[i] == s.procs[i];
      }
    }
  }

  // ---------------------------------------------------------------- every run

  ghost predicate Good(g: Graph, start: Vertex, s: State) {
    Inv(g, start, s) && Traced(g, s) && Reports(g, s) && !s.panicked
  }

  lemma InvSameChannels(g: Graph, start: Vertex, s: State, t: State)
    requires Inv(g, start, s) && t.procs == s.procs && t.delivered == s.delivered && t.closed == s.closed
    ensures Inv(g, start, t)
  {
    forall i | 0 <= i < |t.procs| ensures Local(g, start, t, i) {
      assert Local(g, start, s, i);
    }
    forall e | e in t.delivered ensures HasSender(t, e.from) {
      assert HasSender(s, e.from);
    }
  }

  lemma StepInvOneMove(g: Graph, start: Vertex, s: State, step: Step)
    requires Runnable(g, start) && Inv(g, start, s) && Enabled(g, s, step)
    requires !step.SpawnWorker? && !step.ExecuteDown? && !step.Deliver? && !step.CloseEdge? && !step.Report?
    requires !step.SendOnClosed? && !step.ReportOnClosed? && !step.Cancel?
    ensures Inv(g, start, Apply(g, s, step))
  {
    if step.CheckVisited? || step.MarkVisited? || step.ListDownVertices? || step.EndWalk? {
      StepWalk(g, start, s, step);
    } else if step.AwaitAll? || step.MainReceivesClosed? || step.MainCancelled? || step.MainReturns? {
      StepMain(g, start, s, step);
    } else {
      StepWork(g, start, s, step);
    }
  }

  lemma StepInv(g: Graph, start: Vertex, s: State, step: Step)
    requires Runnable(g, start) && Inv(g, start, s) && Enabled(g, s, step)
    ensures Inv(g, start, Apply(g, s, step))
  {
    if step.SendOnClosed? || step.ReportOnClosed? || step.Cancel? {
      InvSameChannels(g, start, s, Apply(g, s, step));
    } else if step.SpawnWorker? {
      StepSpawnWorker(g, start, s, step);
    } else if step.ExecuteDown? {
      StepExecuteDown(g, start, s, step);
    } else if step.Deliver? {
      StepDeliver(g, start, s, step);
    } else if step.CloseEdge? {
      StepCloseEdge(g, start, s, step);
    } else if step.Report? {
      StepReport(g, start, s, step);
    } else {
      StepInvOneMove(g, start, s, step);
    }
  }

  lemma StepReports(g: Graph, start: Vertex, s: State, step: Step)
    requires Inv(g, start, s) && Traced(g, s) && Reports(g, s) && Enabled(g, s, step)
    ensures Reports(g, Apply(g, s, step))
  {
    if step.Report? {
      StepReportsReport(g, start, s, step);
    } else if step.CloseReport? {
      StepReportsClose(g, start, s, step);
    } else if step.AwaitAll? || step.MainReturns? || step.MainCancelled? {
      StepReportsMain(g, start, s, step);
    } else {
      MainNeverReceivesClosed(g, s);
      StepReportsElsewhere(g, start, s, step);
    }
  }

  lemma StepQuiet(g: Graph, start: Vertex, s: State, step: Step)
    requires Runnable(g, start) && Good(g, start, s) && Enabled(g, s, step)
    ensures !Apply(g, s, step).panicked
  {
    match step
    case CloseEdge(_) => StepCloseEdge(g, start, s, step);
    case CloseReport(_) => StepReportsClose(g, start, s, step);
    case ReportOnClosed(i) => DoneChannelOpen(g, start, s, i);
    case SendOnClosed(i) => SendOpen(g, start, s, i);
    case _ =>
  }

  /** A channel still to be served is open. */
  lemma SendOpen(g: Graph, start: Vertex, s: State, i: nat)
    requires Inv(g, start, s) && i < |s.procs| && s.procs[i].Send? && s.procs[i].todo != []
    ensures Edge(s.procs[i].at, s.procs[i].todo[0]) !in s.closed
  {
    assert Local(g, start, s, i);
    assert s.procs[i].todo[0] in s.procs[i].todo;
    assert !HasClosed(s.procs[i], s.procs[i].todo[0]);
  }

  lemma InitGood(g: Graph, start: Vertex)
    requires Runnable(g, start)
    ensures Good(g, start, Init(start))
  {
    InitInv(g, start);
  }

  lemma StepGood(g: Graph, start: Vertex, s: State, step: Step)
    requires Runnable(g, start) && Good(g, start, s) && Enabled(g, s, step)
    ensures Good(g, start, Apply(g, s, step))
  {
    StepInv(g, start, s, step);
    StepTraced(g, start, s, step);
    StepReports(g, start, s, step);
    StepQuiet(g, start, s, step);
  }

  /** Every state of every run is good. */
  lemma {:induction false} RunGood(g: Graph, start: Vertex, ss: seq<State>, steps: seq<Step>, k: nat)
    requires Runnable(g, start) && IsRun(g, start, ss, steps) && k < |ss|
    ensures Good(g, start, ss[k])
  {
    if k == 0 {
      InitGood(g, start);
    } else {
      RunGood(g, start, ss, steps, k - 1);
      assert ss[k - 1 + 1] == Apply(g, ss[k - 1], steps[k - 1]);
      StepGood(g, start, ss[k - 1], steps[k - 1]);
    }
  }

  // ---------------------------------------------------------------- main results

  lemma {:induction false} StartedOccurs(trace: seq<Event>, v: Vertex) returns (k: nat)
    requires v in StartedIn(trace)
    ensures k < |trace| && trace[k] == Start(v)
  {
    var n := |trace| - 1;
    if trace[n] == Start(v) {
      k := n;
    } else {
      k := StartedOccurs(trace[..n], v);
    }
  }

  lemma {:induction false} FinishOccurs(trace: seq<Event>, v: Vertex) returns (k: nat)
    requires v in ResultsIn(trace)
    ensures k < |trace| && trace[k] == Finish(v, ResultsIn(trace)[v])
  {
    var n := |trace| - 1;
    if trace[n].Finish? && trace[n].v == v {
      k := n;
    } else {
      k := FinishOccurs(trace[..n], v);
    }
  }

  lemma {:induction false} StartRecorded(trace: seq<Event>, k: nat)
    requires k < |trace|
    ensures trace[k].Start? ==> trace[k].v in StartedIn(trace)
    ensures trace[k].Finish? ==> trace[k].v in ResultsIn(trace)
  {
    var n := |trace| - 1;
    if k < n {
      assert trace[..n][k] == trace[k];
      StartRecorded(trace[..n], k);
    }
  }

  /** In a legal trace no event repeats and no vertex returns twice. */
  lemma LegalOnce(g: Graph, trace: seq<Event>, i: nat, j: nat)
    requires Legal(g, trace) && i < j < |trace| && trace[i].v == trace[j].v
    ensures trace[i].Start? && trace[j].Finish?
  {
    assert MayFollow(g, trace[..j], trace[j]);
    assert trace[..j][i] == trace[i];
    StartRecorded(trace[..j], i);
    if trace[i].Finish? && trace[j].Start? {
      assert MayFollow(g, trace[..i], trace[i]);
      var k := StartedOccurs(trace[..i], trace[i].v);
      assert trace[..j][k] == trace[k];
      StartRecorded(trace[..j], k);
    }
  }

  /** In a legal trace a vertex starts only after every ancestor, along any path, has returned. */
  lemma {:induction false} LegalAncestors(g: Graph, trace: seq<Event>, u: Vertex, w: Vertex, k: nat) returns (j: nat)
    requires Legal(g, trace) && Acyclic(g.edges) && Reaches(g.edges, u, w) && u != w
    requires k < |trace| && trace[k] == Start(w)
    ensures j < k && trace[j].Finish? && trace[j].v == u
    decreases |Descendants(g.edges, u)| - |Descendants(g.edges, w)|
  {
    var x := ReachesLast(g.edges, u, w);
    PredecessorsContain(g.edges, x, w);
    assert MayFollow(g, trace[..k], trace[k]);
    j := FinishOccurs(trace[..k], x);
    if x != u {
      assert MayFollow(g, trace[..j], trace[j]);
      var i := StartedOccurs(trace[..j], x);
      AcyclicEdgeProper(g.edges, x, w);
      DescendantsShrink(g.edges, x, w);
      DescendantsShrink(g.edges, u, x);
      j := LegalAncestors(g, trace, u, x, i);
    }
  }

  /** At most once: in no interleaving does BlockRun of a vertex start a second time, although two goroutines may be
      spawned for it. */
  lemma RunsAtMostOnce(g: Graph, start: Vertex, ss: seq<State>, steps: seq<Step>, v: Vertex, i: nat, j: nat)
    requires Runnable(g, start) && IsRun(g, start, ss, steps)
    requires var trace := ss[|steps|].trace;
             i < |trace| && j < |trace| && trace[i] == Start(v) && trace[j] == Start(v)
    ensures i == j
  {
    RunGood(g, start, ss, steps, |steps|);
    var trace := ss[|steps|].trace;
    if i < j {
      LegalOnce(g, trace, i, j);
    } else if j < i {
      LegalOnce(g, trace, j, i);
    }
  }

  /** Ordering: in every interleaving a vertex starts only after each of its ancestors has returned. */
  lemma RunsAfterAncestors(g: Graph, start: Vertex, ss: seq<State>, steps: seq<Step>, u: Vertex, w: Vertex, k: nat)
    requires Runnable(g, start) && IsRun(g, start, ss, steps) && Reaches(g.edges, u, w) && u != w
    requires k < |ss[|steps|].trace| && ss[|steps|].trace[k] == Start(w)
    ensures exists j :: 0 <= j < k && ss[|steps|].trace[j].Finish? && ss[|steps|].trace[j].v == u
  {
    RunGood(g, start, ss, steps, |steps|);
    var j := LegalAncestors(g, ss[|steps|].trace, u, w, k);
  }

  /** No interleaving sends on a closed channel or closes one twice, and main never reads a closed done channel. */
  lemma NoChannelMisuse(g: Graph, start: Vertex, ss: seq<State>, steps: seq<Step>)
    requires Runnable(g, start) && IsRun(g, start, ss, steps)
    ensures !ss[|steps|].panicked
    ensures !(MainReceivesClosed in steps)
  {
    RunGood(g, start, ss, steps, |steps|);
    forall k | 0 <= k < |steps| ensures steps[k] != MainReceivesClosed {
      RunGood(g, start, ss, steps, k);
      MainNeverReceivesClosed(g, ss[k]);
    }
  }

  /** A true result of Run: every vertex started exactly once, returned exactly once, and returned true. */
  lemma RunTrue(g: Graph, start: Vertex, ss: seq<State>, steps: seq<Step>, v: Vertex) returns (i: nat, j: nat)
    requires Runnable(g, start) && IsRun(g, start, ss, steps) && v in g.vertices
    requires |ss[|steps|].procs| > 0 && ss[|steps|].procs[0] == MainDone(true)
    ensures var trace := ss[|steps|].trace;
            && i < j < |trace| && trace[i] == Start(v) && trace[j] == Finish(v, true)
            && forall k :: 0 <= k < |trace| && trace[k].v == v ==> k == i || k == j
  {
    RunGood(g, start, ss, steps, |steps|);
    var trace := ss[|steps|].trace;
    j := FinishOccurs(trace, v);
    assert MayFollow(g, trace[..j], trace[j]);
    i := StartedOccurs(trace[..j], v);
    forall k | 0 <= k < |trace| && trace[k].v == v ensures k == i || k == j {
      if k < i {
        LegalOnce(g, trace, k, i);
      } else if i < k < j {
        LegalOnce(g, trace, k, j);
        LegalOnce(g, trace, i, k);
      } else if j < k {
        LegalOnce(g, trace, j, k);
      }
    }
  }

  /** A false result of Run: the caller cancelled, or some BlockRun returned false. */
  lemma RunFalse(g: Graph, start: Vertex, ss: seq<State>, steps: seq<Step>)
    requires Runnable(g, start) && IsRun(g, start, ss, steps)
    requires |ss[|steps|].procs| > 0 && ss[|steps|].procs[0] == MainDone(false)
    ensures ss[|steps|].cancelled || exists v :: Finish(v, false) in ss[|steps|].trace
  {
    RunGood(g, start, ss, steps, |steps|);
    var s := ss[|steps|];
    if !s.cancelled {
      var v :| v in ResultsIn(s.trace) && !ResultsIn(s.trace)[v];
      var k := FinishOccurs(s.trace, v);
      assert Finish(v, false) in s.trace;
    }
  }
}
