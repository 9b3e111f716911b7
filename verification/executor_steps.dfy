/** Steps of the executor seen from one goroutine: what it may turn into, and which goroutines a step adds. */
module ExecutorSteps {
  import opened Graphs
  import opened Executor

  /** Goroutine i, at p before the step, is at q after it. */
  ghost predicate Moved(s: State, step: Step, i: nat, p: Proc, q: Proc) {
    q == p || WalkMoved(s, step, i, p, q) || WorkMoved(step, i, p, q) || MainMoved(step, i, p, q)
  }

  ghost predicate WalkMoved(s: State, step: Step, i: nat, p: Proc, q: Proc) {
    match step
    case CheckVisited(k) => i == k && p.Check? && q == if p.at in s.visited then ListDown(p.at) else Mark(p.at)
    case MarkVisited(k) => i == k && p.Mark? && q == Spawn(p.at)
    case SpawnWorker(k, _) => i == k && p.Spawn? && q == ListDown(p.at)
    case ListDownVertices(k, order) => i == k && p.ListDown? && q == Descend(p.at, order)
    case ExecuteDown(k) => i == k && p.Descend? && p.todo != [] && q == Descend(p.at, p.todo[1..])
    case EndWalk(k) => i == k > 0 && p.Descend? && p.todo == [] && q == Walked(p.at)
    case _ => false
  }

  predicate WorkMoved(step: Step, i: nat, p: Proc, q: Proc) {
    match step
    case ReceiveClosed(k) => i == k && p.Wait? && p.todo != [] && q == Aborted(p.at)
    case BeginRun(k) => i == k && p.Wait? && p.todo == [] && q == Running(p.at)
    case EndRun(k, success) => i == k && p.Running? && q == Returned(p.at, success)
    case ListDependents(k, order) => i == k && p.Returned? && q == Send(p.at, order, p.ok)
    case Deliver(k, j) =>
      || (i == k && p.Send? && p.todo != [] && q == Close(p.at, p.todo, p.ok))
      || (i == j && p.Wait? && p.todo != [] && q == Wait(p.at, p.todo[1..]))
    case CloseEdge(k) => i == k && p.Close? && p.todo != [] && q == Send(p.at, p.todo[1..], p.ok)
    case EndSends(k) => i == k && p.Send? && p.todo == [] && q == SendDone(p.at, p.ok)
    case Report(k) => i == k && p.SendDone? && q == CloseDone(p.at, p.ok)
    case CloseReport(k) => i == k && p.CloseDone? && q == Ended(p.at, p.ok)
    case _ => false
  }

  predicate MainMoved(step: Step, i: nat, p: Proc, q: Proc) {
    match step
    case AwaitAll(order) => i == 0 && p.Descend? && p.todo == [] && q == MainWait(order)
    case Report(_) => i == 0 && p.MainWait? && p.todo != [] && (q == MainDone(false) || q == MainWait(p.todo[1..]))
    case MainReceivesClosed => i == 0 && p.MainWait? && q == MainDone(false)
    case MainCancelled => i == 0 && p.MainWait? && q == MainDone(false)
    case MainReturns => i == 0 && p.MainWait? && p.todo == [] && q == MainDone(true)
    case _ => false
  }

  /** The goroutines that the step adds. */
  ghost function Added(s: State, step: Step): seq<Proc> {
    match step
    case SpawnWorker(k, order) => if k < |s.procs| && s.procs[k].Spawn? then [Wait(s.procs[k].at, order)] else []
    case ExecuteDown(k) =>
      if k < |s.procs| && s.procs[k].Descend? && s.procs[k].todo != [] then [Check(s.procs[k].todo[0])] else []
    case _ => []
  }

  lemma StepAdds(g: Graph, s: State, step: Step)
    requires Enabled(g, s, step)
    ensures |Apply(g, s, step).procs| == |s.procs| + |Added(s, step)|
    ensures Apply(g, s, step).procs[|s.procs|..] == Added(s, step)
  {
    if step.SpawnWorker? {
    } else if step.ExecuteDown? {
    } else {
    }
  }

  lemma WalkMovedAt(g: Graph, s: State, step: Step, i: nat)
    requires Enabled(g, s, step) && i < |s.procs|
    requires step.CheckVisited? || step.MarkVisited? || step.SpawnWorker? || step.ListDownVertices? || step.ExecuteDown? || step.EndWalk?
    ensures i < |Apply(g, s, step).procs| && Moved(s, step, i, s.procs[i], Apply(g, s, step).procs[i])
  {
  }

  lemma WorkMovedAt(g: Graph, s: State, step: Step, i: nat)
    requires Enabled(g, s, step) && i < |s.procs|
    requires step.ReceiveClosed? || step.BeginRun? || step.EndRun? || step.ListDependents? || step.Deliver? || step.CloseEdge?
             || step.EndSends? || step.CloseReport?
    ensures i < |Apply(g, s, step).procs| && Moved(s, step, i, s.procs[i], Apply(g, s, step).procs[i])
  {
  }

  lemma MainMovedAt(g: Graph, s: State, step: Step, i: nat)
    requires Enabled(g, s, step) && i < |s.procs|
    requires step.AwaitAll? || step.Report? || step.MainReceivesClosed? || step.MainCancelled? || step.MainReturns?
             || step.Cancel? || step.SendOnClosed? || step.ReportOnClosed?
    ensures i < |Apply(g, s, step).procs| && Moved(s, step, i, s.procs[i], Apply(g, s, step).procs[i])
  {
  }

  lemma MovedAt(g: Graph, s: State, step: Step, i: nat)
    requires Enabled(g, s, step) && i < |s.procs|
    ensures i < |Apply(g, s, step).procs| && Moved(s, step, i, s.procs[i], Apply(g, s, step).procs[i])
  {
    if step.CheckVisited? || step.MarkVisited? || step.SpawnWorker? || step.ListDownVertices? || step.ExecuteDown? || step.EndWalk? {
      WalkMovedAt(g, s, step, i);
    } else if step.AwaitAll? || step.Report? || step.MainReceivesClosed? || step.MainCancelled? || step.MainReturns?
              || step.Cancel? || step.SendOnClosed? || step.ReportOnClosed? {
      MainMovedAt(g, s, step, i);
    } else {
      WorkMovedAt(g, s, step, i);
    }
  }

  lemma AddedAt(g: Graph, s: State, step: Step, i: nat)
    requires Enabled(g, s, step) && |s.procs| <= i < |Apply(g, s, step).procs|
    ensures i == |s.procs| && Added(s, step) == [Apply(g, s, step).procs[i]]
  {
    StepAdds(g, s, step);
    assert Apply(g, s, step).procs[i] == Apply(g, s, step).procs[|s.procs|..][i - |s.procs|];
  }

  /** What a step does besides moving goroutines. */
  lemma StepFields(g: Graph, s: State, step: Step)
    requires Enabled(g, s, step)
    ensures Apply(g, s, step).visited == s.visited + (if step.MarkVisited? then {s.procs[step.i].at} else {})
    ensures !step.Deliver? ==> Apply(g, s, step).delivered == s.delivered
    ensures s.closed <= Apply(g, s, step).closed
    ensures !step.CloseReport? ==> Apply(g, s, step).doneClosed == s.doneClosed
    ensures s.cancelled ==> Apply(g, s, step).cancelled
    ensures !step.BeginRun? && !step.EndRun? ==> Apply(g, s, step).trace == s.trace
  {
    if step.Deliver? {
    } else if step.CloseEdge? {
    } else if step.MarkVisited? {
    } else {
    }
  }

  lemma NextState(g: Graph, start: Vertex, ss: seq<State>, steps: seq<Step>, k: nat)
    requires IsRun(g, start, ss, steps) && k < |steps|
    ensures Enabled(g, ss[k], steps[k]) && ss[k + 1] == Apply(g, ss[k], steps[k])
  {
  }
}
