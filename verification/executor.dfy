/** The DAG executor as a step relation: one goroutine per walked path, one per scheduled vertex, one unbuffered channel
    per edge and one "done" channel per vertex. Any goroutine may take the next step and every map iteration order is
    arbitrary. The five-second timeouts only loop back and are not steps. */
module Executor {
  import opened Graphs

  datatype Graph = Graph(vertices: set<Vertex>, edges: set<Edge>)

  /** What the executor demands of the graph and start vertex without checking it. */
  ghost predicate Runnable(g: Graph, start: Vertex) {
    && Acyclic(g.edges)
    && Endpoints(g.edges) <= g.vertices
    && start in g.vertices
    && Predecessors(g.edges, start) == {}
  }

  datatype Event =
    | Start(v: Vertex)
    | Finish(v: Vertex, success: bool)

  /** A goroutine and where it is. procs[0] is the one that called Run. */
  datatype Proc =
    // execute(at, ...)
    | Check(at: Vertex)                                  // about to read visited
    | Mark(at: Vertex)                                   // found not visited, about to mark
    | Spawn(at: Vertex)                                  // about to start the vertex goroutine
    | ListDown(at: Vertex)                               // about to list the down vertices
    | Descend(at: Vertex, todo: seq<Vertex>)             // walking the down vertices
    | Walked(at: Vertex)
    // waitFunctionCompletion
    | MainWait(todo: seq<Vertex>)
    | MainDone(result: bool)
    // the goroutine of a scheduled vertex
    | Wait(at: Vertex, todo: seq<Vertex>)                // waiting for dependencies
    | Running(at: Vertex)                                // inside BlockRun
    | Returned(at: Vertex, ok: bool)                     // BlockRun returned
    | Send(at: Vertex, todo: seq<Vertex>, ok: bool)      // sending to the dependents
    | Close(at: Vertex, todo: seq<Vertex>, ok: bool)     // sent to todo[0], about to close
    | SendDone(at: Vertex, ok: bool)
    | CloseDone(at: Vertex, ok: bool)
    | Ended(at: Vertex, ok: bool)
    | Aborted(at: Vertex)                                // a dependency channel was closed

  /** Which goroutine received an edge's value, and how many deliveries came before. */
  datatype Delivery = Delivery(receiver: nat, time: nat)

  datatype State = State(
    procs: seq<Proc>,
    visited: set<Vertex>,
    delivered: map<Edge, Delivery>,  // history: the values received on the edge channels
    closed: set<Edge>,               // closed edge channels
    doneClosed: set<Vertex>,         // closed done channels
    cancelled: bool,                 // the caller's context
    panicked: bool,                  // sent on or closed a closed channel
    trace: seq<Event>                // history: BlockRun calls and returns
  )

  function Init(start: Vertex): State {
    State([Check(start)], {}, map[], {}, {}, false, false, [])
  }

  datatype Step =
    | CheckVisited(i: nat)
    | MarkVisited(i: nat)
    | SpawnWorker(i: nat, order: seq<Vertex>)
    | ListDownVertices(i: nat, order: seq<Vertex>)
    | ExecuteDown(i: nat)
    | EndWalk(i: nat)
    | AwaitAll(order: seq<Vertex>)
    | ReceiveClosed(i: nat)
    | BeginRun(i: nat)
    | EndRun(i: nat, success: bool)
    | ListDependents(i: nat, order: seq<Vertex>)
    | Deliver(i: nat, j: nat)
    | SendOnClosed(i: nat)
    | CloseEdge(i: nat)
    | EndSends(i: nat)
    | Report(i: nat)
    | ReportOnClosed(i: nat)
    | CloseReport(i: nat)
    | MainReceivesClosed
    | MainCancelled
    | MainReturns
    | Cancel

  ghost predicate Enabled(g: Graph, s: State, step: Step) {
    var n := |s.procs|;
    && n > 0
    && !s.panicked
    && match step
       case CheckVisited(i) => i < n && s.procs[i].Check?
       case MarkVisited(i) => i < n && s.procs[i].Mark?
       case SpawnWorker(i, order) =>
         i < n && s.procs[i].Spawn? && Lists(order, Predecessors(g.edges, s.procs[i].at))
       case ListDownVertices(i, order) =>
         i < n && s.procs[i].ListDown? && Lists(order, Successors(g.edges, s.procs[i].at))
       case ExecuteDown(i) => i < n && s.procs[i].Descend? && s.procs[i].todo != []
       case EndWalk(i) => 0 < i < n && s.procs[i].Descend? && s.procs[i].todo == []
       case AwaitAll(order) => s.procs[0].Descend? && s.procs[0].todo == [] && Lists(order, g.vertices)
       case ReceiveClosed(i) =>
         i < n && s.procs[i].Wait? && s.procs[i].todo != [] && Edge(s.procs[i].todo[0], s.procs[i].at) in s.closed
       case BeginRun(i) => i < n && s.procs[i].Wait? && s.procs[i].todo == []
       case EndRun(i, _) => i < n && s.procs[i].Running?
       case ListDependents(i, order) =>
         i < n && s.procs[i].Returned? && Lists(order, Successors(g.edges, s.procs[i].at))
       case Deliver(i, j) =>
         && i < n && s.procs[i].Send? && s.procs[i].todo != []
         && j < n && s.procs[j].Wait? && s.procs[j].todo != []
         && s.procs[i].todo[0] == s.procs[j].at && s.procs[j].todo[0] == s.procs[i].at
         && Edge(s.procs[i].at, s.procs[j].at) !in s.closed
       case SendOnClosed(i) =>
         i < n && s.procs[i].Send? && s.procs[i].todo != [] && Edge(s.procs[i].at, s.procs[i].todo[0]) in s.closed
       case CloseEdge(i) => i < n && s.procs[i].Close? && s.procs[i].todo != []
       case EndSends(i) => i < n && s.procs[i].Send? && s.procs[i].todo == []
       case Report(i) =>
         && i < n && s.procs[i].SendDone? && s.procs[i].at !in s.doneClosed
         && s.procs[0].MainWait? && s.procs[0].todo != [] && s.procs[0].todo[0] == s.procs[i].at
       case ReportOnClosed(i) => i < n && s.procs[i].SendDone? && s.procs[i].at in s.doneClosed
       case CloseReport(i) => i < n && s.procs[i].CloseDone?
       case MainReceivesClosed =>
         s.procs[0].MainWait? && s.procs[0].todo != [] && s.procs[0].todo[0] in s.doneClosed
       case MainCancelled => s.procs[0].MainWait? && s.procs[0].todo != [] && s.cancelled
       case MainReturns => s.procs[0].MainWait? && s.procs[0].todo == []
       case Cancel => !s.cancelled
  }

  ghost function Apply(g: Graph, s: State, step: Step): State
    requires Enabled(g, s, step)
  {
    match step
    case CheckVisited(i) =>
      var v := s.procs[i].at;
      s.(procs := s.procs[i := if v in s.visited then ListDown(v) else Mark(v)])
    case MarkVisited(i) =>
      var v := s.procs[i].at;
      s.(procs := s.procs[i := Spawn(v)], visited := s.visited + {v})
    case SpawnWorker(i, order) =>
      var v := s.procs[i].at;
      s.(procs := s.procs[i := ListDown(v)] + [Wait(v, order)])
    case ListDownVertices(i, order) =>
      s.(procs := s.procs[i := Descend(s.procs[i].at, order)])
    case ExecuteDown(i) =>
      var Descend(v, todo) := s.procs[i];
      s.(procs := s.procs[i := Descend(v, todo[1..])] + [Check(todo[0])])
    case EndWalk(i) =>
      s.(procs := s.procs[i := Walked(s.procs[i].at)])
    case AwaitAll(order) =>
      s.(procs := s.procs[0 := MainWait(order)])
    case ReceiveClosed(i) =>
      s.(procs := s.procs[i := Aborted(s.procs[i].at)])
    case BeginRun(i) =>
      var v := s.procs[i].at;
      s.(procs := s.procs[i := Running(v)], trace := s.trace + [Start(v)])
    case EndRun(i, success) =>
      var v := s.procs[i].at;
      s.(procs := s.procs[i := Returned(v, success)], trace := s.trace + [Finish(v, success)])
    case ListDependents(i, order) =>
      var Returned(v, ok) := s.procs[i];
      s.(procs := s.procs[i := Send(v, order, ok)])
    case Deliver(i, j) =>
      var Send(u, sending, ok) := s.procs[i];
      var Wait(v, waiting) := s.procs[j];
      s.(procs := s.procs[i := Close(u, sending, ok)][j := Wait(v, waiting[1..])],
         delivered := s.delivered[Edge(u, v) := Delivery(j, |s.delivered|)])
    case SendOnClosed(i) =>
      s.(panicked := true)
    case CloseEdge(i) =>
      var Close(u, todo, ok) := s.procs[i];
      var e := Edge(u, todo[0]);
      s.(procs := s.procs[i := Send(u, todo[1..], ok)], closed := s.closed + {e}, panicked := e in s.closed)
    case EndSends(i) =>
      s.(procs := s.procs[i := SendDone(s.procs[i].at, s.procs[i].ok)])
    case Report(i) =>
      var SendDone(v, ok) := s.procs[i];
      var main := if ok then MainWait(s.procs[0].todo[1..]) else MainDone(false);
      s.(procs := s.procs[i := CloseDone(v, ok)][0 := main])
    case ReportOnClosed(i) =>
      s.(panicked := true)
    case CloseReport(i) =>
      var CloseDone(v, ok) := s.procs[i];
      s.(procs := s.procs[i := Ended(v, ok)], doneClosed := s.doneClosed + {v}, panicked := v in s.doneClosed)
    case MainReceivesClosed =>
      s.(procs := s.procs[0 := MainDone(false)])
    case MainCancelled =>
      s.(procs := s.procs[0 := MainDone(false)])
    case MainReturns =>
      s.(procs := s.procs[0 := MainDone(true)])
    case Cancel =>
      s.(cancelled := true)
  }

  /** ss are the states of a run from start that takes the given steps. */
  ghost predicate IsRun(g: Graph, start: Vertex, ss: seq<State>, steps: seq<Step>) {
    && |ss| == |steps| + 1
    && ss[0] == Init(start)
    && forall k :: 0 <= k < |steps| ==> Enabled(g, ss[k], steps[k]) && ss[k + 1] == Apply(g, ss[k], steps[k])
  }

  // ---------------------------------------------------------------- the trace

  function StartedIn(trace: seq<Event>): set<Vertex> {
    if trace == [] then {}
    else
      var rest := StartedIn(trace[..|trace| - 1]);
      match trace[|trace| - 1]
      case Start(v) => rest + {v}
      case Finish(_, _) => rest
  }

  function ResultsIn(trace: seq<Event>): map<Vertex, bool> {
    if trace == [] then map[]
    else
      var rest := ResultsIn(trace[..|trace| - 1]);
      match trace[|trace| - 1]
      case Start(_) => rest
      case Finish(v, success) => rest[v := success]
  }

  /** Whether ev may follow trace: BlockRun starts once, after all dependencies returned, and returns once, after it started. */
  ghost predicate MayFollow(g: Graph, trace: seq<Event>, ev: Event) {
    match ev
    case Start(v) => v !in StartedIn(trace) && Predecessors(g.edges, v) <= ResultsIn(trace).Keys
    case Finish(v, _) => v in StartedIn(trace) && v !in ResultsIn(trace)
  }

  ghost predicate Legal(g: Graph, trace: seq<Event>) {
    forall k :: 0 <= k < |trace| ==> MayFollow(g, trace[..k], trace[k])
  }
}
