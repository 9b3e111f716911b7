/** The batch downloader: a goroutine that queues the requests, workers that download them one at a time, and two buffered
    channels with room for every request. Requests are numbered; any goroutine may take the next step. */
module WorkerPool {

  datatype Feeder =
    | Queueing(next: nat)  // about to queue request number next, or to close the request channel
    | AwaitingWorkers
    | Closing              // about to close the response channel
    | Finished

  datatype Worker =
    | Receiving
    | Doing(r: nat)        // inside Do
    | Sending(r: nat)      // about to send the response
    | AwaitingDone(r: nat)
    | Leaving              // the request channel was closed
    | Left

  datatype Pool = Pool(
    feeder: Feeder,
    workers: seq<Worker>,
    requests: seq<nat>,    // request channel
    requestsClosed: bool,
    responses: seq<nat>,   // response channel
    responsesClosed: bool,
    taken: seq<nat>,       // history: responses the caller received
    done: set<nat>,        // requests whose Done is closed
    waiting: nat,          // the wait group
    panicked: bool)

  datatype Step =
    | Queue
    | CloseRequests
    | Receive(w: nat)
    | ReceiveClosed(w: nat)
    | Responded(w: nat)    // Do returns
    | Respond(w: nat)      // sends the response
    | Complete(r: nat)     // the transfer ends
    | SeeDone(w: nat)
    | Leave(w: nat)
    | WorkersLeft
    | CloseResponses
    | Take                 // the caller receives a response

  /** n requests; fewer than one worker means one each. */
  function Init(n: nat, workers: int): Pool {
    var k := if workers < 1 then n else workers;
    Pool(Queueing(0), seq(k, _ => Receiving), [], false, [], false, [], {}, k, false)
  }

  predicate Started(p: Pool, r: nat) {
    r in p.taken || r in p.responses || Doing(r) in p.workers || Sending(r) in p.workers || AwaitingDone(r) in p.workers
  }

  predicate Enabled(n: nat, p: Pool, step: Step) {
    !p.panicked && match step
    case Queue => p.feeder.Queueing? && p.feeder.next < n && |p.requests| < n
    case CloseRequests => p.feeder.Queueing? && p.feeder.next >= n
    case Receive(w) => w < |p.workers| && p.workers[w].Receiving? && p.requests != []
    case ReceiveClosed(w) => w < |p.workers| && p.workers[w].Receiving? && p.requests == [] && p.requestsClosed
    case Responded(w) => w < |p.workers| && p.workers[w].Doing?
    case Respond(w) => w < |p.workers| && p.workers[w].Sending? && (p.responsesClosed || |p.responses| < n)
    case Complete(r) => r !in p.done && Started(p, r)
    case SeeDone(w) => w < |p.workers| && p.workers[w].AwaitingDone? && p.workers[w].r in p.done
    case Leave(w) => w < |p.workers| && p.workers[w].Leaving?
    case WorkersLeft => p.feeder.AwaitingWorkers? && p.waiting == 0
    case CloseResponses => p.feeder.Closing?
    case Take => p.responses != []
  }

  function Apply(n: nat, p: Pool, step: Step): Pool
    requires Enabled(n, p, step)
  {
    match step
    case Queue =>
      p.(feeder := Queueing(p.feeder.next + 1), requests := p.requests + [p.feeder.next], panicked := p.requestsClosed)
    case CloseRequests =>
      p.(feeder := AwaitingWorkers, requestsClosed := true, panicked := p.requestsClosed)
    case Receive(w) =>
      p.(workers := p.workers[w := Doing(p.requests[0])], requests := p.requests[1..])
    case ReceiveClosed(w) =>
      p.(workers := p.workers[w := Leaving])
    case Responded(w) =>
      p.(workers := p.workers[w := Sending(p.workers[w].r)])
    case Respond(w) =>
      p.(workers := p.workers[w := AwaitingDone(p.workers[w].r)], responses := p.responses + [p.workers[w].r],
         panicked := p.responsesClosed)
    case Complete(r) =>
      p.(done := p.done + {r})
    case SeeDone(w) =>
      p.(workers := p.workers[w := Receiving])
    case Leave(w) =>
      p.(workers := p.workers[w := Left], waiting := if p.waiting > 0 then p.waiting - 1 else 0, panicked := p.waiting == 0)
    case WorkersLeft =>
      p.(feeder := Closing)
    case CloseResponses =>
      p.(feeder := Finished, responsesClosed := true, panicked := p.responsesClosed)
    case Take =>
      p.(responses := p.responses[1..], taken := p.taken + [p.responses[0]])
  }

  ghost predicate IsRun(n: nat, workers: int, ps: seq<Pool>, steps: seq<Step>) {
    && |ps| == |steps| + 1
    && ps[0] == Init(n, workers)
    && forall k :: 0 <= k < |steps| ==> Enabled(n, ps[k], steps[k]) && ps[k + 1] == Apply(n, ps[k], steps[k])
  }

  // ---------------------------------------------------------------- conservation

  /** The request a worker has taken and not yet responded to. */
  function InHand(w: Worker): multiset<nat> {
    if w.Doing? || w.Sending? then multiset{w.r} else multiset{}
  }

  function AllInHand(ws: seq<Worker>): multiset<nat> {
    if ws == [] then multiset{} else AllInHand(ws[..|ws| - 1]) + InHand(ws[|ws| - 1])
  }

  function Numbers(k: nat): multiset<nat> {
    if k == 0 then multiset{} else Numbers(k - 1) + multiset{k - 1}
  }

  /** Where the queued requests are. */
  function Everywhere(p: Pool): multiset<nat> {
    multiset(p.requests) + AllInHand(p.workers) + multiset(p.responses) + multiset(p.taken)
  }

  function Queued(n: nat, p: Pool): nat {
    if p.feeder.Queueing? then p.feeder.next else n
  }

  function StillIn(ws: seq<Worker>): nat {
    if ws == [] then 0 else StillIn(ws[..|ws| - 1]) + (if ws[|ws| - 1].Left? then 0 else 1)
  }

  lemma LastInHand(ws: seq<Worker>)
    requires ws != []
    ensures AllInHand(ws) == AllInHand(ws[..|ws| - 1]) + InHand(ws[|ws| - 1])
  {
  }

  lemma AddBoth(a: multiset<nat>, b: multiset<nat>, c: multiset<nat>, d: multiset<nat>, more: multiset<nat>)
    requires a + b == c + d
    ensures (a + more) + b == (c + more) + d
  {
    assert (a + more) + b == (a + b) + more;
    assert (c + more) + d == (c + d) + more;
  }

  lemma Swap(a: multiset<nat>, b: multiset<nat>, c: multiset<nat>)
    ensures (a + b) + c == (a + c) + b
  {
  }

  lemma TakeBoth(a: multiset<nat>, b: multiset<nat>, more: multiset<nat>)
    requires a + more == b + more
    ensures a == b
  {
    assert a == (a + more) - more && b == (b + more) - more;
  }

  /** How a worker's move changes what all workers have in hand. */
  lemma {:induction false} InHandMove(ws: seq<Worker>, i: nat, w: Worker)
    requires i < |ws|
    ensures AllInHand(ws[i := w]) + InHand(ws[i]) == AllInHand(ws) + InHand(w)
  {
    var n := |ws| - 1;
    LastInHand(ws);
    LastInHand(ws[i := w]);
    if i == n {
      assert ws[i := w][..n] == ws[..n];
      Swap(AllInHand(ws[..n]), InHand(w), InHand(ws[i]));
    } else {
      assert ws[i := w][..n] == ws[..n][i := w];
      InHandMove(ws[..n], i, w);
      AddBoth(AllInHand(ws[..n][i := w]), InHand(ws[i]), AllInHand(ws[..n]), InHand(w), InHand(ws[n]));
    }
  }

  lemma {:induction false} StillInMove(ws: seq<Worker>, i: nat, w: Worker)
    requires i < |ws|
    ensures StillIn(ws[i := w]) + (if ws[i].Left? then 0 else 1) == StillIn(ws) + (if w.Left? then 0 else 1)
  {
    var n := |ws| - 1;
    if i == n {
      assert ws[i := w][..n] == ws[..n];
    } else {
      assert ws[i := w][..n] == ws[..n][i := w];
      StillInMove(ws[..n], i, w);
    }
  }

  lemma {:induction false} NumbersSize(k: nat)
    ensures |Numbers(k)| == k
    ensures forall x: nat :: Numbers(k)[x] == if x < k then 1 else 0
  {
    if k > 0 {
      NumbersSize(k - 1);
    }
  }

  lemma {:induction false} InitInHand(k: nat)
    ensures AllInHand(seq(k, _ => Receiving)) == multiset{} && StillIn(seq(k, _ => Receiving)) == k
  {
    if k > 0 {
      assert seq(k, _ => Receiving)[..k - 1] == seq(k - 1, _ => Receiving);
      InitInHand(k - 1);
    }
  }

  ghost predicate Flags(n: nat, p: Pool) {
    && !p.panicked
    && (p.feeder.Queueing? ==> p.feeder.next <= n && !p.requestsClosed)
    && (p.feeder.Closing? || p.feeder.Finished? ==> p.waiting == 0)
    && (p.responsesClosed <==> p.feeder.Finished?)
    && (!p.feeder.Queueing? ==> p.requestsClosed)
    && (forall i :: 0 <= i < |p.workers| && (p.workers[i].Leaving? || p.workers[i].Left?) ==> p.requests == [] && p.requestsClosed)
    && (p.workers == [] ==> n == 0)
  }

  ghost predicate Inv(n: nat, p: Pool) {
    && Flags(n, p)
    && Everywhere(p) == Numbers(Queued(n, p))
    && p.waiting == StillIn(p.workers)
    && (forall r :: r in p.responses || r in p.taken ==> Attended(p, r))
  }

  lemma InitPool(n: nat, workers: int)
    ensures Inv(n, Init(n, workers))
  {
    InitInHand(if workers < 1 then n else workers);
  }

  /** A worker's own move keeps what it has in hand. */
  lemma MoveConserves(p: Pool, q: Pool, i: nat, w: Worker)
    requires i < |p.workers| && InHand(p.workers[i]) == InHand(w)
    requires q.workers == p.workers[i := w] && q.requests == p.requests && q.responses == p.responses && q.taken == p.taken
    ensures Everywhere(q) == Everywhere(p)
  {
    InHandMove(p.workers, i, w);
    TakeBoth(AllInHand(q.workers), AllInHand(p.workers), InHand(w));
  }

  lemma QueueConserves(n: nat, p: Pool, step: Step)
    requires Enabled(n, p, step) && step.Queue? && Everywhere(p) == Numbers(p.feeder.next)
    ensures Everywhere(Apply(n, p, step)) == Numbers(p.feeder.next + 1)
  {
    assert multiset(p.requests + [p.feeder.next]) == multiset(p.requests) + multiset{p.feeder.next};
    assert Everywhere(Apply(n, p, step)) == Everywhere(p) + multiset{p.feeder.next};
  }

  lemma PassOn(a: multiset<nat>, b: multiset<nat>, x: multiset<nat>)
    ensures a + (b + x) == (x + a) + b
  {
  }

  lemma Front(front: multiset<nat>, a: multiset<nat>, b: multiset<nat>, c: multiset<nat>, d: multiset<nat>)
    requires b + a == d + c
    ensures front + a + b == front + c + d
  {
    assert front + a + b == front + (b + a) && front + c + d == front + (d + c);
  }

  lemma ReceiveConserves(n: nat, p: Pool, step: Step)
    requires Enabled(n, p, step) && step.Receive?
    ensures Everywhere(Apply(n, p, step)) == Everywhere(p)
  {
    var r := p.requests[0];
    assert p.requests == [r] + p.requests[1..];
    assert multiset(p.requests) == multiset{r} + multiset(p.requests[1..]);
    InHandMove(p.workers, step.w, Doing(r));
    var q := Apply(n, p, step);
    assert AllInHand(q.workers) == AllInHand(p.workers) + multiset{r};
    PassOn(multiset(q.requests), AllInHand(p.workers), multiset{r});
  }

  lemma RespondConserves(n: nat, p: Pool, step: Step)
    requires Enabled(n, p, step) && step.Respond?
    ensures Everywhere(Apply(n, p, step)) == Everywhere(p)
  {
    var r := p.workers[step.w].r;
    InHandMove(p.workers, step.w, AwaitingDone(r));
    var q := Apply(n, p, step);
    assert AllInHand(p.workers) == AllInHand(q.workers) + multiset{r};
    assert multiset(q.responses) == multiset{r} + multiset(p.responses);
    PassOn(multiset(p.responses), AllInHand(q.workers), multiset{r});
    Front(multiset(p.requests), AllInHand(p.workers), multiset(p.responses), AllInHand(q.workers), multiset(q.responses));
  }

  lemma TakeConserves(n: nat, p: Pool, step: Step)
    requires Enabled(n, p, step) && step.Take?
    ensures Everywhere(Apply(n, p, step)) == Everywhere(p)
  {
    var r := p.responses[0];
    assert p.responses == [r] + p.responses[1..];
    assert multiset(p.responses) == multiset{r} + multiset(p.responses[1..]);
    assert multiset(p.taken + [r]) == multiset(p.taken) + multiset{r};
  }

  lemma OthersConserve(n: nat, p: Pool, step: Step)
    requires Enabled(n, p, step)
    requires step.CloseRequests? || step.Complete? || step.WorkersLeft? || step.CloseResponses?
    ensures Everywhere(Apply(n, p, step)) == Everywhere(p)
  {
  }

  /** Requests only move: none is lost or doubled. */
  lemma MovesConserve(n: nat, p: Pool, step: Step)
    requires Enabled(n, p, step) && !step.Queue?
    ensures Everywhere(Apply(n, p, step)) == Everywhere(p)
  {
    match step
    case Receive(_) => ReceiveConserves(n, p, step);
    case Respond(_) => RespondConserves(n, p, step);
    case Take => TakeConserves(n, p, step);
    case ReceiveClosed(w) => MoveConserves(p, Apply(n, p, step), w, Leaving);
    case Responded(w) => MoveConserves(p, Apply(n, p, step), w, Sending(p.workers[w].r));
    case SeeDone(w) => MoveConserves(p, Apply(n, p, step), w, Receiving);
    case Leave(w) => MoveConserves(p, Apply(n, p, step), w, Left);
    case _ => OthersConserve(n, p, step);
  }

  lemma QueuedStays(n: nat, p: Pool, step: Step)
    requires Enabled(n, p, step) && !step.Queue? && (p.feeder.Queueing? ==> p.feeder.next <= n)
    ensures Queued(n, Apply(n, p, step)) == Queued(n, p)
  {
  }

  lemma StepConserves(n: nat, p: Pool, step: Step)
    requires Everywhere(p) == Numbers(Queued(n, p)) && Enabled(n, p, step)
    requires p.feeder.Queueing? ==> p.feeder.next <= n
    ensures Everywhere(Apply(n, p, step)) == Numbers(Queued(n, Apply(n, p, step)))
  {
    if step.Queue? {
      QueueConserves(n, p, step);
    } else {
      MovesConserve(n, p, step);
      QueuedStays(n, p, step);
    }
  }

  /** Only a worker that leaves changes the wait group. */
  lemma StepCounts(n: nat, p: Pool, step: Step)
    requires Inv(n, p) && Enabled(n, p, step)
    ensures Apply(n, p, step).waiting == StillIn(Apply(n, p, step).workers)
    ensures step.Leave? ==> p.waiting > 0
  {
    match step
    case Receive(w) => StillInMove(p.workers, w, Apply(n, p, step).workers[w]);
    case ReceiveClosed(w) => StillInMove(p.workers, w, Leaving);
    case Responded(w) => StillInMove(p.workers, w, Apply(n, p, step).workers[w]);
    case Respond(w) => StillInMove(p.workers, w, Apply(n, p, step).workers[w]);
    case SeeDone(w) => StillInMove(p.workers, w, Receiving);
    case Leave(w) => StillInMove(p.workers, w, Left);
    case _ =>
  }

  lemma {:induction false} StillInPositive(ws: seq<Worker>, i: nat)
    requires i < |ws| && !ws[i].Left?
    ensures StillIn(ws) > 0
  {
    var n := |ws| - 1;
    if i < n {
      StillInPositive(ws[..n], i);
    }
  }

  ghost predicate Attended(p: Pool, r: nat) {
    r in p.done || exists i :: 0 <= i < |p.workers| && p.workers[i] == AwaitingDone(r)
  }

  /** A delivered response is of a finished transfer, or a worker waits for that. */
  lemma StepAttended(n: nat, p: Pool, step: Step, r: nat)
    requires Enabled(n, p, step) && Attended(p, r)
    ensures Attended(Apply(n, p, step), r)
  {
    var q := Apply(n, p, step);
    if r !in q.done {
      var i :| 0 <= i < |p.workers| && p.workers[i] == AwaitingDone(r);
      assert q.workers[i] == AwaitingDone(r);
    }
  }

  lemma StepDelivered(n: nat, p: Pool, step: Step)
    requires Enabled(n, p, step) && forall r :: r in p.responses || r in p.taken ==> Attended(p, r)
    ensures forall r :: r in Apply(n, p, step).responses || r in Apply(n, p, step).taken ==> Attended(Apply(n, p, step), r)
  {
    var q := Apply(n, p, step);
    forall r | r in q.responses || r in q.taken ensures Attended(q, r) {
      if step.Respond? && p.workers[step.w].r == r {
        assert q.workers[step.w] == AwaitingDone(r);
      } else {
        StepAttended(n, p, step, r);
      }
    }
  }

  /** The wait group, the closed flags and the workers that left agree. */
  lemma StepFlags(n: nat, p: Pool, step: Step)
    requires Inv(n, p) && Enabled(n, p, step)
    ensures Flags(n, Apply(n, p, step))
  {
    if step.Queue? || step.CloseRequests? || step.Complete? || step.WorkersLeft? || step.CloseResponses? || step.Take? {
      StepFlagsElsewhere(n, p, step);
    } else if step.Receive? || step.ReceiveClosed? {
      StepFlagsReceive(n, p, step);
    } else if step.Leave? {
      StepFlagsLeave(n, p, step);
    } else {
      StepFlagsWorker(n, p, step);
    }
  }

  lemma StepFlagsReceive(n: nat, p: Pool, step: Step)
    requires Inv(n, p) && Enabled(n, p, step) && (step.Receive? || step.ReceiveClosed?)
    ensures Flags(n, Apply(n, p, step))
  {
    StillInPositive(p.workers, step.w);
  }

  lemma StepFlagsLeave(n: nat, p: Pool, step: Step)
    requires Inv(n, p) && Enabled(n, p, step) && step.Leave?
    ensures Flags(n, Apply(n, p, step))
  {
    StillInPositive(p.workers, step.w);
  }

  lemma StepFlagsElsewhere(n: nat, p: Pool, step: Step)
    requires Inv(n, p) && Enabled(n, p, step)
    requires step.Queue? || step.CloseRequests? || step.Complete? || step.WorkersLeft? || step.CloseResponses? || step.Take?
    ensures Flags(n, Apply(n, p, step))
  {
  }

  lemma StepFlagsWorker(n: nat, p: Pool, step: Step)
    requires Inv(n, p) && Enabled(n, p, step)
    requires step.Responded? || step.Respond? || step.SeeDone?
    ensures Flags(n, Apply(n, p, step))
  {
    StillInPositive(p.workers, step.w);
    StepFlagsWaited(n, p, step);
  }

  lemma StepFlagsWaited(n: nat, p: Pool, step: Step)
    requires Flags(n, p) && p.waiting > 0 && Enabled(n, p, step)
    requires step.Responded? || step.Respond? || step.SeeDone?
    ensures Flags(n, Apply(n, p, step))
  {
  }

  lemma StepPool(n: nat, p: Pool, step: Step)
    requires Inv(n, p) && Enabled(n, p, step)
    ensures Inv(n, Apply(n, p, step))
  {
    StepConserves(n, p, step);
    StepCounts(n, p, step);
    StepDelivered(n, p, step);
    StepFlags(n, p, step);
  }

  lemma WorkersStay(n: nat, p: Pool, step: Step)
    requires Enabled(n, p, step)
    ensures |Apply(n, p, step).workers| == |p.workers|
  {
  }

  lemma {:induction false} RunPool(n: nat, workers: int, ps: seq<Pool>, steps: seq<Step>, k: nat)
    requires IsRun(n, workers, ps, steps) && k < |ps|
    ensures Inv(n, ps[k]) && |ps[k].workers| == (if workers < 1 then n else workers)
  {
    if k == 0 {
      InitPool(n, workers);
    } else {
      RunPool(n, workers, ps, steps, k - 1);
      assert ps[k - 1 + 1] == Apply(n, ps[k - 1], steps[k - 1]);
      StepPool(n, ps[k - 1], steps[k - 1]);
      WorkersStay(n, ps[k - 1], steps[k - 1]);
    }
  }

  // ---------------------------------------------------------------- main results

  lemma {:induction false} InHandContains(ws: seq<Worker>, i: nat)
    requires i < |ws|
    ensures InHand(ws[i]) <= AllInHand(ws)
  {
    var n := |ws| - 1;
    if i < n {
      InHandContains(ws[..n], i);
    }
  }

  /** Sends never block and never hit a closed channel: both channels have room for whatever is still to be sent. */
  lemma SendsNeverBlock(n: nat, workers: int, ps: seq<Pool>, steps: seq<Step>)
    requires IsRun(n, workers, ps, steps)
    ensures var p := ps[|steps|];
      && !p.panicked && |p.requests| <= n && |p.responses| <= n
      && (p.feeder.Queueing? && p.feeder.next < n ==> Enabled(n, p, Queue))
      && forall w :: 0 <= w < |p.workers| && p.workers[w].Sending? ==> !p.responsesClosed && Enabled(n, p, Respond(w))
  {
    var p := ps[|steps|];
    RunPool(n, workers, ps, steps, |steps|);
    NumbersSize(Queued(n, p));
    assert |Everywhere(p)| == |p.requests| + |AllInHand(p.workers)| + |p.responses| + |p.taken|;
    forall w | 0 <= w < |p.workers| && p.workers[w].Sending? ensures !p.responsesClosed && Enabled(n, p, Respond(w)) {
      InHandContains(p.workers, w);
      assert |AllInHand(p.workers)| > 0 by {
        assert p.workers[w].r in AllInHand(p.workers);
      }
      StillInPositive(p.workers, w);
    }
  }

  lemma {:induction false} NobodyLeft(ws: seq<Worker>)
    requires StillIn(ws) == 0
    ensures AllInHand(ws) == multiset{} && forall i :: 0 <= i < |ws| ==> ws[i].Left?
  {
    if ws != [] {
      var n := |ws| - 1;
      NobodyLeft(ws[..n]);
    }
  }

  /** When the response channel closes, exactly one response per request has been sent, and every transfer is over. */
  lemma ClosedMeansComplete(n: nat, workers: int, ps: seq<Pool>, steps: seq<Step>)
    requires IsRun(n, workers, ps, steps) && ps[|steps|].responsesClosed
    ensures multiset(ps[|steps|].taken) + multiset(ps[|steps|].responses) == Numbers(n)
    ensures forall r :: 0 <= r < n ==> r in ps[|steps|].done
  {
    var p := ps[|steps|];
    RunPool(n, workers, ps, steps, |steps|);
    NobodyLeft(p.workers);
    assert p.workers != [] ==> p.workers[0].Left?;
    NumbersSize(n);
    forall r | 0 <= r < n ensures r in p.done {
      assert r in Everywhere(p);
      assert r in p.responses || r in p.taken;
      assert Attended(p, r);
    }
  }

  /** At most one open transfer per worker: every response whose transfer is not over has a worker waiting for it. */
  lemma OpenTransfersBounded(n: nat, workers: int, ps: seq<Pool>, steps: seq<Step>, open: set<nat>)
    requires IsRun(n, workers, ps, steps)
    requires forall r :: r in open ==> Started(ps[|steps|], r) && r !in ps[|steps|].done
    ensures |open| <= if workers < 1 then n else workers
  {
    var p := ps[|steps|];
    RunPool(n, workers, ps, steps, |steps|);
    forall r | r in open ensures Holds(p.workers, r) {
      var w := if Doing(r) in p.workers then Doing(r) else if Sending(r) in p.workers then Sending(r) else AwaitingDone(r);
      assert w in p.workers;
      var i :| 0 <= i < |p.workers| && p.workers[i] == w;
      assert HoldsAt(p.workers[i], r);
    }
    HeldBounded(p.workers, open);
  }

  predicate HoldsAt(w: Worker, r: nat) {
    w == Doing(r) || w == Sending(r) || w == AwaitingDone(r)
  }

  ghost predicate Holds(ws: seq<Worker>, r: nat) {
    exists i :: 0 <= i < |ws| && HoldsAt(ws[i], r)
  }

  lemma {:induction false} HeldBounded(ws: seq<Worker>, open: set<nat>)
    requires forall r :: r in open ==> Holds(ws, r)
    ensures |open| <= |ws|
  {
    if ws == [] {
      assert open == {};
    } else {
      var n := |ws| - 1;
      var last := ws[n];
      var rest := if last.Doing? || last.Sending? || last.AwaitingDone? then open - {last.r} else open;
      forall r | r in rest ensures Holds(ws[..n], r) {
        var i :| 0 <= i < |ws| && HoldsAt(ws[i], r);
        assert HoldsAt(ws[..n][i], r);
      }
      HeldBounded(ws[..n], rest);
    }
  }

  /** The pool only stops when it is done: the response channel closed and every response received, each once. */
  lemma StopsOnlyWhenDone(n: nat, workers: int, ps: seq<Pool>, steps: seq<Step>)
    requires IsRun(n, workers, ps, steps) && forall step :: !Enabled(n, ps[|steps|], step)
    ensures ps[|steps|].responsesClosed && multiset(ps[|steps|].taken) == Numbers(n)
  {
    var p := ps[|steps|];
    RunPool(n, workers, ps, steps, |steps|);
    SendsNeverBlock(n, workers, ps, steps);
    StoppedIsClosed(n, p);
    ClosedMeansComplete(n, workers, ps, steps);
  }

  lemma StoppedIsClosed(n: nat, p: Pool)
    requires Inv(n, p) && forall step :: !Enabled(n, p, step)
    requires p.feeder.Queueing? && p.feeder.next < n ==> Enabled(n, p, Queue)
    requires forall i :: 0 <= i < |p.workers| && p.workers[i].Sending? ==> Enabled(n, p, Respond(i))
    ensures p.responsesClosed && p.responses == []
  {
    assert !Enabled(n, p, Queue) && !Enabled(n, p, CloseRequests) && !Enabled(n, p, Take);
    forall i | 0 <= i < |p.workers| ensures p.workers[i].Left? {
      StoppedWorker(n, p, i);
    }
    AllLeft(p.workers);
    assert !Enabled(n, p, WorkersLeft) && !Enabled(n, p, CloseResponses);
  }

  lemma StoppedWorker(n: nat, p: Pool, i: nat)
    requires Inv(n, p) && !p.feeder.Queueing? && i < |p.workers| && forall step :: !Enabled(n, p, step)
    requires p.workers[i].Sending? ==> Enabled(n, p, Respond(i))
    ensures p.workers[i].Left?
  {
    assert !Enabled(n, p, Receive(i)) && !Enabled(n, p, ReceiveClosed(i)) && !Enabled(n, p, Responded(i));
    assert !Enabled(n, p, Respond(i)) && !Enabled(n, p, SeeDone(i)) && !Enabled(n, p, Leave(i));
    assert p.workers[i].AwaitingDone? ==> !Enabled(n, p, Complete(p.workers[i].r));
  }

  lemma {:induction false} AllLeft(ws: seq<Worker>)
    requires forall i :: 0 <= i < |ws| ==> ws[i].Left?
    ensures StillIn(ws) == 0
  {
    if ws != [] {
      AllLeft(ws[..|ws| - 1]);
    }
  }

  // ---------------------------------------------------------------- termination

  /** The steps a worker can still take with the request it has, and to leave. */
  function WorkLeft(w: Worker): nat {
    match w
    case Receiving => 2
    case Doing(_) => 8
    case Sending(_) => 7
    case AwaitingDone(_) => 4
    case Leaving => 1
    case Left => 0
  }

  function AllWorkLeft(ws: seq<Worker>): nat {
    if ws == [] then 0 else AllWorkLeft(ws[..|ws| - 1]) + WorkLeft(ws[|ws| - 1])
  }

  function FeedLeft(n: nat, feeder: Feeder): int {
    match feeder
    case Queueing(next) => 8 * (n - next) + 3
    case AwaitingWorkers => 2
    case Closing => 1
    case Finished => 0
  }

  /** Transfers are of requests, also those that are over. */
  ghost predicate Known(n: nat, p: Pool) {
    && (forall i :: 0 <= i < |p.workers| && p.workers[i].AwaitingDone? ==> p.workers[i].r < n)
    && (forall r :: r in p.done ==> r < n)
  }

  function Measure(n: nat, p: Pool): int {
    FeedLeft(n, p.feeder) + 7 * |p.requests| + AllWorkLeft(p.workers) + |p.responses| + n - |p.done|
  }

  lemma {:induction false} WorkLeftMove(ws: seq<Worker>, i: nat, w: Worker)
    requires i < |ws|
    ensures AllWorkLeft(ws[i := w]) + WorkLeft(ws[i]) == AllWorkLeft(ws) + WorkLeft(w)
  {
    var n := |ws| - 1;
    if i == n {
      assert ws[i := w][..n] == ws[..n];
    } else {
      assert ws[i := w][..n] == ws[..n][i := w];
      WorkLeftMove(ws[..n], i, w);
    }
  }

  lemma StartedKnown(n: nat, p: Pool, r: nat)
    requires Inv(n, p) && Known(n, p) && Started(p, r)
    ensures r < n
  {
    NumbersSize(Queued(n, p));
    var w := if Doing(r) in p.workers then Doing(r) else Sending(r);
    if w in p.workers {
      var i :| 0 <= i < |p.workers| && p.workers[i] == w;
      InHandContains(p.workers, i);
    }
    assert r in Everywhere(p) ==> r in Numbers(Queued(n, p));
  }

  lemma RespondKnown(n: nat, p: Pool, step: Step)
    requires Inv(n, p) && Known(n, p) && Enabled(n, p, step) && step.Respond?
    ensures Known(n, Apply(n, p, step))
  {
    assert Sending(p.workers[step.w].r) in p.workers;
    StartedKnown(n, p, p.workers[step.w].r);
  }

  lemma CompleteKnown(n: nat, p: Pool, step: Step)
    requires Inv(n, p) && Known(n, p) && Enabled(n, p, step) && step.Complete?
    ensures Known(n, Apply(n, p, step))
  {
    StartedKnown(n, p, step.r);
  }

  lemma OthersKnown(n: nat, p: Pool, step: Step)
    requires Known(n, p) && Enabled(n, p, step) && !step.Respond? && !step.Complete?
    ensures Known(n, Apply(n, p, step))
  {
  }

  lemma StepKnown(n: nat, p: Pool, step: Step)
    requires Inv(n, p) && Known(n, p) && Enabled(n, p, step)
    ensures Known(n, Apply(n, p, step))
  {
    if step.Respond? {
      RespondKnown(n, p, step);
    } else if step.Complete? {
      CompleteKnown(n, p, step);
    } else {
      OthersKnown(n, p, step);
    }
  }

  lemma OtherSpends(n: nat, p: Pool, step: Step)
    requires Flags(n, p) && Enabled(n, p, step)
    requires step.Queue? || step.CloseRequests? || step.Complete? || step.WorkersLeft? || step.CloseResponses? || step.Take?
    ensures Measure(n, Apply(n, p, step)) < Measure(n, p)
  {
  }

  lemma WorkerSpends(n: nat, p: Pool, step: Step)
    requires Enabled(n, p, step)
    requires step.Receive? || step.ReceiveClosed? || step.Responded? || step.Respond? || step.SeeDone? || step.Leave?
    ensures Measure(n, Apply(n, p, step)) < Measure(n, p)
  {
    var q := Apply(n, p, step);
    WorkSpends(n, p, step);
    WorkLeftMove(p.workers, step.w, q.workers[step.w]);
  }

  lemma StepSpends(n: nat, p: Pool, step: Step)
    requires Flags(n, p) && Enabled(n, p, step)
    ensures Measure(n, Apply(n, p, step)) < Measure(n, p)
  {
    if step.Queue? || step.CloseRequests? || step.Complete? || step.WorkersLeft? || step.CloseResponses? || step.Take? {
      OtherSpends(n, p, step);
    } else {
      WorkerSpends(n, p, step);
    }
  }

  lemma WorkSpends(n: nat, p: Pool, step: Step)
    requires Enabled(n, p, step)
    requires step.Receive? || step.ReceiveClosed? || step.Responded? || step.Respond? || step.SeeDone? || step.Leave?
    ensures var q := Apply(n, p, step);
            && q.workers == p.workers[step.w := q.workers[step.w]] && q.feeder == p.feeder && q.done == p.done
            && WorkLeft(q.workers[step.w]) + 7 * |q.requests| + |q.responses|
               < WorkLeft(p.workers[step.w]) + 7 * |p.requests| + |p.responses|
  {
  }

  lemma {:induction false} AllReceiving(k: nat)
    ensures AllWorkLeft(seq(k, _ => Receiving)) == 2 * k
  {
    if k > 0 {
      assert seq(k, _ => Receiving)[..k - 1] == seq(k - 1, _ => Receiving);
      AllReceiving(k - 1);
    }
  }

  lemma {:induction false} RunSpends(n: nat, workers: int, ps: seq<Pool>, steps: seq<Step>, k: nat)
    requires IsRun(n, workers, ps, steps) && k < |ps|
    ensures Known(n, ps[k]) && k + Measure(n, ps[k]) <= Measure(n, Init(n, workers))
  {
    if k > 0 {
      RunSpends(n, workers, ps, steps, k - 1);
      RunPool(n, workers, ps, steps, k - 1);
      assert ps[k - 1 + 1] == Apply(n, ps[k - 1], steps[k - 1]);
      StepKnown(n, ps[k - 1], steps[k - 1]);
      StepSpends(n, ps[k - 1], steps[k - 1]);
    }
  }

  lemma {:induction false} BelowBounded(xs: set<nat>, n: nat)
    requires forall x :: x in xs ==> x < n
    ensures |xs| <= n
  {
    if n == 0 {
      assert xs == {};
    } else {
      BelowBounded(xs - {n - 1}, n - 1);
    }
  }

  /** Every run is finite: nine steps per request, two per worker and three to close. */
  lemma RunIsFinite(n: nat, workers: int, ps: seq<Pool>, steps: seq<Step>)
    requires IsRun(n, workers, ps, steps)
    ensures |steps| <= 9 * n + 2 * (if workers < 1 then n else workers) + 3
  {
    RunSpends(n, workers, ps, steps, |steps|);
    RunPool(n, workers, ps, steps, |steps|);
    AllReceiving(if workers < 1 then n else workers);
    BelowBounded(ps[|steps|].done, n);
  }
}
