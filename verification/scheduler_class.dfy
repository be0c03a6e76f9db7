/**
 The priority request scheduler in the form of the source: a class whose methods and timers update the
 queue, the counters and the flags of each pending request in place.  Every step is proved to compute
 the transition of the state machine.
 */
module SchedulerClass {
  import M = Scheduler

  class PendingRequest {
    const id: M.Id
    const priority: M.Priority
    ghost const arrival: nat
    var timedOut: bool
    var started: bool
    var settled: bool
    var timerArmed: bool
    var stage: M.Stage  // how far the promise of execute() has come

    constructor (id: M.Id, priority: M.Priority, ghost arrival: nat)
      ensures this.id == id && this.priority == priority && this.arrival == arrival
      ensures Flags() == M.Request(false, false, false, true, M.Waiting)
    {
      this.id, this.priority, this.arrival := id, priority, arrival;
      timedOut, started, settled, timerArmed, stage := false, false, false, true, M.Waiting;
    }

    ghost function Flags(): M.Request
      reads this
    {
      M.Request(timedOut, started, settled, timerArmed, stage)
    }

    ghost function Ticket(): M.Ticket {
      M.Ticket(id, M.Rank(priority), arrival)
    }
  }

  class PriorityRequestScheduler {
    const maxConcurrency: int
    const maxQueue: int
    var queue: seq<PendingRequest>
    var inFlight: int
    var totalProcessed: nat
    var totalTimedOut: nat
    var totalRejected: nat
    var draining: bool
    var drainResolvers: seq<nat>
    var inFlightRequests: seq<PendingRequest>
    var deadlines: nat
    var drains: nat

    // What callers have seen: the requests accepted, the promises settled, the drains returned.
    ghost var accepted: map<M.Id, PendingRequest>
    ghost var resolved: seq<nat>
    ghost var log: seq<M.Settlement>
    ghost var refused: seq<M.Id>
    ghost var dispatches: seq<M.Dispatch>

    ghost predicate Known(p: PendingRequest)
      reads this`accepted
    {
      p.id in accepted && accepted[p.id] == p
    }

    ghost predicate Valid()
      reads this`accepted, this`queue, this`inFlightRequests
    {
      && (forall id :: id in accepted ==> accepted[id].id == id)
      && (forall k :: 0 <= k < |queue| ==> Known(queue[k]))
      && (forall k :: 0 <= k < |inFlightRequests| ==> Known(inFlightRequests[k]))
    }

    ghost function Requests(): (r: map<M.Id, M.Request>)
      reads this`accepted, accepted.Values
      ensures r.Keys == accepted.Keys
    {
      map id | id in accepted :: accepted[id].Flags()
    }

    static ghost function Tickets(queue: seq<PendingRequest>): (r: seq<M.Ticket>)
      ensures |r| == |queue| && forall k :: 0 <= k < |r| ==> r[k] == queue[k].Ticket()
    {
      seq(|queue|, k requires 0 <= k < |queue| => queue[k].Ticket())
    }

    static ghost function Ids(requests: seq<PendingRequest>): (r: seq<M.Id>)
      ensures |r| == |requests| && forall k :: 0 <= k < |r| ==> r[k] == requests[k].id
    {
      seq(|requests|, k requires 0 <= k < |requests| => requests[k].id)
    }

    static lemma IdsWithout(requests: seq<PendingRequest>, k: nat)
      requires k < |requests|
      ensures Ids(requests[..k] + requests[k + 1..]) == Ids(requests)[..k] + Ids(requests)[k + 1..]
    {
    }

    static lemma TicketsWithout(queue: seq<PendingRequest>, k: nat)
      requires k < |queue|
      ensures Tickets(queue[..k] + queue[k + 1..]) == Tickets(queue)[..k] + Tickets(queue)[k + 1..]
    {
    }

    /** The state of the machine that this object represents. */
    ghost function View(): M.State
      reads this, accepted.Values
    {
      M.State(maxConcurrency, maxQueue, Requests(), Tickets(queue), inFlight, Ids(inFlightRequests),
              totalProcessed, totalTimedOut, totalRejected, draining, drainResolvers, deadlines, drains,
              resolved, log, refused, dispatches)
    }

    constructor (maxConcurrency: int, maxQueue: int)
      requires maxConcurrency >= 1 && maxQueue >= 1
      ensures Valid() && accepted == map[] && View() == M.Start(maxConcurrency, maxQueue)
    {
      this.maxConcurrency, this.maxQueue := maxConcurrency, maxQueue;
      queue, inFlightRequests, drainResolvers := [], [], [];
      inFlight, totalProcessed, totalTimedOut, totalRejected := 0, 0, 0, 0;
      draining, deadlines, drains := false, 0, 0;
      accepted, resolved, log, refused, dispatches := map[], [], [], [], [];
    }

    // -------------------------------------------------------------- private methods

    method InsertByPriority(request: PendingRequest)
      requires Valid() && Known(request)
      modifies this`queue
      ensures Valid()
      ensures View() == old(View()).(queue := M.InsertByPriority(old(View()).queue, request.Ticket()))
    {
      var insertAt := 0;
      while insertAt < |queue| && M.Rank(queue[insertAt].priority) <= M.Rank(request.priority)
        invariant 0 <= insertAt <= |queue|
        invariant forall k :: 0 <= k < insertAt ==> M.Rank(queue[k].priority) <= M.Rank(request.priority)
      {
        insertAt := insertAt + 1;
      }
      M.InsertAt(Tickets(queue), request.Ticket(), insertAt);
      hide Valid;
      Splice(insertAt, request);
    }

    method Splice(at: nat, request: PendingRequest)
      requires Valid() && Known(request) && at <= |queue|
      modifies this`queue
      ensures Valid()
      ensures var q := old(View()).queue;
              View() == old(View()).(queue := q[..at] + [request.Ticket()] + q[at..])
    {
      queue := queue[..at] + [request] + queue[at..];
      assert Tickets(queue) == old(Tickets(queue))[..at] + [request.Ticket()] + old(Tickets(queue))[at..];
    }

    method RemoveFromQueue(id: M.Id)
      requires Valid()
      modifies this`queue
      ensures Valid()
      ensures View() == old(View()).(queue := M.RemoveFromQueue(old(View()).queue, id))
    {
      var index := 0;
      while index < |queue| && queue[index].id != id
        invariant 0 <= index <= |queue|
        invariant forall k :: 0 <= k < index ==> queue[k].id != id
      {
        index := index + 1;
      }
      M.RemoveAt(Tickets(queue), id, index);
      hide Valid;
      if index < |queue| {
        CutFromQueue(index);
      }
    }

    method CutFromQueue(at: nat)
      requires Valid() && at < |queue|
      modifies this`queue
      ensures Valid()
      ensures var q := old(View()).queue; View() == old(View()).(queue := q[..at] + q[at + 1..])
    {
      TicketsWithout(queue, at);
      queue := queue[..at] + queue[at + 1..];
    }

    /** `inFlightRequests.delete(p)`. */
    method Untrack(p: PendingRequest)
      requires Valid() && Known(p)
      modifies this`inFlightRequests
      ensures Valid()
      ensures View() == old(View()).(tracked := M.Untrack(old(View()).tracked, p.id))
    {
      var index := 0;
      while index < |inFlightRequests| && inFlightRequests[index] != p
        invariant 0 <= index <= |inFlightRequests|
        invariant forall k :: 0 <= k < index ==> inFlightRequests[k] != p
      {
        index := index + 1;
      }
      assert forall k :: 0 <= k < index ==> inFlightRequests[k].id != p.id;
      M.UntrackAt(Ids(inFlightRequests), p.id, index);
      hide Valid;
      if index < |inFlightRequests| {
        CutFromTracked(index);
      }
    }

    method CutFromTracked(at: nat)
      requires Valid() && at < |inFlightRequests|
      modifies this`inFlightRequests
      ensures Valid()
      ensures var t := old(View()).tracked; View() == old(View()).(tracked := t[..at] + t[at + 1..])
    {
      IdsWithout(inFlightRequests, at);
      inFlightRequests := inFlightRequests[..at] + inFlightRequests[at + 1..];
    }

    /** Settle one request's promise and clear its timer. */
    method SettleRequest(p: PendingRequest, result: M.Result)
      requires Valid() && Known(p)
      modifies this`log, p
      ensures Valid() && p.started == old(p.started)
      ensures View() == M.SettleRequest(old(View()), p.id, result)
    {
      assert View().requests[p.id] == p.Flags();
      log := log + [M.Settlement(p.id, result, p.started)];
      assert View() == old(View()).(log := log);
      hide View, Valid;
      MarkSettled(p, result == M.TimedOut);
    }

    method MarkSettled(p: PendingRequest, timedOut: bool)
      requires Valid() && Known(p)
      modifies p
      ensures p.started == old(p.started)
      ensures View() == old(View()).(requests :=
                          old(View()).requests[
                            p.id := M.Request(old(p.timedOut) || timedOut, p.started, true, false, old(p.stage))])
    {
      if timedOut {
        p.timedOut := true;
      }
      p.settled := true;
      p.timerArmed := false;
      assert Requests() == old(Requests())[p.id := p.Flags()];
    }

    method FlushDrainWaiters()
      requires Valid()
      modifies this`drainResolvers, this`resolved
      ensures Valid() && View() == M.FlushDrainWaiters(old(View()))
    {
      if inFlight != 0 || |queue| != 0 { return; }
      ResolveWaiters();
    }

    method ResolveWaiters()
      requires Valid()
      modifies this`drainResolvers, this`resolved
      ensures Valid() && View() == M.ResolveWaiters(old(View()))
    {
      var waiters := drainResolvers;
      drainResolvers := [];
      resolved := resolved + waiters;
    }

    method Begin(next: PendingRequest)
      requires Valid() && Known(next)
      modifies this`inFlight, this`totalProcessed, this`inFlightRequests, this`dispatches, next
      ensures Valid()
      ensures View() == M.Begin(old(View()), next.Ticket())
    {
      assert View().requests[next.id] == next.Flags();
      hide View, Valid;
      Mark(next, true, M.Executing);
      Enter(next);
    }

    method Enter(next: PendingRequest)
      requires Valid() && Known(next)
      modifies this`inFlight, this`totalProcessed, this`inFlightRequests, this`dispatches
      ensures Valid()
      ensures View() == old(View()).(inFlight := old(View()).inFlight + 1,
                                     totalProcessed := old(View()).totalProcessed + 1,
                                     tracked := old(View()).tracked + [next.id],
                                     dispatches := old(View()).dispatches
                                                   + [M.Dispatch(next.Ticket(), old(View()).queue)])
    {
      hide View, Valid;
      Count(next);
      Track(next);
    }

    method Count(next: PendingRequest)
      requires Valid()
      modifies this`inFlight, this`totalProcessed, this`dispatches
      ensures Valid()
      ensures View() == old(View()).(inFlight := old(View()).inFlight + 1,
                                     totalProcessed := old(View()).totalProcessed + 1,
                                     dispatches := old(View()).dispatches
                                                   + [M.Dispatch(next.Ticket(), old(View()).queue)])
    {
      inFlight := inFlight + 1;
      totalProcessed := totalProcessed + 1;
      dispatches := dispatches + [M.Dispatch(next.Ticket(), Tickets(queue))];
    }

    method Mark(p: PendingRequest, started: bool, stage: M.Stage)
      requires Valid() && Known(p)
      modifies p
      ensures p.timedOut == old(p.timedOut) && p.settled == old(p.settled)
      ensures View() == old(View()).(requests :=
                old(View()).requests[p.id := old(p.Flags()).(started := started, stage := stage)])
    {
      p.started := started;
      p.stage := stage;
      assert Requests() == old(Requests())[p.id := p.Flags()];
    }

    /** `inFlightRequests.add(p)`. */
    method Track(p: PendingRequest)
      requires Valid() && Known(p)
      modifies this`inFlightRequests
      ensures Valid() && View() == old(View()).(tracked := old(View()).tracked + [p.id])
    {
      inFlightRequests := inFlightRequests + [p];
      assert Ids(inFlightRequests) == old(Ids(inFlightRequests)) + [p.id];
    }

    /** `queue.shift()`. */
    method Shift() returns (next: PendingRequest)
      requires Valid() && |queue| > 0
      modifies this`queue
      ensures Valid() && Known(next) && next == old(queue)[0] && queue == old(queue)[1..]
      ensures next.Ticket() == old(View()).queue[0]
      ensures View() == old(View()).(queue := old(View()).queue[1..])
    {
      next := queue[0];
      assert Known(next);
      queue := queue[1..];
      assert Tickets(queue) == old(Tickets(queue))[1..];
    }

    method TryExecuteNext()
      requires Valid()
      modifies this, accepted.Values
      ensures Valid() && accepted == old(accepted) && View() == M.TryExecuteNext(old(View()))
    {
      while inFlight < maxConcurrency && |queue| > 0
        invariant Valid() && accepted == old(accepted)
        invariant M.TryExecuteNext(View()) == M.TryExecuteNext(old(View()))
        decreases |queue|
      {
        hide Valid;
        ExecuteHead();
      }
    }

    /** One turn of the loop: the head of the queue leaves it and, if its timer has not fired, starts. */
    method ExecuteHead()
      requires Valid() && inFlight < maxConcurrency && |queue| > 0
      modifies this, accepted.Values
      ensures Valid() && accepted == old(accepted) && |queue| < old(|queue|)
      ensures M.TryExecuteNext(View()) == M.TryExecuteNext(old(View()))
    {
      var next := Shift();
      assert next.Ticket() == old(View()).queue[0] && View().requests[next.id] == next.Flags();
      if !next.timedOut {
        Begin(next);
      }
    }

    /** Reject a request that a drain deadline finds unsettled. */
    method ShutDownOne(pending: PendingRequest)
      requires Valid() && Known(pending)
      modifies this`log, this`totalRejected, pending
      ensures Valid() && View() == M.ShutDownOne(old(View()), pending.id)
    {
      if pending.settled { return; }
      SettleRequest(pending, M.ShutDown);
      totalRejected := totalRejected + 1;
    }

    method SettlePendingForDrain()
      requires Valid()
      modifies this, accepted.Values
      ensures Valid() && accepted == old(accepted) && View() == M.SettlePendingForDrain(old(View()))
    {
      DrainQueue();
      DrainTracked();
      ResolveWaiters();
    }

    method DrainQueue()
      requires Valid()
      modifies this, accepted.Values
      ensures Valid() && accepted == old(accepted) && View() == M.DrainQueue(old(View()))
    {
      while |queue| > 0
        invariant Valid() && accepted == old(accepted)
        invariant M.DrainQueue(View()) == M.DrainQueue(old(View()))
        decreases |queue|
      {
        hide Valid;
        DrainHead();
      }
    }

    method DrainHead()
      requires Valid() && |queue| > 0
      modifies this`queue, this`log, this`totalRejected, accepted.Values
      ensures Valid() && |queue| < |old(queue)| && old(View()).queue != []
      ensures View() == M.ShutDownOne(old(View()).(queue := old(View()).queue[1..]), old(View()).queue[0].id)
    {
      assert |View().queue| == |queue|;
      hide View, Valid;
      var pending := Shift();
      ShutDownOne(pending);
    }

    method DrainTracked()
      requires Valid()
      modifies this, accepted.Values
      ensures Valid() && accepted == old(accepted) && View() == M.DrainTracked(old(View()))
    {
      while |inFlightRequests| > 0
        invariant Valid() && accepted == old(accepted)
        invariant M.DrainTracked(View()) == M.DrainTracked(old(View()))
        decreases |inFlightRequests|
      {
        hide Valid;
        DrainFirstTracked();
      }
    }

    method DrainFirstTracked()
      requires Valid() && |inFlightRequests| > 0
      modifies this`inFlightRequests, this`log, this`totalRejected, accepted.Values
      ensures Valid() && |inFlightRequests| < |old(inFlightRequests)| && old(View()).tracked != []
      ensures View() == M.ShutDownOne(old(View()).(tracked := old(View()).tracked[1..]), old(View()).tracked[0])
    {
      assert |View().tracked| == |inFlightRequests|;
      hide View, Valid;
      var pending := TakeTracked();
      ShutDownOne(pending);
    }

    method TakeTracked() returns (first: PendingRequest)
      requires Valid() && |inFlightRequests| > 0
      modifies this`inFlightRequests
      ensures Valid() && Known(first) && |inFlightRequests| < |old(inFlightRequests)|
      ensures first.id == old(View()).tracked[0]
      ensures View() == old(View()).(tracked := old(View()).tracked[1..])
    {
      first := inFlightRequests[0];
      assert Known(first);
      inFlightRequests := inFlightRequests[1..];
      assert Ids(inFlightRequests) == old(Ids(inFlightRequests))[1..];
    }

    // -------------------------------------------------------------- the steps

    /** Create the pending request of an accepted call, with its timer armed, and queue it. */
    method Accept(id: M.Id, priority: M.Priority) returns (pending: PendingRequest)
      requires Valid() && id !in accepted
      modifies this`accepted, this`queue
      ensures Valid() && fresh(pending) && pending.id == id && accepted == old(accepted)[id := pending]
      ensures View() == M.Accept(old(View()), id, priority)
    {
      assert |Requests().Keys| == |accepted.Keys|;
      pending := Register(id, priority);
      InsertByPriority(pending);
    }

    method Register(id: M.Id, priority: M.Priority) returns (pending: PendingRequest)
      requires Valid() && id !in accepted
      modifies this`accepted
      ensures Valid() && fresh(pending) && accepted == old(accepted)[id := pending]
      ensures pending.Ticket() == M.Ticket(id, M.Rank(priority), |old(accepted)|)
      ensures View() == old(View()).(requests :=
                old(View()).requests[id := M.Request(false, false, false, true, M.Waiting)])
    {
      pending := new PendingRequest(id, priority, |accepted|);
      accepted := accepted[id := pending];
      assert Requests() == old(Requests())[id := pending.Flags()];
    }

    /** A call of enqueue; the result is the pending request, or null if the call was rejected. */
    method Enqueue(id: M.Id, priority: M.Priority) returns (p: PendingRequest?)
      requires Valid() && id !in accepted
      modifies this, accepted.Values
      ensures Valid() && (p != null ==> fresh(p) && Known(p)) && fresh(accepted.Values - old(accepted).Values)
      ensures p == null <==> old(draining || |queue| >= maxQueue)
      ensures View() == M.OnEnqueue(old(View()), id, priority)
    {
      assert View().draining == draining && |View().queue| == |queue| && View().maxQueue == maxQueue;
      hide View, Valid, M.TryExecuteNext, M.Accept;
      if draining || |queue| >= maxQueue {
        Refuse(id);
        return null;
      }
      p := Admit(id, priority);
    }

    method Admit(id: M.Id, priority: M.Priority) returns (p: PendingRequest)
      requires Valid() && id !in accepted
      modifies this, accepted.Values
      ensures Valid() && fresh(p) && Known(p) && fresh(accepted.Values - old(accepted).Values)
      ensures View() == M.TryExecuteNext(M.Accept(old(View()), id, priority))
    {
      hide View, Valid, M.TryExecuteNext, M.Accept;
      p := Accept(id, priority);
      TryExecuteNext();
    }

    method Refuse(id: M.Id)
      requires Valid()
      modifies this`totalRejected, this`refused
      ensures Valid()
      ensures View() ==
              old(View()).(totalRejected := old(View()).totalRejected + 1, refused := old(View()).refused + [id])
    {
      totalRejected := totalRejected + 1;
      refused := refused + [id];
    }

    /** The request's timer fires. */
    method OnTimer(pending: PendingRequest)
      requires Valid() && Known(pending) && pending.timerArmed
      modifies this`log, this`totalTimedOut, this`queue, this`inFlightRequests, this`drainResolvers, this`resolved,
               pending
      ensures Valid() && View() == M.OnTimer(old(View()), pending.id)
    {
      assert View().requests[pending.id] == pending.Flags();
      hide View, Valid;
      if pending.settled {
        Disarm(pending);
        return;
      }
      Fire(pending);
    }

    method Fire(pending: PendingRequest)
      requires Valid() && Known(pending)
      modifies this`log, this`totalTimedOut, this`queue, this`inFlightRequests, this`drainResolvers, this`resolved,
               pending
      ensures Valid() && View() == M.FlushDrainWaiters(M.Expire(old(View()), pending.id))
    {
      hide View, Valid;
      Expire(pending);
      FlushDrainWaiters();
    }

    method Disarm(pending: PendingRequest)
      requires Valid() && Known(pending)
      modifies pending
      ensures View() == old(View()).(requests :=
                old(View()).requests[pending.id := old(pending.Flags()).(timerArmed := false)])
    {
      pending.timerArmed := false;
      assert Requests() == old(Requests())[pending.id := pending.Flags()];
    }

    /** Time a request out of the queue or out of the tracked ones. */
    method Expire(pending: PendingRequest)
      requires Valid() && Known(pending)
      modifies this`log, this`totalTimedOut, this`queue, this`inFlightRequests, pending
      ensures Valid() && View() == M.Expire(old(View()), pending.id)
    {
      assert View().requests[pending.id] == pending.Flags();
      hide View, Valid;
      SettleRequest(pending, M.TimedOut);
      CountTimeout();
      Forget(pending);
    }

    method Forget(pending: PendingRequest)
      requires Valid() && Known(pending)
      modifies this`queue, this`inFlightRequests
      ensures Valid()
      ensures View() == if pending.started
                        then old(View()).(tracked := M.Untrack(old(View()).tracked, pending.id))
                        else old(View()).(queue := M.RemoveFromQueue(old(View()).queue, pending.id))
    {
      if !pending.started {
        RemoveFromQueue(pending.id);
      } else {
        Untrack(pending);
      }
    }

    method CountTimeout()
      requires Valid()
      modifies this`totalTimedOut
      ensures Valid() && View() == old(View()).(totalTimedOut := old(View()).totalTimedOut + 1)
    {
      totalTimedOut := totalTimedOut + 1;
    }

    /** The `then` or `catch` on the promise of `execute()`. */
    method OnReaction(next: PendingRequest, ok: bool)
      requires Valid() && Known(next) && next.stage == M.Executing
      modifies this`log, next
      ensures Valid() && View() == M.OnReaction(old(View()), next.id, ok)
    {
      Mark(next, next.started, M.Reacted);
      if !next.settled && !next.timedOut {
        SettleRequest(next, if ok then M.Fulfilled else M.Rejected);
      }
    }

    /** `finally`, before it looks at the queue. */
    method Release(next: PendingRequest)
      requires Valid() && Known(next)
      modifies this`inFlight, this`inFlightRequests, next
      ensures Valid() && View() == M.Release(old(View()), next.id)
    {
      assert View().requests[next.id] == next.Flags();
      hide View, Valid;
      Mark(next, next.started, M.Done);
      Untrack(next);
      FreePlace();
    }

    method FreePlace()
      requires Valid()
      modifies this`inFlight
      ensures Valid() && View() == old(View()).(inFlight := old(View()).inFlight - 1)
    {
      inFlight := inFlight - 1;
    }

    /** The `finally` on the promise of `execute()`. */
    method OnFinally(next: PendingRequest)
      requires Valid() && Known(next) && next.stage == M.Reacted
      modifies this, accepted.Values
      ensures Valid() && accepted == old(accepted) && View() == M.OnFinally(old(View()), next.id)
    {
      Release(next);
      TryExecuteNext();
      FlushDrainWaiters();
    }

    method MarkDraining()
      requires Valid()
      modifies this`draining
      ensures Valid() && View() == M.Step(old(View()), M.MarkDraining)
    {
      draining := true;
    }

    /** A call of drain, up to its return or its wait; `bounded` if it was given a timeout. */
    method Drain(bounded: bool)
      requires Valid()
      modifies this`draining, this`drains, this`resolved, this`drainResolvers, this`deadlines
      ensures Valid() && View() == M.OnDrain(old(View()), bounded)
    {
      assert View().inFlight == inFlight && |View().queue| == |queue|;
      hide View, Valid;
      var call := BeginDrain();
      if inFlight == 0 && |queue| == 0 {
        ReturnFromDrain(call);
        return;
      }
      WaitForDrain(call, bounded);
    }

    method BeginDrain() returns (call: nat)
      requires Valid()
      modifies this`draining, this`drains
      ensures Valid() && call == old(View()).drains
      ensures View() == old(View()).(draining := true, drains := call + 1)
    {
      draining := true;
      call := drains;
      drains := drains + 1;
    }

    method ReturnFromDrain(call: nat)
      requires Valid()
      modifies this`resolved
      ensures Valid() && View() == old(View()).(resolved := old(View()).resolved + [call])
    {
      resolved := resolved + [call];
    }

    method WaitForDrain(call: nat, bounded: bool)
      requires Valid()
      modifies this`drainResolvers, this`deadlines
      ensures Valid()
      ensures View() == old(View()).(waiters := old(View()).waiters + [call],
                                     deadlines := old(View()).deadlines + (if bounded then 1 else 0))
    {
      drainResolvers := drainResolvers + [call];
      if bounded {
        deadlines := deadlines + 1;
      }
    }

    /** A drain's deadline timer fires. */
    method OnDrainDeadline()
      requires Valid() && deadlines > 0
      modifies this, accepted.Values
      ensures Valid() && accepted == old(accepted) && View() == M.Step(old(View()), M.DrainDeadline)
    {
      deadlines := deadlines - 1;
      assert View() == old(View()).(deadlines := deadlines);
      SettlePendingForDrain();
    }

    /** The object that an event is about: none if no request with its id was accepted. */
    ghost predicate Concerns(e: M.Event, p: PendingRequest?)
      reads this`accepted
    {
      match e
      case Enqueue(id, _) => id !in accepted
      case TimerFires(id) => if p == null then id !in accepted else Known(p) && p.id == id
      case OperationSettles(id, _) => if p == null then id !in accepted else Known(p) && p.id == id
      case OperationFinally(id) => if p == null then id !in accepted else Known(p) && p.id == id
      case _ => true
    }

    /** Any event, on the request it is about: a step of the machine, which keeps its invariant. */
    method Deliver(e: M.Event, p: PendingRequest?)
      requires Valid() && M.Inv(View()) && Concerns(e, p)
      modifies this, accepted.Values
      ensures Valid() && View() == M.Step(old(View()), e) && M.Inv(View())
    {
      M.StepInv(View(), e);
      assert p != null && Known(p) ==> View().requests[p.id] == p.Flags();
      hide M.Inv, Valid;
      match e
      case Enqueue(id, priority) => var _ := Enqueue(id, priority);
      case TimerFires(_) => if p != null && p.timerArmed { OnTimer(p); }
      case OperationSettles(_, ok) => if p != null && p.stage == M.Executing { OnReaction(p, ok); }
      case OperationFinally(_) => if p != null && p.stage == M.Reacted { OnFinally(p); }
      case MarkDraining => MarkDraining();
      case Drain(bounded) => Drain(bounded);
      case DrainDeadline => if deadlines > 0 { OnDrainDeadline(); }
    }
  }
}
