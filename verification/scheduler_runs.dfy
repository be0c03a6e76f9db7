/**
 What the steps of the scheduler do (src/apps/ladybug-server/scheduler.ts), told from outside: who is accepted
 and who starts, how requests are settled, when a drain returns, and what its deadline is good for.
 */
module SchedulerRuns {
  import opened Scheduler

  // ---------------------------------------------------------------- one step

  /** Nothing but these parts of the state may differ: the requests, the queue, what runs, and the counters. */
  ghost predicate SameDrains(s: State, r: State) {
    && r.draining == s.draining && r.deadlines == s.deadlines && r.drains == s.drains
    && r.maxConcurrency == s.maxConcurrency && r.maxQueue == s.maxQueue && r.refused == s.refused
  }

  /** With one place, or one request, exactly the head of the queue starts. */
  lemma OneStarts(s: State)
    requires s.queue != [] && s.inFlight < s.maxConcurrency
    requires s.inFlight + 1 == s.maxConcurrency || |s.queue| == 1
    requires s.queue[0].id in s.requests && !s.requests[s.queue[0].id].timedOut
    ensures TryExecuteNext(s) == Begin(s.(queue := s.queue[1..]), s.queue[0])
  {
    var s1 := Begin(s.(queue := s.queue[1..]), s.queue[0]);
    assert TryExecuteNext(s) == TryExecuteNext(s1);
    assert s1.inFlight >= s1.maxConcurrency || s1.queue == [];
  }

  /** A request is refused if and only if the scheduler drains or the queue is full; then nothing else happens.
      Otherwise it starts at once if a place is free, and waits behind all that go before it if not. */
  lemma EnqueueDoes(s: State, id: Id, priority: Priority)
    requires Inv(s) && id !in s.requests
    ensures var r := Step(s, Enqueue(id, priority));
            var ticket := Ticket(id, Rank(priority), |s.requests|);
            if s.draining || |s.queue| >= s.maxQueue then
              r == s.(totalRejected := s.totalRejected + 1, refused := s.refused + [id])
            else
              var free := s.inFlight < s.maxConcurrency;
              && SameDrains(s, r) && r.log == s.log && r.waiters == s.waiters && r.resolved == s.resolved
              && r.requests == s.requests[id := Request(false, free, false, true, if free then Executing else Waiting)]
              && r.inFlight == (if free then s.inFlight + 1 else s.inFlight)
              && multiset(r.queue) == multiset(s.queue) + (if free then multiset{} else multiset{ticket})
              && Tickets(r.dispatches) == Tickets(s.dispatches) + if free then [ticket] else []
  {
    hide Inv, Tickets, TryExecuteNext, Accept;
    if !s.draining && |s.queue| < s.maxQueue {
      if s.inFlight < s.maxConcurrency {
        FreeMeansEmpty(s);
        StartsAtOnce(s, id, priority);
      } else {
        Waits(s, id, priority);
      }
    }
  }

  lemma FreeMeansEmpty(s: State)
    requires Inv(s) && s.inFlight < s.maxConcurrency
    ensures s.queue == []
  {
  }

  lemma StartsAtOnce(s: State, id: Id, priority: Priority)
    requires s.inFlight < s.maxConcurrency && s.queue == []
    ensures var r := TryExecuteNext(Accept(s, id, priority));
            var ticket := Ticket(id, Rank(priority), |s.requests|);
            && SameDrains(s, r) && r.log == s.log && r.waiters == s.waiters && r.resolved == s.resolved
            && r.requests == s.requests[id := Request(false, true, false, true, Executing)]
            && r.inFlight == s.inFlight + 1 && r.queue == []
            && Tickets(r.dispatches) == Tickets(s.dispatches) + [ticket]
  {
    var s1 := Accept(s, id, priority);
    var ticket := Ticket(id, Rank(priority), |s.requests|);
    assert s1.queue == [ticket];
    OneStarts(s1);
    TicketsSnoc(s.dispatches, Dispatch(ticket, []));
    hide Tickets, TryExecuteNext;
    assert s1.queue[1..] == [];
  }

  lemma Waits(s: State, id: Id, priority: Priority)
    requires s.inFlight >= s.maxConcurrency
    ensures var r := TryExecuteNext(Accept(s, id, priority));
            r == Accept(s, id, priority)
            && multiset(r.queue) == multiset(s.queue) + multiset{Ticket(id, Rank(priority), |s.requests|)}
            && Tickets(r.dispatches) == Tickets(s.dispatches) + []
            && r.requests == s.requests[id := Request(false, false, false, true, Waiting)]
            && SameDrains(s, r) && r.log == s.log && r.waiters == s.waiters && r.resolved == s.resolved
            && r.inFlight == s.inFlight
  {
    InsertAddsOne(s.queue, Ticket(id, Rank(priority), |s.requests|));
  }

  /** A timer that fires before its request is settled settles it, and takes it out of the queue if it waits there;
      an operation that runs goes on. */
  lemma TimerDoes(s: State, id: Id)
    requires Inv(s) && Enabled(s, TimerFires(id))
    ensures var r := Step(s, TimerFires(id));
            var p := s.requests[id];
            && !p.settled && SameDrains(s, r) && r.inFlight == s.inFlight && r.dispatches == s.dispatches
            && r.log == s.log + [Settlement(id, TimedOut, p.started)]
            && r.requests == s.requests[id := Request(true, p.started, true, false, p.stage)]
            && (forall t :: t in r.queue <==> t in s.queue && t.id != id)
  {
    TimerIsUnsettled(s, id);
    var r := Expire(s, id);
    assert Step(s, TimerFires(id)) == FlushDrainWaiters(r);
    QueueWithoutId(s, id);
    hide Inv, RemoveFromQueue;
  }

  lemma TimerIsUnsettled(s: State, id: Id)
    requires Inv(s) && id in s.requests && s.requests[id].timerArmed
    ensures !s.requests[id].settled && (s.requests[id].started <==> !Queued(s.queue, id))
  {
    assert RequestOk(s.requests[id], Queued(s.queue, id), id in s.tracked);
  }

  lemma QueueWithoutId(s: State, id: Id)
    requires Inv(s)
    ensures forall t :: t in RemoveFromQueue(s.queue, id) <==> t in s.queue && t.id != id
    ensures !Queued(s.queue, id) ==> forall t :: t in s.queue ==> t.id != id
  {
    var queue := s.queue;
    assert OneTicketEach(queue);
    hide Inv;
    if Queued(queue, id) {
      var k := RemoveSplits(queue, id);
      SplitOut(queue, k);
    } else {
      RemoveAt(queue, id, |queue|);
    }
  }

  lemma SplitOut(queue: seq<Ticket>, k: nat)
    requires OneTicketEach(queue) && k < |queue|
    ensures forall t :: t in queue[..k] + queue[k + 1..] <==> t in queue && t.id != queue[k].id
  {
    forall t | t in queue && t.id != queue[k].id
      ensures t in queue[..k] + queue[k + 1..]
    {
      var i :| 0 <= i < |queue| && queue[i] == t;
      if i < k { assert t == queue[..k][i]; } else { assert t == queue[k + 1..][i - k - 1]; }
    }
  }

  /** When an operation ends, its result settles the request unless something else has; the place is still taken. */
  lemma ReactionDoes(s: State, id: Id, ok: bool)
    requires Inv(s) && Enabled(s, OperationSettles(id, ok))
    ensures var r := Step(s, OperationSettles(id, ok));
            var p := s.requests[id];
            && SameDrains(s, r) && r.inFlight == s.inFlight && r.queue == s.queue && r.dispatches == s.dispatches
            && r.requests == s.requests[id := Request(p.timedOut, true, true, false, Reacted)]
            && r.log == if p.settled then s.log
                        else s.log + [Settlement(id, if ok then Fulfilled else Rejected, true)]
  {
    var p := s.requests[id];
    assert RequestOk(p, Queued(s.queue, id), id in s.tracked);
    hide Inv;
  }

  /** Then its place goes to the head of the queue, or is free. */
  lemma FinallyDoes(s: State, id: Id)
    requires Inv(s) && Enabled(s, OperationFinally(id))
    ensures var r := Step(s, OperationFinally(id));
            var done := s.requests[id := s.requests[id].(stage := Done)];
            && SameDrains(s, r) && r.log == s.log
            && (if s.queue == [] then
                  r.queue == [] && r.inFlight == s.inFlight - 1 && r.requests == done && r.dispatches == s.dispatches
                else
                  var next := s.queue[0].id;
                  && r.queue == s.queue[1..] && r.inFlight == s.inFlight && next in done
                  && r.requests == done[next := done[next].(started := true, stage := Executing)]
                  && Tickets(r.dispatches) == Tickets(s.dispatches) + [s.queue[0]])
  {
    var s1 := Release(s, id);
    if s.queue == [] {
      assert TryExecuteNext(s1) == s1;
    } else {
      HeadCanStart(s, id);
      OneStarts(s1);
      TicketsSnoc(s.dispatches, Dispatch(s.queue[0], s.queue[1..]));
    }
    hide Inv, Tickets, TryExecuteNext, Release;
  }

  lemma HeadCanStart(s: State, id: Id)
    requires Inv(s) && s.queue != [] && Enabled(s, OperationFinally(id))
    ensures s.inFlight == s.maxConcurrency && s.queue[0].id != id
    ensures s.queue[0].id in s.requests && !s.requests[s.queue[0].id].timedOut
  {
    HeadIsWaiting(s);
  }

  /** The flag alone. */
  lemma MarkDoes(s: State)
    ensures Step(s, MarkDraining) == s.(draining := true)
  {
  }

  /** A drain returns at once when nothing runs or waits, and else waits; only a bounded one that waits arms a
      deadline. */
  lemma DrainDoes(s: State, bounded: bool)
    ensures var r := Step(s, Drain(bounded));
            var idle := s.inFlight == 0 && s.queue == [];
            && r.draining && r.drains == s.drains + 1 && r.requests == s.requests && r.queue == s.queue
            && r.log == s.log && r.inFlight == s.inFlight
            && (s.drains in r.resolved <== idle) && (s.drains in r.waiters <== !idle)
            && r.deadlines == if bounded && !idle then s.deadlines + 1 else s.deadlines
  {
  }

  // ---------------------------------------------------------------- whole runs

  /** A scheduler that drains goes on draining, and accepts nobody. */
  lemma {:induction false} DrainingAcceptsNobody(s: State, es: seq<Event>)
    requires Inv(s) && s.draining
    ensures Run(s, es).draining && Run(s, es).requests.Keys == s.requests.Keys
    decreases |es|
  {
    hide Inv, Step;
    if es != [] {
      StepInv(s, es[0]);
      KeepsDraining(s, es[0]);
      DrainingAcceptsNobody(Step(s, es[0]), es[1..]);
    }
  }

  lemma KeepsDraining(s: State, e: Event)
    requires Inv(s) && s.draining
    ensures Step(s, e).draining && Step(s, e).requests.Keys == s.requests.Keys
  {
    hide Inv, Tickets, OnTimer, OnReaction, OnFinally, SettlePendingForDrain;
    if Enabled(s, e) {
      match e
      case Enqueue(id, priority) => EnqueueDoes(s, id, priority);
      case TimerFires(id) => TimerDoes(s, id);
      case OperationSettles(id, ok) => ReactionDoes(s, id, ok);
      case OperationFinally(id) => FinallyDoes(s, id);
      case MarkDraining =>
      case Drain(bounded) =>
      case DrainDeadline => SettlingKeeps(s.(deadlines := s.deadlines - 1));
    }
  }

  /** What settling everything for a drain leaves alone. */
  ghost predicate SameWork(s: State, r: State) {
    && r.requests.Keys == s.requests.Keys && r.inFlight == s.inFlight && r.draining == s.draining
    && r.deadlines == s.deadlines && r.drains == s.drains && r.dispatches == s.dispatches
    && r.maxConcurrency == s.maxConcurrency && r.maxQueue == s.maxQueue && r.refused == s.refused
    && (forall id :: id in s.requests ==> r.requests[id].stage == s.requests[id].stage)
  }

  lemma {:induction false} DrainQueueKeeps(s: State)
    ensures SameWork(s, DrainQueue(s)) && DrainQueue(s).waiters == s.waiters && DrainQueue(s).resolved == s.resolved
    decreases |s.queue|
  {
    if s.queue != [] {
      var s1 := ShutDownOne(s.(queue := s.queue[1..]), s.queue[0].id);
      assert SameWork(s, s1);
      DrainQueueKeeps(s1);
    }
  }

  lemma {:induction false} DrainTrackedKeeps(s: State)
    ensures SameWork(s, DrainTracked(s))
    ensures DrainTracked(s).waiters == s.waiters && DrainTracked(s).resolved == s.resolved
    decreases |s.tracked|
  {
    if s.tracked != [] {
      var s1 := ShutDownOne(s.(tracked := s.tracked[1..]), s.tracked[0]);
      assert SameWork(s, s1);
      DrainTrackedKeeps(s1);
    }
  }

  lemma SettlingKeeps(s: State)
    ensures var r := SettlePendingForDrain(s);
            SameWork(s, r) && r.waiters == [] && r.resolved == s.resolved + s.waiters
  {
    DrainQueueKeeps(s);
    DrainTrackedKeeps(DrainQueue(s));
    hide DrainQueue, DrainTracked;
  }

  // ---------------------------------------------------------------- drains and their deadlines

  /** A deadline settles and releases everything and leaves the operations alone. */
  lemma DeadlineDoes(s: State)
    requires Inv(s) && Enabled(s, DrainDeadline)
    ensures var r := Step(s, DrainDeadline);
            && SameWork(s.(deadlines := s.deadlines - 1), r) && AllSettled(r.requests)
            && r.queue == [] && r.waiters == [] && r.resolved == s.resolved + s.waiters
  {
    var s0 := s.(deadlines := s.deadlines - 1);
    assert Step(s, DrainDeadline) == SettlePendingForDrain(s0);
    hide *;
    SettlingKeeps(s0);
    DeadlineInv(s);
  }

  /** Timers, ends of operations and requests release waiting drains only when nothing runs or waits any more. */
  lemma ReleasedAtIdle(s: State, e: Event)
    requires Inv(s) && !e.DrainDeadline?
    ensures var r := Step(s, e);
            && r.deadlines == (if e == Drain(true) && (s.inFlight != 0 || s.queue != []) then s.deadlines + 1
                               else s.deadlines)
            && ((r.resolved == s.resolved && s.waiters <= r.waiters) || (r.inFlight == 0 && r.queue == []))
  {
    hide Inv, Tickets, TryExecuteNext, Expire, Release, Accept, SettleRequest, RemoveFromQueue, Untrack;
    if Enabled(s, e) {
      match e
      case Enqueue(id, priority) => EnqueueDoes(s, id, priority);
      case TimerFires(id) => TimerDoes(s, id); FlushIs(Expire(s, id)); ExpireKeepsWaiters(s, id);
      case OperationSettles(id, ok) => ReactionDoes(s, id, ok); ReactionKeepsWaiters(s, id, ok);
      case OperationFinally(id) =>
        FinallyDoes(s, id);
        FlushIs(TryExecuteNext(Release(s, id)));
        StartKeepsWaiters(Release(s, id));
        ReleaseKeepsWaiters(s, id);
      case MarkDraining =>
      case Drain(bounded) =>
    }
  }

  lemma FlushIs(s: State)
    ensures var r := FlushDrainWaiters(s);
            (r == s) || (r.inFlight == 0 && r.queue == [])
  {
  }

  lemma ExpireKeepsWaiters(s: State, id: Id)
    requires id in s.requests
    ensures Expire(s, id).waiters == s.waiters && Expire(s, id).resolved == s.resolved
  {
  }

  lemma ReactionKeepsWaiters(s: State, id: Id, ok: bool)
    requires id in s.requests
    ensures OnReaction(s, id, ok).waiters == s.waiters && OnReaction(s, id, ok).resolved == s.resolved
  {
  }

  lemma ReleaseKeepsWaiters(s: State, id: Id)
    requires id in s.requests
    ensures Release(s, id).waiters == s.waiters && Release(s, id).resolved == s.resolved
  {
  }

  lemma {:induction false} StartKeepsWaiters(s: State)
    ensures TryExecuteNext(s).waiters == s.waiters && TryExecuteNext(s).resolved == s.resolved
    decreases |s.queue|
  {
    if s.inFlight < s.maxConcurrency && s.queue != [] {
      var next, rest := s.queue[0], s.(queue := s.queue[1..]);
      if next.id !in s.requests || s.requests[next.id].timedOut {
        StartKeepsWaiters(rest);
      } else {
        StartKeepsWaiters(Begin(rest, next));
      }
    }
  }

  /** How many deadlines fired in the run from s, and how many bounded drains had to wait. */
  function Fired(s: State, es: seq<Event>): nat
    decreases |es|
  {
    if es == [] then 0
    else (if es[0].DrainDeadline? && s.deadlines > 0 then 1 else 0) + Fired(Step(s, es[0]), es[1..])
  }

  function BoundedWaits(s: State, es: seq<Event>): nat
    decreases |es|
  {
    if es == [] then 0
    else (if es[0] == Drain(true) && (s.inFlight != 0 || s.queue != []) then 1 else 0)
         + BoundedWaits(Step(s, es[0]), es[1..])
  }

  lemma {:induction false} DeadlinesFrom(s: State, es: seq<Event>)
    requires Inv(s)
    ensures Run(s, es).deadlines + Fired(s, es) == s.deadlines + BoundedWaits(s, es)
    decreases |es|
  {
    hide Inv, Step;
    if es != [] {
      StepInv(s, es[0]);
      DeadlineCounts(s, es[0]);
      DeadlinesFrom(Step(s, es[0]), es[1..]);
    }
  }

  lemma DeadlineCounts(s: State, e: Event)
    requires Inv(s)
    ensures Step(s, e).deadlines + (if e.DrainDeadline? && s.deadlines > 0 then 1 else 0) ==
            s.deadlines + (if e == Drain(true) && (s.inFlight != 0 || s.queue != []) then 1 else 0)
  {
    hide Inv, SettlePendingForDrain;
    if e.DrainDeadline? {
      if s.deadlines > 0 {
        DeadlineDoes(s);
      }
    } else {
      hide Step;
      ReleasedAtIdle(s, e);
    }
  }

  /** In every run the armed deadlines and those that fired are, together, the bounded drains that had to wait. */
  lemma EveryBoundedWaitHasADeadline(maxConcurrency: int, maxQueue: int, es: seq<Event>)
    requires maxConcurrency >= 1 && maxQueue >= 1
    ensures var s := Start(maxConcurrency, maxQueue);
            Run(s, es).deadlines + Fired(s, es) == BoundedWaits(s, es)
  {
    StartInv(maxConcurrency, maxQueue);
    DeadlinesFrom(Start(maxConcurrency, maxQueue), es);
  }

  /** The drain has returned, or waits with a deadline armed. */
  ghost predicate InBounds(s: State, drain: nat) {
    drain in s.resolved || (drain in s.waiters && s.deadlines > 0)
  }

  lemma StaysInBounds(s: State, e: Event, drain: nat)
    requires Inv(s) && InBounds(s, drain)
    ensures InBounds(Step(s, e), drain)
  {
    hide Inv, SettlePendingForDrain;
    if e.DrainDeadline? {
      if s.deadlines > 0 {
        DeadlineDoes(s);
        hide Step;
      }
    } else {
      StepInv(s, e);
      hide Step;
      ReleasedAtIdle(s, e);
      ReturnsGrow(s, e);
      IdleHasNoWaiters(Step(s, e));
      DrainsStay(s, Step(s, e), drain);
    }
  }

  lemma IdleHasNoWaiters(s: State)
    requires Inv(s)
    ensures s.resolved + s.waiters == Iota(s.drains)
    ensures s.inFlight == 0 && s.queue == [] ==> s.waiters == []
  {
  }

  /** Drains are never forgotten. */
  lemma ReturnsGrow(s: State, e: Event)
    requires Inv(s)
    ensures s.drains <= Step(s, e).drains && s.resolved <= Step(s, e).resolved
    ensures s.resolved + s.waiters == Iota(s.drains)
  {
    hide Tickets, TryExecuteNext, Expire, Release, Accept, SettlePendingForDrain, Books, QueueOk, LogOk, Accounts,
         InTurn, Running, AllSettled;
    if Enabled(s, e) {
      match e
      case Enqueue(id, priority) => StartKeepsDrains(Accept(s, id, priority)); AcceptKeepsDrains(s, id, priority);
      case TimerFires(id) => ExpireKeepsDrains(s, id);
      case OperationSettles(id, ok) =>
      case OperationFinally(id) => StartKeepsDrains(Release(s, id)); ReleaseKeepsDrains(s, id);
      case MarkDraining =>
      case Drain(bounded) =>
      case DrainDeadline => SettlingKeeps(s.(deadlines := s.deadlines - 1));
    }
  }

  lemma AcceptKeepsDrains(s: State, id: Id, priority: Priority)
    ensures Accept(s, id, priority).drains == s.drains && Accept(s, id, priority).resolved == s.resolved
  {
  }

  lemma ExpireKeepsDrains(s: State, id: Id)
    requires id in s.requests
    ensures Expire(s, id).drains == s.drains && Expire(s, id).resolved == s.resolved
  {
  }

  lemma ReleaseKeepsDrains(s: State, id: Id)
    requires id in s.requests
    ensures Release(s, id).drains == s.drains && Release(s, id).resolved == s.resolved
  {
  }

  lemma {:induction false} StartKeepsDrains(s: State)
    ensures TryExecuteNext(s).drains == s.drains && TryExecuteNext(s).resolved == s.resolved
    decreases |s.queue|
  {
    if s.inFlight < s.maxConcurrency && s.queue != [] {
      var next, rest := s.queue[0], s.(queue := s.queue[1..]);
      if next.id !in s.requests || s.requests[next.id].timedOut {
        StartKeepsDrains(rest);
      } else {
        StartKeepsDrains(Begin(rest, next));
      }
    }
  }

  lemma DrainsStay(s: State, r: State, drain: nat)
    requires InBounds(s, drain) && s.resolved <= r.resolved && s.drains <= r.drains && s.deadlines <= r.deadlines
    requires s.resolved + s.waiters == Iota(s.drains) && r.resolved + r.waiters == Iota(r.drains)
    requires s.waiters <= r.waiters || r.waiters == []
    ensures InBounds(r, drain)
  {
    assert drain in s.resolved + s.waiters;
    assert drain < s.drains;
    assert Iota(r.drains)[drain] == drain;
    assert drain in r.resolved + r.waiters;
  }

  lemma {:induction false} RunStaysInBounds(s: State, es: seq<Event>, drain: nat)
    requires Inv(s) && InBounds(s, drain)
    ensures InBounds(Run(s, es), drain)
    decreases |es|
  {
    hide Inv, Step, InBounds;
    if es != [] {
      StepInv(s, es[0]);
      StaysInBounds(s, es[0], drain);
      RunStaysInBounds(Step(s, es[0]), es[1..], drain);
    }
  }

  /** No bounded drain hangs: whatever happens after the call, even if operations never end, it has returned, or its
      deadline is armed and firing it returns the call with everything accepted settled. */
  lemma {:induction false} BoundedDrainReturns(maxConcurrency: int, maxQueue: int, before: seq<Event>,
                                               after: seq<Event>)
    requires maxConcurrency >= 1 && maxQueue >= 1
    ensures var s := Run(Start(maxConcurrency, maxQueue), before);
            var r := Run(Step(s, Drain(true)), after);
            || s.drains in r.resolved
            || (Enabled(r, DrainDeadline)
                && s.drains in Step(r, DrainDeadline).resolved && AllSettled(Step(r, DrainDeadline).requests))
  {
    var s := Run(Start(maxConcurrency, maxQueue), before);
    var s1 := Step(s, Drain(true));
    hide *;
    ReachableInv(maxConcurrency, maxQueue, before);
    DrainIsInBounds(s);
    StepInv(s, Drain(true));
    RunInv(s1, after);
    RunStaysInBounds(s1, after, s.drains);
    InBoundsReturns(Run(s1, after), s.drains);
  }

  lemma DrainIsInBounds(s: State)
    ensures InBounds(Step(s, Drain(true)), s.drains)
  {
    DrainDoes(s, true);
    hide Step;
  }

  lemma InBoundsReturns(s: State, drain: nat)
    requires Inv(s) && InBounds(s, drain)
    ensures || drain in s.resolved
            || (Enabled(s, DrainDeadline)
                && drain in Step(s, DrainDeadline).resolved && AllSettled(Step(s, DrainDeadline).requests))
  {
    hide Inv, Step, AllSettled;
    if s.deadlines > 0 {
      DeadlineDoes(s);
    }
  }

  // ---------------------------------------------------------------- priorities by name

  /** Administration goes before reading, and both go before background writing. */
  predicate GoesBefore(a: Priority, b: Priority) {
    (a == Admin && b != Admin) || (a == InteractiveRead && b == BackgroundWrite)
  }

  lemma RanksAreNamed(a: Priority, b: Priority)
    ensures Rank(a) < Rank(b) <==> GoesBefore(a, b)
    ensures Rank(a) == Rank(b) <==> a == b
  {
  }

  /** The ticket is one the scheduler holds, or held. */
  ghost predicate Ticketed(s: State, t: Ticket) {
    t in s.queue || exists k :: 0 <= k < |s.dispatches| && (t == s.dispatches[k].ticket || t in s.dispatches[k].waiting)
  }

  lemma BeginTickets(s: State, t: Ticket)
    requires s.queue != [] && s.queue[0].id in s.requests
    requires Ticketed(Begin(s.(queue := s.queue[1..]), s.queue[0]), t)
    ensures Ticketed(s, t)
  {
    var r := Begin(s.(queue := s.queue[1..]), s.queue[0]);
    if t !in s.queue {
      var k :| 0 <= k < |r.dispatches| && (t == r.dispatches[k].ticket || t in r.dispatches[k].waiting);
      assert k < |s.dispatches| && s.dispatches[k] == r.dispatches[k];
    }
  }

  lemma {:induction false} StartTickets(s: State, t: Ticket)
    requires Ticketed(TryExecuteNext(s), t)
    ensures Ticketed(s, t)
    decreases |s.queue|
  {
    if s.inFlight < s.maxConcurrency && s.queue != [] {
      var next, rest := s.queue[0], s.(queue := s.queue[1..]);
      hide Ticketed;
      if next.id !in s.requests || s.requests[next.id].timedOut {
        StartTickets(rest, t);
        TailTickets(s, t);
      } else {
        StartTickets(Begin(rest, next), t);
        BeginTickets(s, t);
      }
    }
  }

  lemma TailTickets(s: State, t: Ticket)
    requires s.queue != [] && Ticketed(s.(queue := s.queue[1..]), t)
    ensures Ticketed(s, t)
  {
  }

  lemma {:induction false} InsertTickets(queue: seq<Ticket>, added: Ticket, t: Ticket)
    ensures t in InsertByPriority(queue, added) <==> t in queue || t == added
  {
    InsertAddsOne(queue, added);
    assert t in InsertByPriority(queue, added) <==> t in multiset(InsertByPriority(queue, added));
  }

  lemma {:induction false} RemoveTickets(queue: seq<Ticket>, id: Id, t: Ticket)
    requires t in RemoveFromQueue(queue, id)
    ensures t in queue
  {
    if queue[0].id != id && t != queue[0] {
      RemoveTickets(queue[1..], id, t);
    }
  }

  /** Only a request that is made adds a ticket, with the rank of its priority. */
  lemma StepTickets(s: State, e: Event, t: Ticket)
    requires Inv(s) && Ticketed(Step(s, e), t)
    ensures Ticketed(s, t) || exists p :: e == Enqueue(t.id, p) && t.rank == Rank(p)
  {
    hide Inv, OnEnqueue, OnTimer, OnReaction, OnFinally, OnDrain, SettlePendingForDrain, Ticketed;
    if Enabled(s, e) {
      match e
      case Enqueue(id, priority) => EnqueueTickets(s, id, priority, t);
      case TimerFires(id) => ExpireTickets(s, id, t);
      case OperationSettles(id, ok) => ReactionDoes(s, id, ok); SameTickets(s, Step(s, e), t);
      case OperationFinally(id) => FinallyTickets(s, id, t);
      case MarkDraining => SameTickets(s, Step(s, e), t);
      case Drain(bounded) => DrainKeepsTickets(s, bounded); SameTickets(s, Step(s, e), t);
      case DrainDeadline => DeadlineDoes(s); SameTickets(s, Step(s, e), t);
    }
  }

  lemma SameTickets(s: State, r: State, t: Ticket)
    requires Ticketed(r, t) && r.dispatches == s.dispatches && (r.queue == s.queue || r.queue == [])
    ensures Ticketed(s, t)
  {
  }

  lemma DrainKeepsTickets(s: State, bounded: bool)
    ensures OnDrain(s, bounded).dispatches == s.dispatches && OnDrain(s, bounded).queue == s.queue
  {
  }

  lemma EnqueueTickets(s: State, id: Id, priority: Priority, t: Ticket)
    requires Ticketed(OnEnqueue(s, id, priority), t)
    ensures Ticketed(s, t) || (t.id == id && t.rank == Rank(priority))
  {
    hide TryExecuteNext;
    if !s.draining && |s.queue| < s.maxQueue {
      StartTickets(Accept(s, id, priority), t);
      InsertTickets(s.queue, Ticket(id, Rank(priority), |s.requests|), t);
    }
  }

  lemma FinallyTickets(s: State, id: Id, t: Ticket)
    requires id in s.requests && Ticketed(OnFinally(s, id), t)
    ensures Ticketed(s, t)
  {
    hide TryExecuteNext;
    StartTickets(Release(s, id), t);
  }

  lemma ExpireTickets(s: State, id: Id, t: Ticket)
    requires Inv(s) && Enabled(s, TimerFires(id)) && Ticketed(Step(s, TimerFires(id)), t)
    ensures Ticketed(s, t)
  {
    TimerDoes(s, id);
    hide Inv, Step;
  }

  /** The ticket's rank is that of the priority its request was made with. */
  ghost predicate Asked(es: seq<Event>, t: Ticket, p: Priority) {
    Enqueue(t.id, p) in es && t.rank == Rank(p)
  }

  lemma {:induction false} TicketsWereAsked(s: State, es: seq<Event>, t: Ticket)
    requires Inv(s) && Ticketed(Run(s, es), t)
    ensures Ticketed(s, t) || exists p :: Asked(es, t, p)
    decreases |es|
  {
    if es != [] {
      hide Inv, Step, Ticketed;
      StepInv(s, es[0]);
      TicketsWereAsked(Step(s, es[0]), es[1..], t);
      if Ticketed(Step(s, es[0]), t) {
        StepTickets(s, es[0], t);
        if !Ticketed(s, t) {
          var p :| es[0] == Enqueue(t.id, p) && t.rank == Rank(p);
          assert Asked(es, t, p);
        }
      } else {
        var p :| Asked(es[1..], t, p);
        assert Asked(es, t, p);
      }
    }
  }

  /** Whenever a request was started, each one left waiting was made with a priority that goes after it, or with the
      same priority and accepted later. */
  lemma {:induction false} ServedByPriority(maxConcurrency: int, maxQueue: int, es: seq<Event>, k: nat, w: Ticket)
    requires maxConcurrency >= 1 && maxQueue >= 1
    requires k < |Run(Start(maxConcurrency, maxQueue), es).dispatches|
    requires w in Run(Start(maxConcurrency, maxQueue), es).dispatches[k].waiting
    ensures var t := Run(Start(maxConcurrency, maxQueue), es).dispatches[k].ticket;
            exists p, q :: Asked(es, t, p) && Asked(es, w, q)
                           && (GoesBefore(p, q) || (p == q && t.arrival < w.arrival))
  {
    var s := Start(maxConcurrency, maxQueue);
    var t := Run(s, es).dispatches[k].ticket;
    StartInv(maxConcurrency, maxQueue);
    ServedInTurn(maxConcurrency, maxQueue, es);
    assert Before(t, w);
    assert Ticketed(Run(s, es), t) && Ticketed(Run(s, es), w);
    hide Inv, Run;
    TicketsWereAsked(s, es, t);
    TicketsWereAsked(s, es, w);
    var p :| Asked(es, t, p);
    var q :| Asked(es, w, q);
    RanksAreNamed(p, q);
  }
}
