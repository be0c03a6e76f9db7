/**
 The priority request scheduler (src/apps/ladybug-server/scheduler.ts) as a state machine.

 Every synchronous piece of the source is one step: an enqueue, a request timer, the reaction to an
 operation's promise, the `finally` after it, a drain and a drain deadline.  The steps may come in any
 order the event loop allows.  scheduler_class.dfy holds the class, proved against these functions.
 */
module Scheduler {
  import opened Prelude

  type Id = nat

  datatype Priority = Admin | InteractiveRead | BackgroundWrite

  /** The position in PRIORITY_ORDER; smaller is served first. */
  function Rank(p: Priority): nat {
    match p case Admin => 0 case InteractiveRead => 1 case BackgroundWrite => 2
  }

  /** Where the promise of `execute()` is: not called, running, reacted to by then/catch, or through `finally`. */
  datatype Stage = Waiting | Executing | Reacted | Done

  datatype Request = Request(timedOut: bool, started: bool, settled: bool, timerArmed: bool, stage: Stage)

  /** A queue entry; `arrival` numbers the accepted requests. */
  datatype Ticket = Ticket(id: Id, rank: nat, arrival: nat)

  datatype Result = Fulfilled | Rejected | TimedOut | ShutDown

  /** A call of resolve or reject on a request's promise; `started` tells whether the request had left the queue. */
  datatype Settlement = Settlement(id: Id, result: Result, started: bool)

  /** A request leaving the queue to run, with the tickets that were left waiting. */
  datatype Dispatch = Dispatch(ticket: Ticket, waiting: seq<Ticket>)

  datatype State = State(
    maxConcurrency: int,
    maxQueue: int,
    requests: map<Id, Request>,    // every accepted request
    queue: seq<Ticket>,
    inFlight: int,
    tracked: seq<Id>,              // inFlightRequests, in insertion order
    totalProcessed: nat,
    totalTimedOut: nat,
    totalRejected: nat,
    draining: bool,
    waiters: seq<nat>,             // drainResolvers
    deadlines: nat,                // drain deadline timers not yet fired
    drains: nat,                   // calls of drain
    resolved: seq<nat>,            // drain calls that have returned
    log: seq<Settlement>,
    refused: seq<Id>,              // requests rejected at the door
    dispatches: seq<Dispatch>
  )

  datatype Event =
    | Enqueue(id: Id, priority: Priority)
    | TimerFires(id: Id)
    | OperationSettles(id: Id, ok: bool)
    | OperationFinally(id: Id)
    | MarkDraining
    | Drain(bounded: bool)
    | DrainDeadline

  function Start(maxConcurrency: int, maxQueue: int): (s: State) {
    State(maxConcurrency, maxQueue, map[], [], 0, [], 0, 0, 0, false, [], 0, 0, [], [], [], [])
  }

  // ---------------------------------------------------------------- the private methods

  function InsertByPriority(queue: seq<Ticket>, t: Ticket): (r: seq<Ticket>) {
    if queue == [] || queue[0].rank > t.rank then [t] + queue
    else [queue[0]] + InsertByPriority(queue[1..], t)
  }

  function RemoveFromQueue(queue: seq<Ticket>, id: Id): (r: seq<Ticket>) {
    if queue == [] then []
    else if queue[0].id == id then queue[1..]
    else [queue[0]] + RemoveFromQueue(queue[1..], id)
  }

  function Untrack(tracked: seq<Id>, id: Id): (r: seq<Id>) {
    if tracked == [] then []
    else if tracked[0] == id then tracked[1..]
    else [tracked[0]] + Untrack(tracked[1..], id)
  }

  /** Settle a request's promise and clear its timer. */
  function SettleRequest(s: State, id: Id, result: Result): (r: State)
    requires id in s.requests
  {
    var p := s.requests[id];
    s.(requests := s.requests[id := p.(settled := true, timerArmed := false,
                                       timedOut := p.timedOut || result == TimedOut)],
       log := s.log + [Settlement(id, result, p.started)])
  }

  function TryExecuteNext(s: State): (r: State)
    decreases |s.queue|
  {
    if s.inFlight >= s.maxConcurrency || s.queue == [] then s
    else
      var next := s.queue[0];
      var rest := s.(queue := s.queue[1..]);
      if next.id !in s.requests || s.requests[next.id].timedOut then TryExecuteNext(rest)
      else TryExecuteNext(Begin(rest, next))
  }

  function Begin(s: State, next: Ticket): (r: State)
    requires next.id in s.requests
  {
    s.(requests := s.requests[next.id := s.requests[next.id].(started := true, stage := Executing)],
       inFlight := s.inFlight + 1, totalProcessed := s.totalProcessed + 1,
       tracked := s.tracked + [next.id], dispatches := s.dispatches + [Dispatch(next, s.queue)])
  }

  function ResolveWaiters(s: State): (r: State) {
    s.(waiters := [], resolved := s.resolved + s.waiters)
  }

  function FlushDrainWaiters(s: State): (r: State) {
    if s.inFlight != 0 || s.queue != [] then s else ResolveWaiters(s)
  }

  /** Reject a request that a drain deadline finds unsettled. */
  function ShutDownOne(s: State, id: Id): (r: State) {
    if id !in s.requests || s.requests[id].settled then s
    else SettleRequest(s, id, ShutDown).(totalRejected := s.totalRejected + 1)
  }

  function DrainQueue(s: State): (r: State)
    decreases |s.queue|
  {
    if s.queue == [] then s else DrainQueue(ShutDownOne(s.(queue := s.queue[1..]), s.queue[0].id))
  }

  function DrainTracked(s: State): (r: State)
    decreases |s.tracked|
  {
    if s.tracked == [] then s else DrainTracked(ShutDownOne(s.(tracked := s.tracked[1..]), s.tracked[0]))
  }

  function SettlePendingForDrain(s: State): (r: State) {
    ResolveWaiters(DrainTracked(DrainQueue(s)))
  }

  // ---------------------------------------------------------------- the steps

  function Accept(s: State, id: Id, priority: Priority): (r: State) {
    var ticket := Ticket(id, Rank(priority), |s.requests|);
    s.(requests := s.requests[id := Request(false, false, false, true, Waiting)],
       queue := InsertByPriority(s.queue, ticket))
  }

  function OnEnqueue(s: State, id: Id, priority: Priority): (r: State) {
    if s.draining || |s.queue| >= s.maxQueue
    then s.(totalRejected := s.totalRejected + 1, refused := s.refused + [id])
    else TryExecuteNext(Accept(s, id, priority))
  }

  /** Time a request out of the queue or out of the tracked ones. */
  function Expire(s: State, id: Id): (r: State)
    requires id in s.requests
  {
    var s1 := SettleRequest(s, id, TimedOut).(totalTimedOut := s.totalTimedOut + 1);
    if s.requests[id].started then s1.(tracked := Untrack(s.tracked, id))
    else s1.(queue := RemoveFromQueue(s.queue, id))
  }

  function OnTimer(s: State, id: Id): (r: State)
    requires id in s.requests
  {
    var p := s.requests[id];
    if p.settled then s.(requests := s.requests[id := p.(timerArmed := false)])
    else FlushDrainWaiters(Expire(s, id))
  }

  function OnReaction(s: State, id: Id, ok: bool): (r: State)
    requires id in s.requests
  {
    var p := s.requests[id];
    var s1 := s.(requests := s.requests[id := p.(stage := Reacted)]);
    if p.settled || p.timedOut then s1 else SettleRequest(s1, id, if ok then Fulfilled else Rejected)
  }

  /** `finally`, before it looks at the queue. */
  function Release(s: State, id: Id): (r: State)
    requires id in s.requests
  {
    s.(requests := s.requests[id := s.requests[id].(stage := Done)],
       inFlight := s.inFlight - 1, tracked := Untrack(s.tracked, id))
  }

  function OnFinally(s: State, id: Id): (r: State)
    requires id in s.requests
  {
    FlushDrainWaiters(TryExecuteNext(Release(s, id)))
  }

  function OnDrain(s: State, bounded: bool): (r: State) {
    var s1 := s.(draining := true, drains := s.drains + 1);
    if s.inFlight == 0 && s.queue == [] then s1.(resolved := s.resolved + [s.drains])
    else s1.(waiters := s.waiters + [s.drains], deadlines := if bounded then s.deadlines + 1 else s.deadlines)
  }

  /** Which steps the event loop can take.  Request ids are not reused. */
  predicate Enabled(s: State, e: Event) {
    match e
    case Enqueue(id, _) => id !in s.requests
    case TimerFires(id) => id in s.requests && s.requests[id].timerArmed
    case OperationSettles(id, _) => id in s.requests && s.requests[id].stage == Executing
    case OperationFinally(id) => id in s.requests && s.requests[id].stage == Reacted
    case MarkDraining => true
    case Drain(_) => true
    case DrainDeadline => s.deadlines > 0
  }

  function Step(s: State, e: Event): (r: State) {
    if !Enabled(s, e) then s
    else match e
      case Enqueue(id, priority) => OnEnqueue(s, id, priority)
      case TimerFires(id) => OnTimer(s, id)
      case OperationSettles(id, ok) => OnReaction(s, id, ok)
      case OperationFinally(id) => OnFinally(s, id)
      case MarkDraining => s.(draining := true)
      case Drain(bounded) => OnDrain(s, bounded)
      case DrainDeadline => SettlePendingForDrain(s.(deadlines := s.deadlines - 1))
  }

  function Run(s: State, es: seq<Event>): (r: State)
    decreases |es|
  {
    if es == [] then s else Run(Step(s, es[0]), es[1..])
  }

  // ---------------------------------------------------------------- invariants

  ghost predicate Before(a: Ticket, b: Ticket) {
    a.rank < b.rank || (a.rank == b.rank && a.arrival < b.arrival)
  }

  /** In order of priority, then of acceptance. */
  ghost predicate Sorted(queue: seq<Ticket>) {
    forall i, j :: 0 <= i < j < |queue| ==> Before(queue[i], queue[j])
  }

  ghost predicate Queued(queue: seq<Ticket>, id: Id) {
    exists k :: 0 <= k < |queue| && queue[k].id == id
  }

  ghost predicate OneTicketEach(queue: seq<Ticket>) {
    forall i, j :: 0 <= i < j < |queue| ==> queue[i].id != queue[j].id
  }

  /** The flags of one request agree with its place: waiting in the queue, running, or over. */
  ghost predicate RequestOk(p: Request, queued: bool, tracked: bool) {
    && (p.started <==> p.stage != Waiting)
    && (queued <==> p.stage == Waiting && !p.settled)
    && (p.timerArmed <==> !p.settled)
    && (p.timedOut ==> p.settled)
    && (p.stage == Reacted || p.stage == Done ==> p.settled)
    && (tracked ==> p.stage == Executing || p.stage == Reacted)
    && (p.stage == Executing ==> p.settled || tracked)
  }

  ghost predicate Books(requests: map<Id, Request>, queue: seq<Ticket>, tracked: seq<Id>) {
    && OneTicketEach(queue) && Distinct(tracked)
    && (forall id :: Queued(queue, id) ==> id in requests)
    && (forall id :: id in tracked ==> id in requests)
    && (forall id :: id in requests ==> RequestOk(requests[id], Queued(queue, id), id in tracked))
  }

  /** The requests that were started and whose `finally` has not run. */
  ghost function Running(requests: map<Id, Request>): set<Id> {
    set id | id in requests && (requests[id].stage == Executing || requests[id].stage == Reacted)
  }

  /** A request is in the log exactly when it is settled, and at most once. */
  ghost predicate LogOk(requests: map<Id, Request>, log: seq<Settlement>) {
    && (forall i, j :: 0 <= i < j < |log| ==> log[i].id != log[j].id)
    && (forall k :: 0 <= k < |log| ==> log[k].id in requests && requests[log[k].id].settled)
    && (forall id :: id in requests && requests[id].settled ==> Logged(log, id))
  }

  ghost predicate Logged(log: seq<Settlement>, id: Id) {
    exists k :: 0 <= k < |log| && log[k].id == id
  }

  function CountResult(log: seq<Settlement>, result: Result): nat {
    if log == [] then 0 else CountResult(log[..|log| - 1], result) + (if log[|log| - 1].result == result then 1 else 0)
  }

  /** Requests settled in the queue, with this result. */
  function CountUnstarted(log: seq<Settlement>, result: Result): nat {
    if log == [] then 0
    else CountUnstarted(log[..|log| - 1], result) +
         (if log[|log| - 1].result == result && !log[|log| - 1].started then 1 else 0)
  }

  /** Every counter equals the number of the outcomes it is named after. */
  ghost predicate Accounts(s: State) {
    && |s.requests| == |s.queue| + s.totalProcessed + CountUnstarted(s.log, TimedOut) + CountUnstarted(s.log, ShutDown)
    && s.totalTimedOut == CountResult(s.log, TimedOut)
    && s.totalRejected == |s.refused| + CountResult(s.log, ShutDown)
    && s.totalProcessed == |s.dispatches|
  }

  /** Nobody left waiting had a claim to be started first. */
  ghost predicate InTurn(dispatches: seq<Dispatch>) {
    forall k :: 0 <= k < |dispatches| ==>
      forall w :: w in dispatches[k].waiting ==> Before(dispatches[k].ticket, w)
  }

  ghost predicate QueueOk(queue: seq<Ticket>, accepted: nat) {
    Sorted(queue) && forall k :: 0 <= k < |queue| ==> queue[k].arrival < accepted
  }

  ghost predicate AllSettled(requests: map<Id, Request>) {
    forall id :: id in requests ==> requests[id].settled
  }

  function Iota(n: nat): (r: seq<nat>) {
    seq(n, k => k)
  }

  /** Drain calls return in the order they were made; once one has returned, every request is settled. */
  ghost predicate DrainOk(s: State) {
    && s.resolved + s.waiters == Iota(s.drains)
    && (s.drains > 0 ==> s.draining) && s.deadlines <= s.drains
    && (s.resolved != [] ==> AllSettled(s.requests))
  }

  /** Holds between any two statements. */
  ghost predicate Core(s: State) {
    && s.maxConcurrency >= 1 && s.maxQueue >= 1
    && Books(s.requests, s.queue, s.tracked)
    && QueueOk(s.queue, |s.requests|) && |s.queue| <= s.maxQueue
    && s.inFlight == |Running(s.requests)| && s.inFlight <= s.maxConcurrency
    && LogOk(s.requests, s.log) && Accounts(s)
    && InTurn(s.dispatches)
    && DrainOk(s)
  }

  /** Holds between any two steps: requests wait only for a free place, and drains only while there is work. */
  ghost predicate Inv(s: State) {
    && Core(s)
    && (s.queue != [] ==> s.inFlight == s.maxConcurrency)
    && (s.waiters != [] ==> s.inFlight != 0 || s.queue != [])
  }

  // ---------------------------------------------------------------- the queue

  lemma {:induction false} InsertAddsOne(queue: seq<Ticket>, t: Ticket)
    ensures |InsertByPriority(queue, t)| == |queue| + 1
    ensures multiset(InsertByPriority(queue, t)) == multiset(queue) + multiset{t}
  {
    if queue != [] && queue[0].rank <= t.rank {
      assert queue == [queue[0]] + queue[1..];
      InsertAddsOne(queue[1..], t);
    }
  }

  lemma {:induction false} InsertKeepsOrder(queue: seq<Ticket>, t: Ticket)
    requires QueueOk(queue, t.arrival)
    ensures QueueOk(InsertByPriority(queue, t), t.arrival + 1)
    ensures |InsertByPriority(queue, t)| == |queue| + 1
    ensures multiset(InsertByPriority(queue, t)) == multiset(queue) + multiset{t}
  {
    InsertAddsOne(queue, t);
    if queue != [] && queue[0].rank <= t.rank {
      InsertKeepsOrder(queue[1..], t);
      var rest := InsertByPriority(queue[1..], t);
      forall k | 0 <= k < |rest|
        ensures Before(queue[0], rest[k])
      {
        assert rest[k] in multiset(rest);
        assert rest[k] == t || rest[k] in queue[1..];
      }
    }
  }

  lemma InsertKeepsTickets(queue: seq<Ticket>, t: Ticket)
    requires OneTicketEach(queue) && !Queued(queue, t.id)
    ensures OneTicketEach(InsertByPriority(queue, t))
    ensures forall id :: Queued(InsertByPriority(queue, t), id) <==> Queued(queue, id) || id == t.id
  {
    var k := InsertSplits(queue, t);
    OneTicketMore(queue, t, k);
    forall id: Id {
      QueuedAfterInsert(queue, t, k, id);
    }
  }

  lemma OneTicketMore(queue: seq<Ticket>, t: Ticket, k: nat)
    requires OneTicketEach(queue) && !Queued(queue, t.id) && k <= |queue|
    ensures OneTicketEach(queue[..k] + [t] + queue[k..])
  {
    var r := queue[..k] + [t] + queue[k..];
    forall i, j | 0 <= i < j < |r|
      ensures r[i].id != r[j].id
    {
      assert i < k ==> r[i] == queue[i];
      assert i > k ==> r[i] == queue[i - 1];
      assert j < k ==> r[j] == queue[j];
      assert j > k ==> r[j] == queue[j - 1];
    }
  }

  lemma QueuedAfterInsert(queue: seq<Ticket>, t: Ticket, k: nat, id: Id)
    requires k <= |queue|
    ensures Queued(queue[..k] + [t] + queue[k..], id) <==> Queued(queue, id) || id == t.id
  {
    var r := queue[..k] + [t] + queue[k..];
    if Queued(queue, id) {
      var i :| 0 <= i < |queue| && queue[i].id == id;
      assert r[if i < k then i else i + 1].id == id;
    }
    if id == t.id {
      assert r[k].id == id;
    }
    if Queued(r, id) && id != t.id {
      var i :| 0 <= i < |r| && r[i].id == id;
      assert queue[if i < k then i else i - 1].id == id;
    }
  }

  /** The new ticket is put between two parts of the queue. */
  lemma {:induction false} InsertSplits(queue: seq<Ticket>, t: Ticket) returns (k: nat)
    ensures k <= |queue| && InsertByPriority(queue, t) == queue[..k] + [t] + queue[k..]
  {
    if queue == [] || queue[0].rank > t.rank {
      k := 0;
      assert queue[..0] + [t] + queue[0..] == [t] + queue;
    } else {
      var rest := queue[1..];
      k := InsertSplits(rest, t);
      assert queue[..k + 1] == [queue[0]] + rest[..k] && queue[k + 1..] == rest[k..];
      k := k + 1;
    }
  }

  /** Removing by id takes out the one ticket of that request. */
  lemma {:induction false} RemoveSplits(queue: seq<Ticket>, id: Id) returns (k: nat)
    requires Queued(queue, id)
    ensures k < |queue| && queue[k].id == id && RemoveFromQueue(queue, id) == queue[..k] + queue[k + 1..]
  {
    if queue[0].id == id {
      k := 0;
      assert queue[..0] + queue[1..] == queue[1..];
    } else {
      var i :| 0 <= i < |queue| && queue[i].id == id;
      var rest := queue[1..];
      assert rest[i - 1].id == id;
      assert RemoveFromQueue(queue, id) == [queue[0]] + RemoveFromQueue(rest, id);
      hide RemoveFromQueue;
      var at := RemoveSplits(rest, id);
      WithoutBehindHead(queue, at);
      k := at + 1;
    }
  }

  lemma WithoutBehindHead(queue: seq<Ticket>, k: nat)
    requires k + 1 < |queue|
    ensures [queue[0]] + (queue[1..][..k] + queue[1..][k + 1..]) == queue[..k + 1] + queue[k + 2..]
  {
    assert queue[..k + 1] == [queue[0]] + queue[1..][..k] && queue[k + 2..] == queue[1..][k + 1..];
  }

  lemma RemoveKeepsTickets(queue: seq<Ticket>, id: Id, accepted: nat)
    requires QueueOk(queue, accepted) && OneTicketEach(queue) && Queued(queue, id)
    ensures var r := RemoveFromQueue(queue, id);
            && QueueOk(r, accepted) && OneTicketEach(r) && |r| == |queue| - 1
            && (forall u :: Queued(r, u) <==> Queued(queue, u) && u != id)
  {
    var k := RemoveSplits(queue, id);
    OneTicketLess(queue, k, accepted);
    QueuedWithout(queue, k);
  }

  lemma OneTicketLess(queue: seq<Ticket>, k: nat, accepted: nat)
    requires k < |queue| && QueueOk(queue, accepted) && OneTicketEach(queue)
    ensures QueueOk(queue[..k] + queue[k + 1..], accepted) && OneTicketEach(queue[..k] + queue[k + 1..])
  {
    var r := queue[..k] + queue[k + 1..];
    forall i | 0 <= i < |r|
      ensures r[i].arrival < accepted
    {
      assert r[i] == queue[if i < k then i else i + 1];
    }
    forall i, j | 0 <= i < j < |r|
      ensures Before(r[i], r[j]) && r[i].id != r[j].id
    {
      assert r[i] == queue[if i < k then i else i + 1];
      assert r[j] == queue[if j < k then j else j + 1];
    }
  }

  lemma QueuedWithout(queue: seq<Ticket>, k: nat)
    requires k < |queue| && OneTicketEach(queue)
    ensures forall u :: Queued(queue[..k] + queue[k + 1..], u) <==> Queued(queue, u) && u != queue[k].id
  {
    var r := queue[..k] + queue[k + 1..];
    forall u: Id
      ensures Queued(r, u) <==> Queued(queue, u) && u != queue[k].id
    {
      if Queued(queue, u) && u != queue[k].id {
        var i :| 0 <= i < |queue| && queue[i].id == u;
        assert r[if i < k then i else i - 1].id == u;
      }
      if Queued(r, u) {
        var i :| 0 <= i < |r| && r[i].id == u;
        assert queue[if i < k then i else i + 1].id == u;
      }
    }
  }

  lemma {:induction false} UntrackRemoves(tracked: seq<Id>, id: Id)
    requires Distinct(tracked)
    ensures Distinct(Untrack(tracked, id))
    ensures forall u :: u in Untrack(tracked, id) <==> u in tracked && u != id
  {
    if tracked != [] {
      var rest := tracked[1..];
      assert tracked == [tracked[0]] + rest && tracked[0] !in rest;
      UntrackRemoves(rest, id);
      if tracked[0] != id {
        assert tracked[0] !in Untrack(rest, id);
      }
    }
  }

  // ---------------------------------------------------------------- one request changes

  lemma BooksUpdate(requests: map<Id, Request>, queue: seq<Ticket>, tracked: seq<Id>,
                    id: Id, p: Request, queue2: seq<Ticket>, tracked2: seq<Id>)
    requires Books(requests, queue, tracked)
    requires OneTicketEach(queue2) && Distinct(tracked2)
    requires forall u :: u != id ==> (Queued(queue2, u) <==> Queued(queue, u)) && (u in tracked2 <==> u in tracked)
    requires RequestOk(p, Queued(queue2, id), id in tracked2)
    ensures Books(requests[id := p], queue2, tracked2)
  {
  }

  predicate IsRunning(p: Request) {
    p.stage == Executing || p.stage == Reacted
  }

  lemma RunningUpdate(requests: map<Id, Request>, id: Id, p: Request)
    ensures Running(requests[id := p]) == if IsRunning(p) then Running(requests) + {id} else Running(requests) - {id}
    ensures id in requests && IsRunning(p) == IsRunning(requests[id]) ==>
              Running(requests[id := p]) == Running(requests)
  {
  }

  lemma LogUpdate(requests: map<Id, Request>, log: seq<Settlement>, id: Id, p: Request, entry: Settlement)
    requires LogOk(requests, log) && entry.id == id
    requires id in requests && !requests[id].settled && p.settled
    ensures LogOk(requests[id := p], log + [entry])
  {
    var log2 := log + [entry];
    forall u | u in requests[id := p] && requests[id := p][u].settled
      ensures Logged(log2, u)
    {
      if u == id {
        assert log2[|log|].id == u;
      } else {
        assert Logged(log, u);
        var k :| 0 <= k < |log| && log[k].id == u;
        assert log2[k].id == u;
      }
    }
  }

  /** The state after a request is settled, leaving the queue or the tracking list as given. */
  function Settled(s: State, id: Id, result: Result, stage: Stage, queue2: seq<Ticket>, tracked2: seq<Id>): (r: State)
    requires id in s.requests
  {
    var p := s.requests[id];
    s.(requests := s.requests[id := Request(result == TimedOut, p.started, true, false, stage)],
       queue := queue2, tracked := tracked2,
       log := s.log + [Settlement(id, result, p.started)],
       totalTimedOut := s.totalTimedOut + (if result == TimedOut then 1 else 0),
       totalRejected := s.totalRejected + (if result == ShutDown then 1 else 0))
  }

  ghost predicate QueueWithout(queue: seq<Ticket>, queue2: seq<Ticket>, id: Id) {
    && |queue2| == |queue| - (if Queued(queue, id) then 1 else 0)
    && (forall u :: Queued(queue2, u) <==> Queued(queue, u) && u != id)
  }

  lemma SettledBooks(requests: map<Id, Request>, queue: seq<Ticket>, tracked: seq<Id>, log: seq<Settlement>,
                     id: Id, p2: Request, queue2: seq<Ticket>, tracked2: seq<Id>, entry: Settlement)
    requires Books(requests, queue, tracked) && LogOk(requests, log) && entry.id == id
    requires id in requests && !requests[id].settled && p2.settled && !p2.timerArmed
    requires p2.started == requests[id].started
    requires OneTicketEach(queue2) && Distinct(tracked2) && QueueWithout(queue, queue2, id)
    requires forall u :: u in tracked2 ==> u in tracked
    requires forall u :: u in tracked && u != id ==> u in tracked2
    requires if p2.started then IsRunning(p2) else p2.stage == Waiting
    ensures Books(requests[id := p2], queue2, tracked2) && LogOk(requests[id := p2], log + [entry])
    ensures Running(requests[id := p2]) == Running(requests) && |requests[id := p2]| == |requests|
    ensures requests[id].started <==> !Queued(queue, id)
  {
    assert RequestOk(requests[id], Queued(queue, id), id in tracked);
    BooksUpdate(requests, queue, tracked, id, p2, queue2, tracked2);
    RunningUpdate(requests, id, p2);
    LogUpdate(requests, log, id, p2, entry);
  }

  /** Settling keeps every invariant, provided the request leaves the queue, and leaves it for a reason the counters
      know. */
  lemma SettledCore(s: State, id: Id, result: Result, stage: Stage, queue2: seq<Ticket>, tracked2: seq<Id>)
    requires Core(s) && id in s.requests && !s.requests[id].settled
    requires QueueOk(queue2, |s.requests|) && OneTicketEach(queue2) && Distinct(tracked2)
    requires QueueWithout(s.queue, queue2, id)
    requires forall u :: u in tracked2 ==> u in s.tracked
    requires forall u :: u in s.tracked && u != id ==> u in tracked2
    requires if s.requests[id].started then stage == Executing || stage == Reacted
             else stage == Waiting && (result == TimedOut || result == ShutDown)
    ensures Core(Settled(s, id, result, stage, queue2, tracked2))
  {
    var p2 := Request(result == TimedOut, s.requests[id].started, true, false, stage);
    var entry := Settlement(id, result, p2.started);
    SettledBooks(s.requests, s.queue, s.tracked, s.log, id, p2, queue2, tracked2, entry);
  }

  lemma ShutDownSettles(s: State, id: Id, stage: Stage, queue2: seq<Ticket>, tracked2: seq<Id>)
    requires id in s.requests && !s.requests[id].settled && !s.requests[id].timedOut && s.requests[id].stage == stage
    ensures ShutDownOne(s.(queue := queue2, tracked := tracked2), id) ==
            Settled(s, id, ShutDown, stage, queue2, tracked2)
  {
  }

  lemma AcceptBooks(requests: map<Id, Request>, queue: seq<Ticket>, tracked: seq<Id>, log: seq<Settlement>, t: Ticket)
    requires Books(requests, queue, tracked) && LogOk(requests, log)
    requires t.id !in requests && t.arrival == |requests| && QueueOk(queue, |requests|)
    ensures var after := requests[t.id := Request(false, false, false, true, Waiting)];
            && Books(after, InsertByPriority(queue, t), tracked) && LogOk(after, log)
            && QueueOk(InsertByPriority(queue, t), |after|) && Running(after) == Running(requests)
            && |after| == |requests| + 1
  {
    var p := Request(false, false, false, true, Waiting);
    InsertKeepsOrder(queue, t);
    InsertKeepsTickets(queue, t);
    BooksUpdate(requests, queue, tracked, t.id, p, InsertByPriority(queue, t), tracked);
    RunningUpdate(requests, t.id, p);
    assert Running(requests) - {t.id} == Running(requests);
  }

  lemma AcceptCore(s: State, id: Id, priority: Priority)
    requires Core(s) && id !in s.requests && !s.draining && |s.queue| < s.maxQueue
    ensures Core(Accept(s, id, priority))
  {
    var ticket := Ticket(id, Rank(priority), |s.requests|);
    AcceptBooks(s.requests, s.queue, s.tracked, s.log, ticket);
    InsertKeepsOrder(s.queue, ticket);
  }

  lemma BeginBooks(requests: map<Id, Request>, queue: seq<Ticket>, tracked: seq<Id>, log: seq<Settlement>)
    requires Books(requests, queue, tracked) && LogOk(requests, log) && queue != []
    ensures var id := queue[0].id;
            id in requests && !requests[id].timedOut &&
            var after := requests[id := requests[id].(started := true, stage := Executing)];
            && Books(after, queue[1..], tracked + [id]) && LogOk(after, log)
            && |Running(after)| == |Running(requests)| + 1 && |after| == |requests|
  {
    var id := queue[0].id;
    assert Queued(queue, id);
    assert RequestOk(requests[id], true, id in tracked);
    assert queue[..0] + queue[1..] == queue[1..];
    QueuedWithout(queue, 0);
    DistinctSnoc(tracked, id);
    var p := requests[id].(started := true, stage := Executing);
    BooksUpdate(requests, queue, tracked, id, p, queue[1..], tracked + [id]);
    RunningUpdate(requests, id, p);
  }

  /** Starting the request at the head of the queue. */
  lemma {:induction false} BeginCore(s: State)
    requires Core(s) && s.queue != [] && s.inFlight < s.maxConcurrency
    ensures s.queue[0].id in s.requests && !s.requests[s.queue[0].id].timedOut
    ensures Core(Begin(s.(queue := s.queue[1..]), s.queue[0]))
  {
    BeginBooks(s.requests, s.queue, s.tracked, s.log);
    assert InTurn(s.dispatches + [Dispatch(s.queue[0], s.queue[1..])]);
  }

  lemma {:induction false} TryExecuteNextCore(s: State)
    requires Core(s)
    ensures var r := TryExecuteNext(s);
            && Core(r) && (r.queue != [] ==> r.inFlight == r.maxConcurrency)
            && r.waiters == s.waiters && r.resolved == s.resolved
    decreases |s.queue|
  {
    if s.inFlight < s.maxConcurrency && s.queue != [] {
      BeginCore(s);
      hide Core;
      TryExecuteNextCore(Begin(s.(queue := s.queue[1..]), s.queue[0]));
    }
  }

  lemma ReleaseCore(s: State, id: Id)
    requires Core(s) && id in s.requests && s.requests[id].stage == Reacted
    ensures Core(Release(s, id))
  {
    var p := s.requests[id].(stage := Done);
    assert RequestOk(s.requests[id], Queued(s.queue, id), id in s.tracked);
    UntrackRemoves(s.tracked, id);
    BooksUpdate(s.requests, s.queue, s.tracked, id, p, s.queue, Untrack(s.tracked, id));
    RunningUpdate(s.requests, id, p);
    assert id in Running(s.requests);
    assert |s.requests[id := p]| == |s.requests|;
  }

  /** With nothing queued and nothing in flight, every accepted request has been settled. */
  lemma IdleMeansSettled(s: State)
    requires Core(s) && s.queue == [] && (s.inFlight == 0 || s.tracked == [])
    ensures AllSettled(s.requests)
  {
    forall id | id in s.requests
      ensures s.requests[id].settled
    {
      assert RequestOk(s.requests[id], Queued(s.queue, id), id in s.tracked);
      if s.inFlight == 0 {
        assert Running(s.requests) == {};
        assert id !in Running(s.requests);
      }
    }
  }

  lemma ResolveCore(s: State)
    requires Core(s) && AllSettled(s.requests)
    ensures Core(ResolveWaiters(s))
  {
    assert s.resolved + s.waiters + [] == s.resolved + s.waiters;
  }

  lemma FlushInv(s: State)
    requires Core(s) && (s.queue != [] ==> s.inFlight == s.maxConcurrency)
    ensures Inv(FlushDrainWaiters(s))
  {
    if s.inFlight == 0 && s.queue == [] {
      IdleMeansSettled(s);
      ResolveCore(s);
    }
  }

  // ---------------------------------------------------------------- every step

  lemma EnqueueInv(s: State, id: Id, priority: Priority)
    requires Inv(s) && id !in s.requests
    ensures Inv(OnEnqueue(s, id, priority))
  {
    if !s.draining && |s.queue| < s.maxQueue {
      assert s.waiters == [] by { assert |s.resolved + s.waiters| == s.drains; }
      AcceptCore(s, id, priority);
      TryExecuteNextCore(Accept(s, id, priority));
    }
  }

  lemma TimerInv(s: State, id: Id)
    requires Inv(s) && id in s.requests && s.requests[id].timerArmed
    ensures Inv(OnTimer(s, id))
  {
    var p := s.requests[id];
    assert RequestOk(p, Queued(s.queue, id), id in s.tracked);
    if p.started {
      UntrackRemoves(s.tracked, id);
      SettledCore(s, id, TimedOut, p.stage, s.queue, Untrack(s.tracked, id));
    } else {
      RemoveKeepsTickets(s.queue, id, |s.requests|);
      SettledCore(s, id, TimedOut, p.stage, RemoveFromQueue(s.queue, id), s.tracked);
    }
    ExpireSettles(s, id);
    hide *;
    FlushInv(Expire(s, id));
    TimerFlushes(s, id);
  }

  lemma ExpireSettles(s: State, id: Id)
    requires id in s.requests && !s.requests[id].settled && !s.requests[id].timedOut
    ensures var p := s.requests[id];
            Expire(s, id) == if p.started then Settled(s, id, TimedOut, p.stage, s.queue, Untrack(s.tracked, id))
                             else Settled(s, id, TimedOut, p.stage, RemoveFromQueue(s.queue, id), s.tracked)
    ensures s.queue != [] && s.inFlight == s.maxConcurrency && Expire(s, id).queue != []
            ==> Expire(s, id).inFlight == Expire(s, id).maxConcurrency
  {
  }

  lemma TimerFlushes(s: State, id: Id)
    requires id in s.requests && !s.requests[id].settled
    ensures OnTimer(s, id) == FlushDrainWaiters(Expire(s, id))
  {
  }

  lemma ReactionInv(s: State, id: Id, ok: bool)
    requires Inv(s) && id in s.requests && s.requests[id].stage == Executing
    ensures Inv(OnReaction(s, id, ok))
  {
    RunningIsOk(s, id);
    if s.requests[id].settled {
      LateReactionCore(s, id);
    } else {
      SettledCore(s, id, if ok then Fulfilled else Rejected, Reacted, s.queue, s.tracked);
      ReactionSettles(s, id, ok);
    }
    hide Core;
  }

  /** What the books say of a request whose operation runs. */
  lemma RunningIsOk(s: State, id: Id)
    requires Core(s) && id in s.requests && s.requests[id].stage == Executing
    ensures var p := s.requests[id];
            && p.started && (!p.settled ==> !p.timedOut) && !Queued(s.queue, id)
            && QueueOk(s.queue, |s.requests|) && OneTicketEach(s.queue) && Distinct(s.tracked)
            && QueueWithout(s.queue, s.queue, id)
  {
    hide LogOk, Accounts, InTurn, DrainOk, Running, QueueOk;
    assert RequestOk(s.requests[id], Queued(s.queue, id), id in s.tracked);
  }

  /** A reaction that comes after its request was settled only moves it to its next stage. */
  lemma LateReactionCore(s: State, id: Id)
    requires Core(s) && id in s.requests && s.requests[id].stage == Executing && s.requests[id].settled
    ensures Core(s.(requests := s.requests[id := s.requests[id].(stage := Reacted)]))
  {
    var p2 := s.requests[id].(stage := Reacted);
    assert RequestOk(s.requests[id], Queued(s.queue, id), id in s.tracked);
    BooksUpdate(s.requests, s.queue, s.tracked, id, p2, s.queue, s.tracked);
    RunningUpdate(s.requests, id, p2);
    assert |s.requests[id := p2]| == |s.requests|;
    hide Books, InTurn, QueueOk, Running;
  }

  lemma ReactionSettles(s: State, id: Id, ok: bool)
    requires id in s.requests && !s.requests[id].settled && !s.requests[id].timedOut
    ensures OnReaction(s, id, ok) == Settled(s, id, if ok then Fulfilled else Rejected, Reacted, s.queue, s.tracked)
  {
    var p := s.requests[id];
    var p2 := Request(false, p.started, true, false, Reacted);
    assert s.requests[id := p.(stage := Reacted)][id := p2] == s.requests[id := p2];
  }

  lemma FinallyInv(s: State, id: Id)
    requires Inv(s) && id in s.requests && s.requests[id].stage == Reacted
    ensures Inv(OnFinally(s, id))
  {
    ReleaseCore(s, id);
    TryExecuteNextCore(Release(s, id));
    FlushInv(TryExecuteNext(Release(s, id)));
  }

  lemma DrainInv(s: State, bounded: bool)
    requires Inv(s)
    ensures Inv(OnDrain(s, bounded))
  {
    hide LogOk, InTurn, Running, OneTicketEach, QueueOk;
    IotaSnoc(s.resolved, s.waiters, s.drains);
    if s.inFlight == 0 && s.queue == [] {
      IdleMeansSettled(s);
    }
    assert DrainOk(OnDrain(s, bounded));
  }

  lemma IotaSnoc(resolved: seq<nat>, waiters: seq<nat>, drains: nat)
    requires resolved + waiters == Iota(drains)
    ensures resolved + (waiters + [drains]) == Iota(drains + 1)
    ensures waiters == [] ==> (resolved + [drains]) + waiters == Iota(drains + 1)
  {
    assert resolved + (waiters + [drains]) == (resolved + waiters) + [drains];
  }

  lemma HeadIsWaiting(s: State)
    requires Core(s) && s.queue != []
    ensures var id := s.queue[0].id;
            && id in s.requests && s.requests[id] == Request(false, false, false, s.requests[id].timerArmed, Waiting)
            && QueueOk(s.queue[1..], |s.requests|) && OneTicketEach(s.queue[1..])
            && QueueWithout(s.queue, s.queue[1..], id)
            && Distinct(s.tracked)
  {
    hide LogOk, Accounts, InTurn, DrainOk, Running;
    var id := s.queue[0].id;
    assert Queued(s.queue, id);
    assert RequestOk(s.requests[id], true, id in s.tracked);
    assert s.queue[..0] + s.queue[1..] == s.queue[1..];
    QueuedWithout(s.queue, 0);
  }

  lemma {:induction false} ShutDownQueueHead(s: State)
    requires Core(s) && s.queue != []
    ensures Core(ShutDownOne(s.(queue := s.queue[1..]), s.queue[0].id))
  {
    hide *;
    var id := s.queue[0].id;
    HeadIsWaiting(s);
    SettledCore(s, id, ShutDown, Waiting, s.queue[1..], s.tracked);
    ShutDownSettles(s, id, Waiting, s.queue[1..], s.tracked);
  }

  lemma {:induction false} DrainQueueCore(s: State)
    requires Core(s)
    ensures Core(DrainQueue(s)) && DrainQueue(s).queue == []
    decreases |s.queue|
  {
    if s.queue != [] {
      ShutDownQueueHead(s);
      hide Core;
      DrainQueueCore(ShutDownOne(s.(queue := s.queue[1..]), s.queue[0].id));
    }
  }

  lemma ShutDownTrackedHead(s: State)
    requires Core(s) && s.tracked != []
    ensures Core(ShutDownOne(s.(tracked := s.tracked[1..]), s.tracked[0]))
  {
    var id, rest := s.tracked[0], s.tracked[1..];
    assert s.tracked == [id] + rest && id !in rest;
    var p := s.requests[id];
    assert RequestOk(p, Queued(s.queue, id), true);
    if p.settled {
      BooksUpdate(s.requests, s.queue, s.tracked, id, p, s.queue, rest);
      assert s.requests[id := p] == s.requests;
    } else {
      SettledCore(s, id, ShutDown, p.stage, s.queue, rest);
      ShutDownSettles(s, id, p.stage, s.queue, rest);
    }
  }

  lemma {:induction false} DrainTrackedCore(s: State)
    requires Core(s) && s.queue == []
    ensures Core(DrainTracked(s)) && DrainTracked(s).tracked == [] && DrainTracked(s).queue == []
    decreases |s.tracked|
  {
    if s.tracked != [] {
      ShutDownTrackedHead(s);
      hide Core;
      DrainTrackedCore(ShutDownOne(s.(tracked := s.tracked[1..]), s.tracked[0]));
    }
  }

  lemma DeadlineInv(s: State)
    requires Inv(s) && s.deadlines > 0
    ensures var r := SettlePendingForDrain(s.(deadlines := s.deadlines - 1));
            Inv(r) && r.waiters == [] && r.queue == [] && AllSettled(r.requests)
  {
    var s0 := s.(deadlines := s.deadlines - 1);
    DrainQueueCore(s0);
    DrainTrackedCore(DrainQueue(s0));
    IdleMeansSettled(DrainTracked(DrainQueue(s0)));
    ResolveCore(DrainTracked(DrainQueue(s0)));
  }

  lemma MarkInv(s: State)
    requires Inv(s)
    ensures Inv(s.(draining := true))
  {
  }

  lemma StepInv(s: State, e: Event)
    requires Inv(s)
    ensures Inv(Step(s, e))
  {
    if Enabled(s, e) {
      hide Inv, OnEnqueue, OnTimer, OnReaction, OnFinally, OnDrain, SettlePendingForDrain;
      match e
      case Enqueue(id, priority) => EnqueueInv(s, id, priority);
      case TimerFires(id) => TimerInv(s, id);
      case OperationSettles(id, ok) => ReactionInv(s, id, ok);
      case OperationFinally(id) => FinallyInv(s, id);
      case MarkDraining => MarkInv(s);
      case Drain(bounded) => DrainInv(s, bounded);
      case DrainDeadline => DeadlineInv(s);
    }
  }

  lemma StartBooks()
    ensures Books(map[], [], []) && QueueOk([], 0) && LogOk(map[], []) && InTurn([]) && Running(map[]) == {}
  {
  }

  lemma StartInv(maxConcurrency: int, maxQueue: int)
    requires maxConcurrency >= 1 && maxQueue >= 1
    ensures Inv(Start(maxConcurrency, maxQueue))
  {
    StartBooks();
    hide Books, QueueOk, LogOk, InTurn, Running;
  }

  lemma {:induction false} RunInv(s: State, es: seq<Event>)
    requires Inv(s)
    ensures Inv(Run(s, es))
    decreases |es|
  {
    if es != [] {
      StepInv(s, es[0]);
      RunInv(Step(s, es[0]), es[1..]);
    }
  }

  // ---------------------------------------------------------------- main results

  lemma ReachableInv(maxConcurrency: int, maxQueue: int, es: seq<Event>)
    requires maxConcurrency >= 1 && maxQueue >= 1
    ensures Inv(Run(Start(maxConcurrency, maxQueue), es))
  {
    StartInv(maxConcurrency, maxQueue);
    RunInv(Start(maxConcurrency, maxQueue), es);
  }

  /** Every accepted request is settled at most once; a running one is settled or still tracked for the drain; an
      unsettled one has its timer. */
  lemma SettledAtMostOnce(maxConcurrency: int, maxQueue: int, es: seq<Event>)
    requires maxConcurrency >= 1 && maxQueue >= 1
    ensures var s := Run(Start(maxConcurrency, maxQueue), es);
            && (forall i, j :: 0 <= i < j < |s.log| ==> s.log[i].id != s.log[j].id)
            && (forall id :: id in s.requests ==> (s.requests[id].settled <==> Logged(s.log, id)))
            && (forall id :: id in Running(s.requests) ==> s.requests[id].settled || id in s.tracked)
            && (forall id :: id in s.requests && !s.requests[id].settled ==> s.requests[id].timerArmed)
            && (forall id :: id in s.requests && !s.requests[id].settled ==>
                  Queued(s.queue, id) || id in Running(s.requests))
  {
    ReachableInv(maxConcurrency, maxQueue, es);
    var s := Run(Start(maxConcurrency, maxQueue), es);
    forall id | id in s.requests
      ensures s.requests[id].settled <==> Logged(s.log, id)
      ensures id in Running(s.requests) ==> s.requests[id].settled || id in s.tracked
    {
      assert RequestOk(s.requests[id], Queued(s.queue, id), id in s.tracked);
    }
  }

  /** No lost wakeup: a drain that has not returned has work to wait for, and it returns only once everything accepted
      is settled. */
  lemma DrainsReturnWhenAllIsSettled(maxConcurrency: int, maxQueue: int, es: seq<Event>)
    requires maxConcurrency >= 1 && maxQueue >= 1
    ensures var s := Run(Start(maxConcurrency, maxQueue), es);
            && (s.waiters != [] ==> s.inFlight != 0 || s.queue != [])
            && (s.resolved != [] ==> s.draining && AllSettled(s.requests))
            && s.resolved + s.waiters == Iota(s.drains)
  {
    ReachableInv(maxConcurrency, maxQueue, es);
    var s := Run(Start(maxConcurrency, maxQueue), es);
    assert |s.resolved + s.waiters| == s.drains;
  }

  /** A drain deadline releases every drain, whatever operations are still running. */
  lemma DeadlineReleasesEveryDrain(maxConcurrency: int, maxQueue: int, es: seq<Event>)
    requires maxConcurrency >= 1 && maxQueue >= 1
    ensures var s := Run(Start(maxConcurrency, maxQueue), es);
            s.deadlines > 0 ==>
              var r := Step(s, DrainDeadline);
              r.waiters == [] && r.queue == [] && r.resolved == Iota(r.drains) && AllSettled(r.requests)
  {
    ReachableInv(maxConcurrency, maxQueue, es);
    var s := Run(Start(maxConcurrency, maxQueue), es);
    hide Inv, Step, Run, AllSettled;
    if s.deadlines > 0 {
      DeadlineReleases(s);
    }
  }

  lemma DeadlineReleases(s: State)
    requires Inv(s) && s.deadlines > 0
    ensures var r := Step(s, DrainDeadline);
            r.waiters == [] && r.queue == [] && r.resolved == Iota(r.drains) && AllSettled(r.requests)
  {
    var r := Step(s, DrainDeadline);
    assert r == SettlePendingForDrain(s.(deadlines := s.deadlines - 1));
    hide Step, SettlePendingForDrain, AllSettled;
    DeadlineInv(s);
    assert DrainOk(r);
    hide Core, Inv;
    assert r.resolved + r.waiters == r.resolved;
  }

  /** The bounds hold, no place stays free while a request waits, and every counter equals the number of its
      outcomes. */
  lemma BoundsAndAccounts(maxConcurrency: int, maxQueue: int, es: seq<Event>)
    requires maxConcurrency >= 1 && maxQueue >= 1
    ensures var s := Run(Start(maxConcurrency, maxQueue), es);
            && s.inFlight == |Running(s.requests)| <= s.maxConcurrency && |s.queue| <= s.maxQueue
            && (s.queue != [] ==> s.inFlight == s.maxConcurrency)
            && |s.requests| == |s.queue| + s.totalProcessed
                               + CountUnstarted(s.log, TimedOut) + CountUnstarted(s.log, ShutDown)
            && s.totalTimedOut == CountResult(s.log, TimedOut)
            && s.totalRejected == |s.refused| + CountResult(s.log, ShutDown)
  {
    ReachableInv(maxConcurrency, maxQueue, es);
  }

  /** Whenever a request was started, nobody waiting had higher priority, or equal priority and an earlier arrival;
      the queue is in that order. */
  lemma ServedInTurn(maxConcurrency: int, maxQueue: int, es: seq<Event>)
    requires maxConcurrency >= 1 && maxQueue >= 1
    ensures var s := Run(Start(maxConcurrency, maxQueue), es);
            Sorted(s.queue) && InTurn(s.dispatches) && |s.dispatches| == s.totalProcessed
  {
    ReachableInv(maxConcurrency, maxQueue, es);
  }

  function Tickets(dispatches: seq<Dispatch>): (r: seq<Ticket>)
    ensures |r| == |dispatches|
  {
    seq(|dispatches|, k requires 0 <= k < |dispatches| => dispatches[k].ticket)
  }

  function Min(a: int, b: int): int { if a < b then a else b }

  ghost predicate Startable(s: State) {
    forall k :: 0 <= k < |s.queue| ==> s.queue[k].id in s.requests && !s.requests[s.queue[k].id].timedOut
  }

  /** How many of the waiting requests there are places for. */
  function Places(s: State): (k: int) { Min(|s.queue|, s.maxConcurrency - s.inFlight) }

  /** From `s` to `r` exactly the head of the queue was started, in queue order, as long as there were places. */
  ghost predicate HeadStarted(s: State, r: State) {
    var k := Places(s);
    && 0 <= k && r.queue == s.queue[k..] && r.inFlight == s.inFlight + k
    && Tickets(r.dispatches) == Tickets(s.dispatches) + s.queue[..k]
  }

  /** Free places are given to the head of the queue, in queue order, until the places or the queue run out. */
  lemma {:induction false} StartsTheHeadOfTheQueue(s: State)
    requires s.inFlight <= s.maxConcurrency && Startable(s)
    ensures HeadStarted(s, TryExecuteNext(s))
    decreases |s.queue|
  {
    if s.inFlight < s.maxConcurrency && s.queue != [] {
      var s1 := Begin(s.(queue := s.queue[1..]), s.queue[0]);
      StartsOne(s);
      hide *;
      StartsTheHeadOfTheQueue(s1);
      OneMoreStarted(s, s1, TryExecuteNext(s1));
    } else {
      NoneStarted(s);
    }
  }

  lemma NoneStarted(s: State)
    requires s.inFlight <= s.maxConcurrency && (s.inFlight == s.maxConcurrency || s.queue == [])
    ensures HeadStarted(s, TryExecuteNext(s))
  {
    assert TryExecuteNext(s) == s;
    hide TryExecuteNext, Tickets;
    assert s.queue[..0] == [] && s.queue[0..] == s.queue;
  }

  lemma OneMoreStarted(s: State, s1: State, r: State)
    requires s.inFlight < s.maxConcurrency && s.queue != []
    requires s1.queue == s.queue[1..] && s1.inFlight == s.inFlight + 1 && s1.maxConcurrency == s.maxConcurrency
    requires Tickets(s1.dispatches) == Tickets(s.dispatches) + [s.queue[0]]
    requires HeadStarted(s1, r)
    ensures HeadStarted(s, r)
  {
    hide Tickets;
    HeadAndPrefix(Tickets(s.dispatches), s.queue, Places(s1));
  }

  lemma HeadAndPrefix(before: seq<Ticket>, queue: seq<Ticket>, k: nat)
    requires k < |queue|
    ensures (before + [queue[0]]) + queue[1..][..k] == before + queue[..k + 1]
    ensures queue[1..][k..] == queue[k + 1..]
  {
    assert queue[..k + 1] == [queue[0]] + queue[1..][..k];
  }

  lemma StartsOne(s: State)
    requires s.inFlight < s.maxConcurrency && s.queue != [] && Startable(s)
    ensures s.queue[0].id in s.requests
    ensures var s1 := Begin(s.(queue := s.queue[1..]), s.queue[0]);
            && TryExecuteNext(s) == TryExecuteNext(s1) && Startable(s1)
            && s1.queue == s.queue[1..] && s1.inFlight == s.inFlight + 1 && s1.maxConcurrency == s.maxConcurrency
            && Tickets(s1.dispatches) == Tickets(s.dispatches) + [s.queue[0]]
  {
    var s1 := Begin(s.(queue := s.queue[1..]), s.queue[0]);
    hide Tickets;
    StaysStartable(s);
    TicketsSnoc(s.dispatches, Dispatch(s.queue[0], s.queue[1..]));
  }

  lemma StaysStartable(s: State)
    requires s.queue != [] && Startable(s)
    ensures s.queue[0].id in s.requests && Startable(Begin(s.(queue := s.queue[1..]), s.queue[0]))
  {
    var s1 := Begin(s.(queue := s.queue[1..]), s.queue[0]);
    forall k | 0 <= k < |s1.queue|
      ensures s1.queue[k].id in s1.requests && !s1.requests[s1.queue[k].id].timedOut
    {
      assert s1.queue[k] == s.queue[k + 1];
    }
  }

  lemma TicketsSnoc(dispatches: seq<Dispatch>, d: Dispatch)
    ensures Tickets(dispatches + [d]) == Tickets(dispatches) + [d.ticket]
  {
  }

  /** In every reachable state the queue holds only requests that can be started. */
  lemma QueueIsStartable(s: State)
    requires Core(s)
    ensures s.inFlight <= s.maxConcurrency && Startable(s)
  {
    forall k | 0 <= k < |s.queue|
      ensures s.queue[k].id in s.requests && !s.requests[s.queue[k].id].timedOut
    {
      var id := s.queue[k].id;
      assert Queued(s.queue, id);
      assert RequestOk(s.requests[id], true, id in s.tracked);
    }
  }

  /** The event that can make the scheduler settle a request in this way. */
  predicate Causes(e: Event, entry: Settlement) {
    match entry.result
    case Fulfilled => e == OperationSettles(entry.id, true)
    case Rejected => e == OperationSettles(entry.id, false)
    case TimedOut => e == TimerFires(entry.id)
    case ShutDown => e == DrainDeadline
  }

  lemma {:induction false} TryExecuteNextLog(s: State)
    ensures TryExecuteNext(s).log == s.log
    decreases |s.queue|
  {
    if s.inFlight < s.maxConcurrency && s.queue != [] {
      var next, rest := s.queue[0], s.(queue := s.queue[1..]);
      if next.id !in s.requests || s.requests[next.id].timedOut {
        TryExecuteNextLog(rest);
      } else {
        TryExecuteNextLog(Begin(rest, next));
      }
    }
  }

  ghost predicate GrowsByShutDowns(before: seq<Settlement>, after: seq<Settlement>) {
    before <= after && forall k :: |before| <= k < |after| ==> after[k].result == ShutDown
  }

  lemma {:induction false} DrainQueueLog(s: State)
    ensures GrowsByShutDowns(s.log, DrainQueue(s).log)
    decreases |s.queue|
  {
    if s.queue != [] {
      DrainQueueLog(ShutDownOne(s.(queue := s.queue[1..]), s.queue[0].id));
    }
  }

  lemma {:induction false} DrainTrackedLog(s: State)
    ensures GrowsByShutDowns(s.log, DrainTracked(s).log)
    decreases |s.tracked|
  {
    if s.tracked != [] {
      DrainTrackedLog(ShutDownOne(s.(tracked := s.tracked[1..]), s.tracked[0]));
    }
  }

  lemma StepCauses(s: State, e: Event)
    ensures s.log <= Step(s, e).log
    ensures forall k :: |s.log| <= k < |Step(s, e).log| ==> Causes(e, Step(s, e).log[k])
  {
    if Enabled(s, e) {
      match e
      case Enqueue(id, priority) => TryExecuteNextLog(Accept(s, id, priority));
      case OperationFinally(id) => TryExecuteNextLog(Release(s, id));
      case DrainDeadline =>
        var s0 := s.(deadlines := s.deadlines - 1);
        DrainQueueLog(s0);
        DrainTrackedLog(DrainQueue(s0));
      case _ =>
    }
  }

  /** Nothing is settled without cause: a result needs its operation's reaction, a timeout its timer, a shutdown a
      drain deadline. */
  lemma {:induction false} EverySettlementHasItsCause(s: State, es: seq<Event>, k: nat)
    requires |s.log| <= k < |Run(s, es).log|
    ensures exists i :: 0 <= i < |es| && Causes(es[i], Run(s, es).log[k])
    decreases |es|
  {
    if es != [] {
      StepCauses(s, es[0]);
      var s1 := Step(s, es[0]);
      LogGrows(s1, es[1..]);
      if k < |s1.log| {
        assert Causes(es[0], Run(s, es).log[k]);
      } else {
        EverySettlementHasItsCause(s1, es[1..], k);
        var i :| 0 <= i < |es[1..]| && Causes(es[1..][i], Run(s, es).log[k]);
        assert Causes(es[i + 1], Run(s, es).log[k]);
      }
    }
  }

  lemma {:induction false} LogGrows(s: State, es: seq<Event>)
    ensures s.log <= Run(s, es).log
    decreases |es|
  {
    if es != [] {
      StepCauses(s, es[0]);
      LogGrows(Step(s, es[0]), es[1..]);
    }
  }

  // ---------------------------------------------------------------- what findIndex and splice compute

  lemma {:induction false} InsertAt(queue: seq<Ticket>, t: Ticket, at: nat)
    requires at <= |queue| && forall k :: 0 <= k < at ==> queue[k].rank <= t.rank
    requires at < |queue| ==> queue[at].rank > t.rank
    ensures InsertByPriority(queue, t) == queue[..at] + [t] + queue[at..]
    decreases at
  {
    if at > 0 {
      InsertAt(queue[1..], t, at - 1);
    }
  }

  lemma {:induction false} RemoveAt(queue: seq<Ticket>, id: Id, at: nat)
    requires at <= |queue| && forall k :: 0 <= k < at ==> queue[k].id != id
    requires at < |queue| ==> queue[at].id == id
    ensures RemoveFromQueue(queue, id) == if at < |queue| then queue[..at] + queue[at + 1..] else queue
    decreases at
  {
    if at > 0 {
      RemoveAt(queue[1..], id, at - 1);
    }
  }

  lemma {:induction false} UntrackAt(tracked: seq<Id>, id: Id, at: nat)
    requires at <= |tracked| && forall k :: 0 <= k < at ==> tracked[k] != id
    requires at < |tracked| ==> tracked[at] == id
    ensures Untrack(tracked, id) == if at < |tracked| then tracked[..at] + tracked[at + 1..] else tracked
    decreases at
  {
    if at > 0 {
      UntrackAt(tracked[1..], id, at - 1);
    }
  }
}
