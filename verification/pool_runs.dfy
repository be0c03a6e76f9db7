/**
 What the events of a pool run do to its outcome (src/platform/utils/worker-pool.ts): which results it holds,
 which tasks fail, and when the breaker trips, told from the events alone.
 */
module PoolRuns {
  import opened Prelude
  import opened WorkerPool

  // ---------------------------------------------------------------- one event

  /** The task t is settled as `ok` says, announced, and nothing else is. */
  ghost predicate Settles<R>(s: State<R>, r: State<R>, t: nat, ok: Option<R>) {
    && r.settled == s.settled + {t} && r.notified == s.notified + [t]
    && r.results == (if ok.Some? then s.results[t := ok.value] else s.results)
    && multiset(r.failed) == multiset(s.failed) + (if ok.Some? then multiset{} else multiset{t})
  }

  /** Slot j goes on with the next task, or idles if there is none; the other slots keep theirs. */
  ghost predicate GoesOn<R>(s: State<R>, r: State<R>, j: nat)
    requires j < |s.slots|
  {
    var waiting := s.nextTask < Total(s);
    && |r.slots| == |s.slots| && r.nextTask == (if waiting then s.nextTask + 1 else s.nextTask)
    && r.slots[j].current == (if waiting then Some(s.cfg.order[s.nextTask]) else None)
    && forall i :: 0 <= i < |s.slots| && i != j ==> r.slots[i].current == s.slots[i].current
  }

  lemma FinishKeeps<R>(s: State<R>)
    ensures var r := MaybeFinish(s);
            && r.settled == s.settled && r.notified == s.notified && r.results == s.results
            && multiset(r.failed) == multiset(s.failed)
            && r.respawns == s.respawns && r.cumulativeMs == s.cumulativeMs && r.tripped == s.tripped
            && r.nextTask == s.nextTask && r.cfg == s.cfg && |r.slots| == |s.slots|
            && forall i :: 0 <= i < |s.slots| ==> r.slots[i].current == s.slots[i].current
  {
    SortSorts(s.failed);
  }

  /** A result frame for the task its slot owns is stored, costs no respawn and no time, and keeps the worker. */
  lemma MessageDelivers<R>(s: State<R>, j: nat, value: R)
    requires Inv(s) && !s.finished && j < |s.slots| && s.slots[j].current.Some?
    ensures var t := s.slots[j].current.value;
            var r := Step(s, Message(j, ResultFrame(t, value)));
            && Settles(s, r, t, Some(value)) && GoesOn(s, r, j)
            && r.respawns == s.respawns && r.cumulativeMs == s.cumulativeMs && !r.tripped
  {
    var t := s.slots[j].current.value;
    OwnedIsOpen(s, j);
    var s1 := Release(s, j, Some(value));
    var s2 := DispatchTo(s1, j);
    assert Step(s, Message(j, ResultFrame(t, value))) == MaybeFinish(s2);
    FinishKeeps(s2);
    hide Inv, MaybeFinish;
  }

  lemma OwnedIsOpen<R>(s: State<R>, j: nat)
    requires Inv(s) && !s.finished && j < |s.slots|
    ensures !s.tripped && !s.slots[j].retiring && (s.slots[j].current.Some? ==> s.slots[j].current.value !in s.settled)
  {
    if s.slots[j].current.Some? {
      assert InFlight(s.slots, s.slots[j].current.value);
    }
  }

  /** The event takes a worker: its watchdog fires, or it exits. */
  predicate TakesWorker<R>(s: State<R>, e: Event<R>) {
    && !s.finished && e.slot < |s.slots|
    && (e.Exit? || (e.Timeout? && s.slots[e.slot].current.Some?))
  }

  /** The time on the clock after the event. */
  function Clock<R>(s: State<R>, e: Event<R>): int {
    if e.Timeout? then s.cumulativeMs + s.cfg.taskTimeoutMs else s.cumulativeMs
  }

  /** The breaker trips if that time is up, or if no respawn is left. */
  predicate Trips<R>(s: State<R>, e: Event<R>) {
    && TakesWorker(s, e)
    && ((e.Timeout? && Clock(s, e) >= s.cfg.maxCumulativeTimeoutMs) || s.respawns >= s.cfg.maxRespawns)
  }

  /** The state once the worker is gone: the time booked, its slot empty, its task failed. */
  function Taken<R>(s: State<R>, e: Event<R>): (r: State<R>)
    requires TakesWorker(s, e)
  {
    var s0 := s.(cumulativeMs := Clock(s, e));
    if s.slots[e.slot].current.Some? then Release(s0, e.slot, None)
    else s0.(slots := s.slots[e.slot := s.slots[e.slot].(armed := false)])
  }

  lemma TakenWhat<R>(s: State<R>, e: Event<R>)
    requires Inv(s) && TakesWorker(s, e)
    ensures var s1 := Taken(s, e);
            && !s1.finished && !s1.tripped && s1.respawns == s.respawns && s1.cumulativeMs == Clock(s, e)
            && s1.cfg == s.cfg && s1.nextTask == s.nextTask && |s1.slots| == |s.slots| && s1.results == s.results
            && s1.slots[e.slot].current == None
            && (forall i :: 0 <= i < |s.slots| && i != e.slot ==> s1.slots[i].current == s.slots[i].current)
            && (match s.slots[e.slot].current
                case Some(t) => Settles(s, s1, t, None)
                case None => s1.settled == s.settled && s1.notified == s.notified && s1.failed == s.failed)
    ensures Step(s, e) == if e.Timeout? && Clock(s, e) >= s.cfg.maxCumulativeTimeoutMs then TripBreaker(Taken(s, e))
                          else MaybeFinish(Recycle(Taken(s, e), e.slot))
  {
    OwnedIsOpen(s, e.slot);
    assert s.(cumulativeMs := s.cumulativeMs) == s;
    hide Inv, MaybeFinish, Recycle, TripBreaker;
  }

  /** A lost worker costs one respawn and fails the task it owned, if any; the new worker goes on. */
  lemma LossIsReplaced<R>(s: State<R>, e: Event<R>)
    requires Inv(s) && TakesWorker(s, e) && !Trips(s, e)
    ensures var r := Step(s, e);
            && r.respawns == s.respawns + 1 && r.cumulativeMs == Clock(s, e) && !r.tripped && GoesOn(s, r, e.slot)
            && (match s.slots[e.slot].current
                case Some(t) => Settles(s, r, t, None)
                case None => r.settled == s.settled && r.notified == s.notified && r.results == s.results
                             && multiset(r.failed) == multiset(s.failed))
  {
    var s1 := Taken(s, e);
    TakenWhat(s, e);
    hide Inv, MaybeFinish, Step, Taken, Recycle;
    RespawnGoesOn(s1, e.slot);
    FinishKeeps(Recycle(s1, e.slot));
  }

  lemma RespawnGoesOn<R>(s: State<R>, j: nat)
    requires !s.finished && !s.tripped && s.respawns < s.cfg.maxRespawns
    requires j < |s.slots| && s.slots[j].current.None?
    ensures var r := Recycle(s, j);
            && GoesOn(s, r, j) && r.respawns == s.respawns + 1 && !r.tripped && r.cumulativeMs == s.cumulativeMs
            && r.settled == s.settled && r.notified == s.notified && r.results == s.results && r.failed == s.failed
            && r.cfg == s.cfg
  {
  }

  /** Otherwise the run is over: what has a result keeps it, and every other task has failed. */
  lemma LossTrips<R>(s: State<R>, e: Event<R>)
    requires Inv(s) && Trips(s, e)
    ensures var r := Step(s, e);
            && r.finished && r.tripped && r.results == s.results
            && r.respawns == s.respawns && r.cumulativeMs == Clock(s, e)
            && (forall t :: 0 <= t < Total(s) ==> (t in r.failed <==> t !in s.results))
  {
    var r := Step(s, e);
    TakenWhat(s, e);
    TripKeeps(Taken(s, e));
    FinishKeeps(TripBreaker(Taken(s, e)));
    StepInv(s, e);
    assert r.tripped && r.finished by { hide Core; }
    assert Core(r) && AllSettled(r);
    hide *;
    LedgerDecides(r);
  }

  lemma LedgerDecides<R>(r: State<R>)
    requires Core(r) && AllSettled(r)
    ensures forall t :: 0 <= t < Total(r) ==> (t in r.failed <==> t !in r.results)
  {
    assert forall t :: 0 <= t < Total(r) ==> t in r.settled;
  }

  /** What giving up tasks never touches. */
  ghost predicate SameBooks<R>(s: State<R>, r: State<R>) {
    && r.results == s.results && r.respawns == s.respawns && r.cumulativeMs == s.cumulativeMs
    && r.tripped == s.tripped && r.cfg == s.cfg && s.notified <= r.notified && |r.slots| == |s.slots|
  }

  lemma {:induction false} AbandonSlotsKeeps<R>(s: State<R>, j: nat)
    ensures SameBooks(s, AbandonSlots(s, j))
    decreases |s.slots| - j
  {
    if j < |s.slots| {
      AbandonSlotsKeeps(if s.slots[j].current.Some? then Release(s, j, None) else s, j + 1);
    }
  }

  lemma {:induction false} AbandonPendingKeeps<R>(s: State<R>)
    ensures SameBooks(s, AbandonPending(s))
    decreases Total(s) - s.nextTask
  {
    if s.nextTask < Total(s) {
      AbandonPendingKeeps(Settle(s.(nextTask := s.nextTask + 1), s.cfg.order[s.nextTask], None));
    }
  }

  lemma TripKeeps<R>(s: State<R>)
    requires !s.tripped
    ensures SameBooks(s.(tripped := true), TripBreaker(s))
  {
    var s0 := s.(tripped := true);
    AbandonSlotsKeeps(s0, 0);
    AbandonPendingKeeps(AbandonSlots(s0, 0));
    FinishKeeps(AbandonPending(AbandonSlots(s0, 0)));
    hide AbandonSlots, AbandonPending, MaybeFinish;
  }

  /** The event delivers a result: the run is open, and it is a result frame for the task its slot owns. */
  predicate Delivers<R(==)>(s: State<R>, e: Event<R>, t: nat, value: R) {
    && !s.finished && e.Message? && e.slot < |s.slots| && s.slots[e.slot].current == Some(t)
    && e.frame == ResultFrame(t, value)
  }

  /** No other event does anything at all: frames that do not match, watchdogs of idle slots, anything after the end. */
  lemma IgnoredIff<R>(s: State<R>, e: Event<R>)
    requires Inv(s)
    ensures Step(s, e) == s <==> !TakesWorker(s, e) && !exists t, v :: Delivers(s, e, t, v)
  {
    if TakesWorker(s, e) {
      if Trips(s, e) { LossTrips(s, e); } else { LossIsReplaced(s, e); }
    } else if e.Message? && !s.finished && e.slot < |s.slots| && e.frame.ResultFrame?
              && s.slots[e.slot].current == Some(e.frame.index) {
      assert Delivers(s, e, e.frame.index, e.frame.value);
      MessageDelivers(s, e.slot, e.frame.value);
    }
    hide Inv;
  }

  // ---------------------------------------------------------------- whole runs

  /** What one event does to the results, failures and announcements. */
  lemma StepTells<R>(s: State<R>, e: Event<R>, t: nat, value: R)
    requires Inv(s)
    ensures var r := Step(s, e);
            && s.notified <= r.notified
            && (t in r.results && r.results[t] == value <==>
                  (t in s.results && s.results[t] == value) || Delivers(s, e, t, value))
  {
    hide Inv, Step;
    if TakesWorker(s, e) {
      LossKeepsResults(s, e);
    } else if e.Message? && !s.finished && e.slot < |s.slots| && e.frame.ResultFrame?
              && s.slots[e.slot].current == Some(e.frame.index) {
      OwnedHasNoResult(s, e.slot);
      MessageDelivers(s, e.slot, e.frame.value);
    } else {
      IgnoredIff(s, e);
    }
  }

  lemma OwnedHasNoResult<R>(s: State<R>, j: nat)
    requires Inv(s) && !s.finished && j < |s.slots| && s.slots[j].current.Some?
    ensures s.slots[j].current.value !in s.results
  {
    OwnedIsOpen(s, j);
  }

  lemma LossKeepsResults<R>(s: State<R>, e: Event<R>)
    requires Inv(s) && TakesWorker(s, e)
    ensures Step(s, e).results == s.results && s.notified <= Step(s, e).notified
  {
    hide Inv, Step, Taken, TripBreaker;
    if Trips(s, e) {
      LossTrips(s, e);
      TripAnnounces(s, e);
    } else {
      LossIsReplaced(s, e);
    }
  }

  lemma TripAnnounces<R>(s: State<R>, e: Event<R>)
    requires Inv(s) && Trips(s, e)
    ensures s.notified <= Step(s, e).notified
  {
    TakenWhat(s, e);
    TripKeeps(Taken(s, e));
    FinishKeeps(TripBreaker(Taken(s, e)));
    hide Inv, Step, Taken, TripBreaker, MaybeFinish;
  }

  /** In the run from s one of the events delivers this result. */
  predicate Delivered<R(==)>(s: State<R>, es: seq<Event<R>>, t: nat, value: R)
    decreases |es|
  {
    es != [] && (Delivers(s, es[0], t, value) || Delivered(Step(s, es[0]), es[1..], t, value))
  }

  lemma {:induction false} ResultsFrom<R>(s: State<R>, es: seq<Event<R>>, t: nat, value: R)
    requires Inv(s)
    ensures var r := Run(s, es);
            && s.notified <= r.notified
            && (t in r.results && r.results[t] == value <==>
                  (t in s.results && s.results[t] == value) || Delivered(s, es, t, value))
    decreases |es|
  {
    if es != [] {
      StepInv(s, es[0]);
      StepTells(s, es[0], t, value);
      ResultsFrom(Step(s, es[0]), es[1..], t, value);
      hide Inv, Step;
    }
  }

  /** The results are exactly what was delivered: a task has this result if and only if some event of the run was
      a result frame with it for the task its slot owned at that moment. */
  lemma {:induction false} ResultsAreTheDelivered<R>(cfg: Config, es: seq<Event<R>>, t: nat, value: R)
    requires ValidOrder(cfg.order)
    ensures var r := Run(Start(cfg), es);
            t in r.results && r.results[t] == value <==> Delivered(Start(cfg), es, t, value)
  {
    StartInv<R>(cfg);
    StartIsBlank<R>(cfg);
    hide Inv;
    ResultsFrom(Start(cfg), es, t, value);
  }

  lemma StartIsBlank<R>(cfg: Config)
    ensures var s: State<R> := Start(cfg);
            s.results == map[] && s.respawns == 0 && s.cumulativeMs == 0 && !s.tripped
  {
    if |cfg.order| > 0 {
      PrimeIs(Blank<R>(cfg), Max(1, Min(cfg.size, |cfg.order|)));
    }
  }

  /** Spawning and priming fills new slots with the next tasks in order. */
  lemma {:induction false} PrimeIs<R>(s: State<R>, count: nat)
    requires !s.tripped && s.nextTask + count <= Total(s)
    ensures Prime(s, count) == s.(nextTask := s.nextTask + count,
                slots := s.slots + seq(count, k requires 0 <= k < count =>
                             Slot(Some(s.cfg.order[s.nextTask + k]), true, false)))
    decreases count
  {
    if count > 0 {
      var s0 := s.(slots := s.slots + [Slot(None, false, false)]);
      var first := Slot(Some(s.cfg.order[s.nextTask]), true, false);
      var s1 := s.(slots := s.slots + [first], nextTask := s.nextTask + 1);
      assert s0.slots[|s.slots| := first] == s1.slots;
      assert DispatchTo(s0, |s.slots|) == s1;
      PrimeIs(s1, count - 1);
      var rest := seq(count - 1, k requires 0 <= k < count - 1 =>
                      Slot(Some(s1.cfg.order[s1.nextTask + k]), true, false));
      var all := seq(count, k requires 0 <= k < count => Slot(Some(s.cfg.order[s.nextTask + k]), true, false));
      assert [first] + rest == all;
      assert s1.slots + rest == s.slots + all;
    }
  }

  /** The run begins with one worker per task, up to the size of the fleet and at least one, each on a task of its
      own in order and under a watchdog. */
  lemma FleetIsPrimed<R>(cfg: Config)
    requires |cfg.order| > 0
    ensures var s: State<R> := Start(cfg);
            var n := if cfg.size < 1 then 1 else if cfg.size < |cfg.order| then cfg.size else |cfg.order|;
            && !s.finished && |s.slots| == n && s.nextTask == n
            && forall j :: 0 <= j < n ==> s.slots[j] == Slot(Some(cfg.order[j]), true, false)
  {
    PrimeIs(Blank<R>(cfg), Max(1, Min(cfg.size, |cfg.order|)));
  }

  /** A result that was posted for the task its slot owned is in the outcome, whatever happens afterwards, and the
      task is not among the failed ones; storing it cost no respawn. */
  lemma {:induction false} DeliveredResultsStay<R>(cfg: Config, before: seq<Event<R>>, j: nat, value: R,
                                                   after: seq<Event<R>>)
    requires ValidOrder(cfg.order)
    requires var s := Run(Start(cfg), before); !s.finished && j < |s.slots| && s.slots[j].current.Some?
    ensures var s := Run(Start(cfg), before);
            var t := s.slots[j].current.value;
            var s1 := Step(s, Message(j, ResultFrame(t, value)));
            var r := Run(s1, after);
            && s1.respawns == s.respawns && t !in s.settled
            && t in r.results && r.results[t] == value && t !in r.failed
            && (forall o :: o in r.resolutions ==>
                  t in o.results && o.results[t] == value && t !in o.failedIndices)
  {
    var s := Run(Start(cfg), before);
    var e := Message(j, ResultFrame(s.slots[j].current.value, value));
    hide *;
    ReachableInv(cfg, before);
    OwnedIsOpen(s, j);
    StoresResult(s, j, value);
    StepInv(s, e);
    ResultsFrom(Step(s, e), after, s.slots[j].current.value, value);
    RunInv(Step(s, e), after);
    StoredIsFinal(Run(Step(s, e), after), s.slots[j].current.value, value);
  }

  lemma StoresResult<R>(s: State<R>, j: nat, value: R)
    requires Inv(s) && !s.finished && j < |s.slots| && s.slots[j].current.Some?
    ensures var t := s.slots[j].current.value;
            var r := Step(s, Message(j, ResultFrame(t, value)));
            r.respawns == s.respawns && t in r.results && r.results[t] == value
  {
    MessageDelivers(s, j, value);
    hide Inv, Step;
  }

  lemma StoredIsFinal<R>(r: State<R>, t: nat, value: R)
    requires Inv(r) && t in r.results && r.results[t] == value
    ensures t !in r.failed
    ensures forall o :: o in r.resolutions ==> t in o.results && o.results[t] == value && t !in o.failedIndices
  {
  }

  // ---------------------------------------------------------------- when the breaker trips

  /** How many watchdogs of busy slots fired, and how many workers were lost, while the run was open. */
  function Timeouts<R>(s: State<R>, es: seq<Event<R>>): nat
    decreases |es|
  {
    if es == [] then 0
    else (if TakesWorker(s, es[0]) && es[0].Timeout? then 1 else 0) + Timeouts(Step(s, es[0]), es[1..])
  }

  function Losses<R>(s: State<R>, es: seq<Event<R>>): nat
    decreases |es|
  {
    if es == [] then 0 else (if TakesWorker(s, es[0]) then 1 else 0) + Losses(Step(s, es[0]), es[1..])
  }

  /** After these numbers of timeouts and losses the clock is right, and the breaker has tripped if and only if the
      time or the respawns are used up; if not, every loss was a respawn. */
  ghost predicate Tallied<R>(s: State<R>, timeouts: nat, losses: nat) {
    && s.cumulativeMs == timeouts * s.cfg.taskTimeoutMs
    && (s.tripped <==>
          (timeouts > 0 && s.cumulativeMs >= s.cfg.maxCumulativeTimeoutMs) || losses > Max(0, s.cfg.maxRespawns))
    && (!s.tripped ==> s.respawns == losses)
  }

  /** What a loss does to the clock, the breaker and the respawns. */
  lemma LossTold<R>(s: State<R>, e: Event<R>)
    requires Inv(s) && TakesWorker(s, e)
    ensures var r := Step(s, e);
            && r.cfg == s.cfg && !s.tripped && r.cumulativeMs == Clock(s, e)
            && (r.tripped <==> Trips(s, e)) && (!r.tripped ==> r.respawns == s.respawns + 1)
  {
    StepInv(s, e);
    OwnedIsOpen(s, e.slot);
    if Trips(s, e) { LossTrips(s, e); } else { LossIsReplaced(s, e); }
    hide Inv, Step;
  }

  /** Nothing else touches them. */
  lemma OtherwiseSame<R>(s: State<R>, e: Event<R>)
    requires Inv(s) && !TakesWorker(s, e)
    ensures var r := Step(s, e);
            r.cfg == s.cfg && r.cumulativeMs == s.cumulativeMs && r.tripped == s.tripped && r.respawns == s.respawns
  {
    StepInv(s, e);
    if e.Message? && !s.finished && e.slot < |s.slots| && e.frame.ResultFrame?
       && s.slots[e.slot].current == Some(e.frame.index) {
      OwnedIsOpen(s, e.slot);
      MessageDelivers(s, e.slot, e.frame.value);
    } else {
      IgnoredIff(s, e);
    }
    hide Inv, Step;
  }

  lemma StepTallies<R>(s: State<R>, e: Event<R>, timeouts: nat, losses: nat)
    requires Inv(s) && Tallied(s, timeouts, losses)
    ensures TakesWorker(s, e) ==>
              Tallied(Step(s, e), if e.Timeout? then timeouts + 1 else timeouts, losses + 1)
    ensures !TakesWorker(s, e) ==> Tallied(Step(s, e), timeouts, losses)
  {
    hide Inv, Step, TakesWorker;
    if TakesWorker(s, e) {
      LossTold(s, e);
      assert (timeouts + 1) * s.cfg.taskTimeoutMs == timeouts * s.cfg.taskTimeoutMs + s.cfg.taskTimeoutMs;
    } else {
      OtherwiseSame(s, e);
    }
  }

  lemma {:induction false} RunTallies<R>(s: State<R>, es: seq<Event<R>>, timeouts: nat, losses: nat)
    requires Inv(s) && Tallied(s, timeouts, losses)
    ensures Tallied(Run(s, es), timeouts + Timeouts(s, es), losses + Losses(s, es))
    decreases |es|
  {
    hide Inv, Step, Tallied, TakesWorker;
    if es != [] {
      var e := es[0];
      StepInv(s, e);
      StepTallies(s, e, timeouts, losses);
      if TakesWorker(s, e) {
        RunTallies(Step(s, e), es[1..], if e.Timeout? then timeouts + 1 else timeouts, losses + 1);
      } else {
        RunTallies(Step(s, e), es[1..], timeouts, losses);
      }
    }
  }

  /** The breaker trips if and only if the timeouts add up to the limit or more workers are lost than may be
      respawned; until then every lost worker is respawned. */
  lemma BreakerTripsIff<R>(cfg: Config, es: seq<Event<R>>)
    requires ValidOrder(cfg.order)
    ensures var s: State<R> := Start(cfg);
            var r := Run(s, es);
            && r.cumulativeMs == Timeouts(s, es) * cfg.taskTimeoutMs
            && (r.tripped <==> (Timeouts(s, es) > 0 && r.cumulativeMs >= cfg.maxCumulativeTimeoutMs)
                               || Losses(s, es) > Max(0, cfg.maxRespawns))
            && (!r.tripped ==> r.respawns == Losses(s, es))
  {
    var s: State<R> := Start(cfg);
    hide *;
    StartTallies<R>(cfg);
    RunInv(s, es);
    RunTallies(s, es, 0, 0);
    TalliedMeans(Run(s, es), Timeouts(s, es), Losses(s, es));
  }

  lemma StartTallies<R>(cfg: Config)
    requires ValidOrder(cfg.order)
    ensures var s: State<R> := Start(cfg); Inv(s) && s.cfg == cfg && Tallied(s, 0, 0)
  {
    StartInv<R>(cfg);
    StartIsBlank<R>(cfg);
    hide Inv, Start;
  }

  lemma TalliedMeans<R>(s: State<R>, timeouts: nat, losses: nat)
    requires Tallied(s, timeouts, losses)
    ensures s.cumulativeMs == timeouts * s.cfg.taskTimeoutMs
    ensures s.tripped <==>
            (timeouts > 0 && s.cumulativeMs >= s.cfg.maxCumulativeTimeoutMs) || losses > Max(0, s.cfg.maxRespawns)
    ensures !s.tripped ==> s.respawns == losses
  {
  }
}
