/**
 The resilient worker pool (src/platform/utils/worker-pool.ts).

 The pool is first a state machine: every handler of `run` is a function on a value State, and the
 environment may deliver any frame, exit or watchdog to any slot at any time.  A late exit of a
 worker that was already replaced is one of those events.  The class in worker_pool_class.dfy is the
 pool in the source's own form and is proved against these functions.
 */
module WorkerPool {
  import opened Prelude

  /** A worker slot: the task it owns, whether its watchdog is armed, and its retiring flag. */
  datatype Slot = Slot(current: Option<nat>, armed: bool, retiring: bool)

  /** `order[k]` is the original index of the k-th task. */
  datatype Config = Config(order: seq<nat>, size: int, taskTimeoutMs: int, maxCumulativeTimeoutMs: int,
                           maxRespawns: int)

  datatype Outcome<R> = Outcome(results: map<nat, R>, breakerTripped: bool, failedIndices: seq<nat>)

  datatype State<R> = State(
    cfg: Config,
    slots: seq<Slot>,
    nextTask: nat,
    respawns: nat,
    cumulativeMs: int,
    tripped: bool,
    finished: bool,
    settled: set<nat>,
    results: map<nat, R>,         // the slots of the result array that are not null
    failed: seq<nat>,
    notified: seq<nat>,           // the calls of onSettled, in order
    resolutions: seq<Outcome<R>>  // the calls of resolve, in order
  )

  /** What a worker can post: the expected result frame, or anything else. */
  datatype Frame<R> = ResultFrame(index: int, value: R) | OtherFrame

  datatype Event<R> =
    | Timeout(slot: nat)
    | Message(slot: nat, frame: Frame<R>)
    | Exit(slot: nat)

  function Total<R>(s: State<R>): nat {
    |s.cfg.order|
  }

  // ---------------------------------------------------------------- the inner functions of run

  function Settle<R>(s: State<R>, index: nat, ok: Option<R>): (r: State<R>) {
    if index in s.settled then s
    else s.(settled := s.settled + {index},
            results := if ok.Some? then s.results[index := ok.value] else s.results,
            failed := if ok.Some? then s.failed else s.failed + [index],
            notified := s.notified + [index])
  }

  function Disarmed(slots: seq<Slot>): (r: seq<Slot>)
    ensures |r| == |slots|
    ensures forall j :: 0 <= j < |r| ==> r[j] == slots[j].(armed := false)
  {
    seq(|slots|, j requires 0 <= j < |slots| => slots[j].(armed := false))
  }

  function Insert(x: nat, s: seq<nat>): (r: seq<nat>) {
    if s == [] || x <= s[0] then [x] + s else [s[0]] + Insert(x, s[1..])
  }

  /** Ascending order, as `sort((a, b) => a - b)` leaves it. */
  function Sort(s: seq<nat>): (r: seq<nat>) {
    if s == [] then [] else Insert(s[0], Sort(s[1..]))
  }

  function MaybeFinish<R>(s: State<R>): (r: State<R>) {
    if s.finished || |s.settled| < Total(s) then s
    else
      var failed := Sort(s.failed);
      s.(finished := true, slots := Disarmed(s.slots), failed := failed,
         resolutions := s.resolutions + [Outcome(s.results, s.tripped, failed)])
  }

  /** Clear the slot and settle the task it owned. */
  function Release<R>(s: State<R>, j: nat, ok: Option<R>): (r: State<R>)
    requires j < |s.slots| && s.slots[j].current.Some?
  {
    Settle(s.(slots := s.slots[j := s.slots[j].(current := None, armed := false)]),
           s.slots[j].current.value, ok)
  }

  function AbandonSlots<R>(s: State<R>, j: nat): (r: State<R>)
    decreases |s.slots| - j
  {
    if j >= |s.slots| then s
    else AbandonSlots(if s.slots[j].current.Some? then Release(s, j, None) else s, j + 1)
  }

  function AbandonPending<R>(s: State<R>): (r: State<R>)
    decreases Total(s) - s.nextTask
  {
    if s.nextTask >= Total(s) then s
    else AbandonPending(Settle(s.(nextTask := s.nextTask + 1), s.cfg.order[s.nextTask], None))
  }

  function TripBreaker<R>(s: State<R>): (r: State<R>) {
    if s.tripped then s else MaybeFinish(AbandonPending(AbandonSlots(s.(tripped := true), 0)))
  }

  function DispatchTo<R>(s: State<R>, j: nat): (r: State<R>)
    requires j < |s.slots|
  {
    if s.tripped || s.nextTask >= Total(s) then s
    else s.(slots := s.slots[j := s.slots[j].(current := Some(s.cfg.order[s.nextTask]), armed := true)],
            nextTask := s.nextTask + 1)
  }

  function Recycle<R>(s: State<R>, j: nat): (r: State<R>)
    requires j < |s.slots|
  {
    if s.finished || s.tripped then s
    else if s.respawns >= s.cfg.maxRespawns then TripBreaker(s)
    else DispatchTo(s.(respawns := s.respawns + 1, slots := s.slots[j := s.slots[j].(retiring := false)]), j)
  }

  /** A silent worker is presumed wedged: book the lost time and fail its task. */
  function Expire<R>(s: State<R>, j: nat): (r: State<R>)
    requires j < |s.slots| && s.slots[j].current.Some?
  {
    Release(s.(cumulativeMs := s.cumulativeMs + s.cfg.taskTimeoutMs), j, None)
  }

  function OnTaskTimeout<R>(s: State<R>, j: nat): (r: State<R>)
    requires j < |s.slots|
  {
    if s.finished || s.slots[j].current.None? then s
    else
      var s1 := Expire(s, j);
      if s1.cumulativeMs >= s.cfg.maxCumulativeTimeoutMs then TripBreaker(s1) else MaybeFinish(Recycle(s1, j))
  }

  function OnMessage<R>(s: State<R>, j: nat, frame: Frame<R>): (r: State<R>)
    requires j < |s.slots|
  {
    if s.finished || frame.OtherFrame? || s.slots[j].current.None? || frame.index != s.slots[j].current.value then s
    else
      var s1 := Release(s, j, Some(frame.value));
      MaybeFinish(if s1.tripped then s1 else DispatchTo(s1, j))
  }

  function OnExit<R>(s: State<R>, j: nat): (r: State<R>)
    requires j < |s.slots|
  {
    if s.finished || s.slots[j].retiring then s
    else
      var s1 := if s.slots[j].current.Some? then Release(s, j, None)
                else s.(slots := s.slots[j := s.slots[j].(armed := false)]);
      MaybeFinish(Recycle(s1, j))
  }

  /** One event; an event that names no slot is no event of this pool. */
  function Step<R>(s: State<R>, e: Event<R>): (r: State<R>) {
    if e.slot >= |s.slots| then s
    else match e
      case Timeout(j) => OnTaskTimeout(s, j)
      case Message(j, frame) => OnMessage(s, j, frame)
      case Exit(j) => OnExit(s, j)
  }

  function Run<R>(s: State<R>, es: seq<Event<R>>): (r: State<R>)
    decreases |es|
  {
    if es == [] then s else Run(Step(s, es[0]), es[1..])
  }

  function Max(a: int, b: int): int { if a < b then b else a }
  function Min(a: int, b: int): int { if a < b then a else b }

  /** Spawn `count` more workers, each primed with one task. */
  function Prime<R>(s: State<R>, count: nat): (r: State<R>)
    decreases count
  {
    if count == 0 then s
    else Prime(DispatchTo(s.(slots := s.slots + [Slot(None, false, false)]), |s.slots|), count - 1)
  }

  function Blank<R>(cfg: Config): (s: State<R>) {
    State(cfg, [], 0, 0, 0, false, false, {}, map[], [], [], [])
  }

  /** The state in which `run` returns its promise. */
  function Start<R>(cfg: Config): (s: State<R>) {
    var s: State<R> := Blank(cfg);
    if |cfg.order| == 0 then s.(finished := true, resolutions := [Outcome(map[], false, [])])
    else Prime(s, Max(1, Min(cfg.size, |cfg.order|)))
  }

  // ---------------------------------------------------------------- invariants

  /** The task indices are a permutation of 0..n-1. */
  ghost predicate ValidOrder(order: seq<nat>) {
    && Distinct(order)
    && (forall k :: 0 <= k < |order| ==> order[k] < |order|)
  }

  ghost predicate InFlight(slots: seq<Slot>, t: nat) {
    exists j :: 0 <= j < |slots| && slots[j].current == Some(t)
  }

  /** A watchdog is armed exactly on the slots that own a task, and no task is owned twice. */
  ghost predicate SlotsOk(slots: seq<Slot>) {
    && (forall j :: 0 <= j < |slots| ==> (slots[j].armed <==> slots[j].current.Some?) && !slots[j].retiring)
    && (forall i, j :: 0 <= i < j < |slots| && slots[i].current.Some? ==> slots[i].current != slots[j].current)
  }

  /** The dispatched tasks are the settled ones and those in flight, and no task is both. */
  ghost predicate Accounted(dispatched: seq<nat>, slots: seq<Slot>, settled: set<nat>) {
    && (forall t :: t in settled ==> t in dispatched && !InFlight(slots, t))
    && (forall t :: InFlight(slots, t) ==> t in dispatched)
    && (forall t :: t in dispatched ==> t in settled || InFlight(slots, t))
  }

  /** Callbacks, results and failures agree with the settled set. */
  ghost predicate Ledger<R>(settled: set<nat>, results: map<nat, R>, failed: seq<nat>, notified: seq<nat>) {
    && Distinct(notified) && Distinct(failed)
    && (forall t :: t in notified <==> t in settled)
    && (forall t :: t in settled <==> t in results || t in failed)
    && (forall t :: t in results ==> t !in failed)
  }

  /** Holds between any two statements of a handler, once the slot it works on has been released. */
  ghost predicate Core<R>(s: State<R>) {
    && ValidOrder(s.cfg.order) && s.nextTask <= Total(s)
    && SlotsOk(s.slots)
    && Accounted(s.cfg.order[..s.nextTask], s.slots, s.settled)
    && Ledger(s.settled, s.results, s.failed, s.notified)
    && s.respawns <= Max(0, s.cfg.maxRespawns)
  }

  ghost predicate AllBusy(slots: seq<Slot>) {
    forall j :: 0 <= j < |slots| ==> slots[j].current.Some?
  }

  ghost predicate IdleUpTo(slots: seq<Slot>, j: nat) {
    forall i :: 0 <= i < j && i < |slots| ==> slots[i].current.None?
  }

  ghost predicate Idle(slots: seq<Slot>) {
    IdleUpTo(slots, |slots|)
  }

  ghost predicate Ascending(s: seq<nat>) {
    forall i, j :: 0 <= i < j < |s| ==> s[i] <= s[j]
  }

  ghost predicate AllSettled<R>(s: State<R>) {
    s.settled == Range(Total(s))
  }

  /** Holds between any two events. */
  ghost predicate Inv<R>(s: State<R>) {
    && Core(s)
    && (s.finished <==> AllSettled(s))
    && (s.finished ==> s.resolutions == [Outcome(s.results, s.tripped, s.failed)] && Ascending(s.failed))
    && (!s.finished ==> Open(s) && |s.slots| > 0 && (s.nextTask < Total(s) ==> AllBusy(s.slots)))
    && (!s.tripped ==> |s.failed| <= s.respawns)
  }

  ghost predicate Open<R>(s: State<R>) {
    !s.finished && !s.tripped && s.resolutions == []
  }

  // ---------------------------------------------------------------- sorting

  lemma {:induction false} InsertSorts(x: nat, s: seq<nat>)
    requires Ascending(s)
    ensures Ascending(Insert(x, s))
    ensures multiset(Insert(x, s)) == multiset(s) + multiset{x}
  {
    if s != [] {
      assert s == [s[0]] + s[1..];
      if s[0] < x {
        InsertSorts(x, s[1..]);
        AscendingCons(s[0], Insert(x, s[1..]), s[1..], x);
      }
    }
  }

  lemma AscendingCons(least: nat, r: seq<nat>, rest: seq<nat>, x: nat)
    requires Ascending(r) && multiset(r) == multiset(rest) + multiset{x}
    requires least <= x && forall i :: 0 <= i < |rest| ==> least <= rest[i]
    ensures Ascending([least] + r)
  {
    forall i | 0 <= i < |r|
      ensures least <= r[i]
    {
      assert r[i] in multiset(r);
      assert r[i] == x || r[i] in rest;
    }
  }

  lemma {:induction false} SortSorts(s: seq<nat>)
    ensures Ascending(Sort(s))
    ensures multiset(Sort(s)) == multiset(s)
  {
    if s != [] {
      SortSorts(s[1..]);
      InsertSorts(s[0], Sort(s[1..]));
      assert s == [s[0]] + s[1..];
    }
  }

  // ---------------------------------------------------------------- the books, one component at a time

  lemma SettleLedger<R>(s: State<R>, t: nat, ok: Option<R>)
    requires Ledger(s.settled, s.results, s.failed, s.notified) && t !in s.settled
    ensures var r := Settle(s, t, ok);
            && Ledger(r.settled, r.results, r.failed, r.notified)
            && |r.settled| == |s.settled| + 1
            && |r.failed| == |s.failed| + (if ok.Some? then 0 else 1)
  {
    DistinctSnoc(s.notified, t);
    DistinctSnoc(s.failed, t);
  }

  lemma ReleaseSlot(dispatched: seq<nat>, slots: seq<Slot>, settled: set<nat>, j: nat)
    requires SlotsOk(slots) && Accounted(dispatched, slots, settled)
    requires j < |slots| && slots[j].current.Some?
    ensures slots[j].current.value !in settled
    ensures var after := slots[j := slots[j].(current := None, armed := false)];
            SlotsOk(after) && Accounted(dispatched, after, settled + {slots[j].current.value})
  {
    var t := slots[j].current.value;
    var after := slots[j := slots[j].(current := None, armed := false)];
    assert InFlight(slots, t);
    forall u: nat
      ensures InFlight(after, u) <==> InFlight(slots, u) && u != t
    {
      if InFlight(slots, u) && u != t {
        var i :| 0 <= i < |slots| && slots[i].current == Some(u);
        assert after[i].current == Some(u);
      }
      if InFlight(after, u) {
        var i :| 0 <= i < |after| && after[i].current == Some(u);
        assert slots[i].current == Some(u) && i != j;
      }
    }
  }

  lemma OccupySlot(dispatched: seq<nat>, slots: seq<Slot>, settled: set<nat>, j: nat, t: nat)
    requires SlotsOk(slots) && Accounted(dispatched, slots, settled)
    requires j < |slots| && slots[j].current.None? && t !in dispatched
    ensures var after := slots[j := slots[j].(current := Some(t), armed := true)];
            SlotsOk(after) && Accounted(dispatched + [t], after, settled)
  {
    var after := slots[j := slots[j].(current := Some(t), armed := true)];
    forall u
      ensures InFlight(after, u) <==> InFlight(slots, u) || u == t
    {
      if InFlight(slots, u) {
        var i :| 0 <= i < |slots| && slots[i].current == Some(u);
        assert after[i].current == Some(u);
      }
      if u == t {
        assert after[j].current == Some(u);
      }
      if InFlight(after, u) && u != t {
        var i :| 0 <= i < |after| && after[i].current == Some(u);
        assert slots[i].current == Some(u);
      }
    }
    assert !InFlight(slots, t);
  }

  lemma {:induction false} ReleaseCore<R>(s: State<R>, j: nat, ok: Option<R>)
    requires Core(s) && j < |s.slots| && s.slots[j].current.Some?
    ensures var r := Release(s, j, ok);
            && Core(r)
            && |r.settled| == |s.settled| + 1
            && |r.failed| == |s.failed| + (if ok.Some? then 0 else 1)
  {
    ReleaseSlot(s.cfg.order[..s.nextTask], s.slots, s.settled, j);
    SettleLedger(s.(slots := s.slots[j := s.slots[j].(current := None, armed := false)]),
                 s.slots[j].current.value, ok);
  }

  lemma DispatchCore<R>(s: State<R>, j: nat)
    requires Core(s) && j < |s.slots| && s.slots[j].current.None?
    ensures Core(DispatchTo(s, j))
  {
    if !s.tripped && s.nextTask < Total(s) {
      OccupySlot(s.cfg.order[..s.nextTask], s.slots, s.settled, j, s.cfg.order[s.nextTask]);
    }
  }

  /** What abandoning tasks leaves alone. */
  ghost predicate SameFlags<R>(s: State<R>, r: State<R>) {
    && r.cfg == s.cfg && r.respawns == s.respawns && r.cumulativeMs == s.cumulativeMs
    && r.tripped == s.tripped && r.finished == s.finished && r.resolutions == s.resolutions
  }

  lemma {:induction false} AbandonSlotsCore<R>(s: State<R>, j: nat)
    requires Core(s) && j <= |s.slots| && IdleUpTo(s.slots, j)
    ensures var r := AbandonSlots(s, j);
            Core(r) && Idle(r.slots) && SameFlags(s, r)
    decreases |s.slots| - j
  {
    hide Core;
    if j < |s.slots| {
      if s.slots[j].current.Some? {
        ReleaseCore(s, j, None);
        AbandonSlotsCore(Release(s, j, None), j + 1);
      } else {
        AbandonSlotsCore(s, j + 1);
      }
    }
  }

  /** The next pending task is new to the books; giving it up with no slot busy keeps them. */
  lemma AbandonNext(order: seq<nat>, n: nat, slots: seq<Slot>, settled: set<nat>)
    requires ValidOrder(order) && n < |order| && Accounted(order[..n], slots, settled) && Idle(slots)
    ensures order[n] !in settled && Accounted(order[..n + 1], slots, settled + {order[n]})
  {
    var t := order[n];
    forall k | 0 <= k < n
      ensures order[..n][k] != t
    {
      assert order[k] != order[n];
    }
    assert order[..n + 1] == order[..n] + [t];
    assert forall u :: !InFlight(slots, u);
    assert forall u :: u in order[..n + 1] <==> u in order[..n] || u == t;
    hide InFlight, ValidOrder, Idle;
  }

  lemma AbandonOneCore<R>(s: State<R>)
    requires Core(s) && Idle(s.slots) && s.nextTask < Total(s)
    ensures Core(Settle(s.(nextTask := s.nextTask + 1), s.cfg.order[s.nextTask], None))
  {
    AbandonNext(s.cfg.order, s.nextTask, s.slots, s.settled);
    hide ValidOrder, SlotsOk, Accounted, Ledger, Idle;
    SettleLedger(s.(nextTask := s.nextTask + 1), s.cfg.order[s.nextTask], None);
  }

  lemma {:induction false} AbandonPendingCore<R>(s: State<R>)
    requires Core(s) && Idle(s.slots)
    ensures var r := AbandonPending(s);
            Core(r) && r.slots == s.slots && r.nextTask >= Total(r) && SameFlags(s, r)
    decreases Total(s) - s.nextTask
  {
    hide Core;
    if s.nextTask < Total(s) {
      AbandonOneCore(s);
      AbandonPendingCore(Settle(s.(nextTask := s.nextTask + 1), s.cfg.order[s.nextTask], None));
    }
  }

  lemma PermutationCovers(order: seq<nat>)
    requires ValidOrder(order)
    ensures forall t :: t in order <==> t in Range(|order|)
  {
    DistinctSize(order);
    BoundedSetSize(Elements(order), |order|);
    assert Elements(order) == Range(|order|);
  }

  /** With every task dispatched and no slot busy, every task is settled. */
  lemma NothingLeft<R>(s: State<R>)
    requires Core(s) && s.nextTask >= Total(s) && Idle(s.slots)
    ensures AllSettled(s)
  {
    assert s.cfg.order[..s.nextTask] == s.cfg.order;
    PermutationCovers(s.cfg.order);
    assert forall t :: !InFlight(s.slots, t);
  }

  /** The size test of maybeFinish decides whether every task is settled. */
  lemma SizeDecides<R>(s: State<R>)
    requires Core(s)
    ensures |s.settled| <= Total(s)
    ensures |s.settled| >= Total(s) <==> AllSettled(s)
  {
    forall t | t in s.settled
      ensures t < Total(s)
    {
      assert t in s.cfg.order[..s.nextTask];
    }
    BoundedSetSize(s.settled, Total(s));
  }

  /** Disarming the slots and sorting the failures at the end of a run keeps the books. */
  lemma FinishCore<R>(s: State<R>)
    requires Core(s) && AllSettled(s)
    ensures Core(s.(slots := Disarmed(s.slots), failed := Sort(s.failed)))
    ensures Ascending(Sort(s.failed)) && |Sort(s.failed)| == |s.failed|
  {
    var failed := Sort(s.failed);
    SortSorts(s.failed);
    SameMultiset(s.failed, failed);
    forall j | 0 <= j < |s.slots|
      ensures s.slots[j].current.None?
    {
      if s.slots[j].current.Some? {
        assert InFlight(s.slots, s.slots[j].current.value);
      }
    }
    assert s.slots == Disarmed(s.slots);
  }

  lemma FinishInv<R>(s: State<R>)
    requires Core(s) && !s.finished && s.resolutions == []
    requires if s.tripped then AllSettled(s)
             else |s.failed| <= s.respawns && |s.slots| > 0 && (s.nextTask < Total(s) ==> AllBusy(s.slots))
    ensures Inv(MaybeFinish(s))
  {
    SizeDecides(s);
    if AllSettled(s) {
      FinishCore(s);
    }
  }

  lemma TripBreakerInv<R>(s: State<R>)
    requires Core(s) && Open(s)
    ensures var r := TripBreaker(s);
            Inv(r) && r.finished && r.tripped && r.cfg == s.cfg && r.respawns == s.respawns
  {
    var s0 := s.(tripped := true);
    assert Core(s0);
    hide Core;
    AbandonSlotsCore(s0, 0);
    var s1 := AbandonSlots(s0, 0);
    AbandonPendingCore(s1);
    var s2 := AbandonPending(s1);
    NothingLeft(s2);
    SizeDecides(s2);
    FinishInv(s2);
  }

  // ---------------------------------------------------------------- every event

  /** How many more events can have an effect. */
  function Measure<R>(s: State<R>): nat {
    Max(0, Total(s) - |s.settled|) + Max(0, s.cfg.maxRespawns - s.respawns)
  }

  lemma {:induction false} MeasureDrops<R>(s: State<R>, r: State<R>)
    requires Core(s) && !AllSettled(s) && Inv(r) && r.cfg == s.cfg && r.respawns >= s.respawns
    requires r.finished || |r.settled| > |s.settled| ||
             (|r.settled| == |s.settled| && s.respawns < r.respawns <= s.cfg.maxRespawns)
    ensures Measure(r) < Measure(s)
  {
    SizeDecides(s);
    SizeDecides(r);
  }

  ghost predicate AllBusyBut(slots: seq<Slot>, j: nat) {
    forall i :: 0 <= i < |slots| && i != j ==> slots[i].current.Some?
  }

  /** A slot has been released in an open run and is about to be recycled. */
  ghost predicate Released<R>(s: State<R>, j: nat) {
    && Core(s) && Open(s) && j < |s.slots| && s.slots[j].current.None?
    && (s.nextTask < Total(s) ==> AllBusyBut(s.slots, j))
    && |s.failed| <= s.respawns + 1
  }

  ghost predicate Progress<R>(s: State<R>, r: State<R>) {
    Inv(r) && r.cfg == s.cfg && Measure(r) < Measure(s)
  }

  lemma TripProgress<R>(s: State<R>, s1: State<R>)
    requires Core(s) && !AllSettled(s) && Core(s1) && Open(s1)
    requires s1.cfg == s.cfg && s1.respawns == s.respawns
    ensures Progress(s, TripBreaker(s1)) && TripBreaker(s1).finished
  {
    TripBreakerInv(s1);
    hide Core, Inv;
    MeasureDrops(s, TripBreaker(s1));
  }

  lemma RespawnInv<R>(s: State<R>, j: nat)
    requires Released(s, j) && s.respawns < s.cfg.maxRespawns
    ensures Inv(MaybeFinish(Recycle(s, j)))
  {
    var s1 := s.(respawns := s.respawns + 1);
    assert s1.slots == s1.slots[j := s1.slots[j].(retiring := false)];
    var d := DispatchTo(s1, j);
    assert Recycle(s, j) == d;
    DispatchCore(s1, j);
    FinishInv(d);
    hide *;
  }

  /** Recycling a released slot: the breaker settles everything, or one respawn is spent and the slot is busy again. */
  lemma RecycleProgress<R>(s: State<R>, s1: State<R>, j: nat)
    requires Core(s) && !AllSettled(s) && Released(s1, j)
    requires s1.cfg == s.cfg && s1.respawns == s.respawns && |s1.settled| >= |s.settled|
    ensures Progress(s, MaybeFinish(Recycle(s1, j)))
  {
    if s1.respawns >= s1.cfg.maxRespawns {
      TripProgress(s, s1);
    } else {
      RespawnInv(s1, j);
      hide Core, Inv;
      MeasureDrops(s, MaybeFinish(Recycle(s1, j)));
    }
  }

  /** Delivering a result keeps the slot busy while tasks remain. */
  lemma DeliverProgress<R>(s: State<R>, s1: State<R>, j: nat)
    requires Core(s) && !AllSettled(s) && Released(s1, j) && |s1.failed| <= s1.respawns
    requires s1.cfg == s.cfg && s1.respawns == s.respawns && |s1.settled| > |s.settled|
    ensures Progress(s, MaybeFinish(DispatchTo(s1, j)))
  {
    DispatchCore(s1, j);
    FinishInv(DispatchTo(s1, j));
    hide Core, Inv;
    MeasureDrops(s, MaybeFinish(DispatchTo(s1, j)));
  }

  lemma {:induction false} ReleaseOpen<R>(s: State<R>, j: nat, ok: Option<R>, ms: int)
    requires Inv(s) && !s.finished && j < |s.slots| && s.slots[j].current.Some?
    ensures Released(Release(s.(cumulativeMs := ms), j, ok), j)
    ensures |Release(s.(cumulativeMs := ms), j, ok).settled| == |s.settled| + 1
    ensures ok.Some? ==> |Release(s.(cumulativeMs := ms), j, ok).failed| <= s.respawns
  {
    ReleaseCore(s.(cumulativeMs := ms), j, ok);
  }

  lemma ExpireOpen<R>(s: State<R>, j: nat)
    requires Inv(s) && !s.finished && j < |s.slots| && s.slots[j].current.Some?
    ensures Core(s) && !AllSettled(s)
    ensures var s1 := Expire(s, j);
            && Released(s1, j) && Core(s1) && Open(s1)
            && s1.cfg == s.cfg && s1.respawns == s.respawns && |s1.settled| == |s.settled| + 1
  {
    ReleaseOpen(s, j, None, s.cumulativeMs + s.cfg.taskTimeoutMs);
    hide Core;
  }

  lemma TimeoutProgress<R>(s: State<R>, j: nat)
    requires Inv(s) && !s.finished && j < |s.slots| && s.slots[j].current.Some?
    ensures Progress(s, OnTaskTimeout(s, j))
  {
    var s1 := Expire(s, j);
    ExpireOpen(s, j);
    assert OnTaskTimeout(s, j) == if s1.cumulativeMs >= s.cfg.maxCumulativeTimeoutMs then TripBreaker(s1)
                                  else MaybeFinish(Recycle(s1, j));
    hide *;
    if s1.cumulativeMs >= s.cfg.maxCumulativeTimeoutMs {
      TripProgress(s, s1);
    } else {
      RecycleProgress(s, s1, j);
    }
  }

  lemma {:induction false} MessageProgress<R>(s: State<R>, j: nat, frame: Frame<R>)
    requires Inv(s) && !s.finished && j < |s.slots| && s.slots[j].current.Some?
    requires frame.ResultFrame? && frame.index == s.slots[j].current.value
    ensures Progress(s, OnMessage(s, j, frame))
  {
    ReleaseOpen(s, j, Some(frame.value), s.cumulativeMs);
    var s1 := Release(s, j, Some(frame.value));
    assert s.(cumulativeMs := s.cumulativeMs) == s;
    assert Core(s) && !AllSettled(s) && !s1.tripped;
    hide Core, Inv, AllSettled, Released, Progress;
    DeliverProgress(s, s1, j);
  }

  lemma ExitProgress<R>(s: State<R>, j: nat)
    requires Inv(s) && !s.finished && j < |s.slots|
    ensures Progress(s, OnExit(s, j))
  {
    assert Core(s) && !AllSettled(s) && !s.slots[j].retiring;
    if s.slots[j].current.Some? {
      ReleaseOpen(s, j, None, s.cumulativeMs);
      assert s.(cumulativeMs := s.cumulativeMs) == s;
      hide Core, Inv, AllSettled, Released, Progress;
      RecycleProgress(s, Release(s, j, None), j);
    } else {
      assert s.slots == s.slots[j := s.slots[j].(armed := false)];
      assert Released(s, j);
      hide Core, Inv, AllSettled, Released, Progress;
      RecycleProgress(s, s, j);
    }
  }

  // ---------------------------------------------------------------- whole runs

  /**
   Every event either is ignored, leaving the whole state as it was, or uses up some of the measure.
   A run that is finished ignores everything.
   */
  lemma StepInv<R>(s: State<R>, e: Event<R>)
    requires Inv(s)
    ensures Inv(Step(s, e)) && Step(s, e).cfg == s.cfg
    ensures Step(s, e) == s || (!s.finished && Measure(Step(s, e)) < Measure(s))
  {
    if !s.finished && e.slot < |s.slots| {
      match e
      case Timeout(j) => if s.slots[j].current.Some? { TimeoutProgress(s, j); }
      case Message(j, frame) =>
        if s.slots[j].current.Some? && frame.ResultFrame? && frame.index == s.slots[j].current.value {
          MessageProgress(s, j, frame);
        }
      case Exit(j) => ExitProgress(s, j);
    }
  }

  /** No deadlock: an open run has a slot that owns a task and has its watchdog armed, and letting it fire has an
      effect. */
  lemma {:induction false} SomeWatchdogIsArmed<R>(s: State<R>) returns (j: nat)
    requires Inv(s) && !s.finished
    ensures j < |s.slots| && s.slots[j].armed && s.slots[j].current.Some?
    ensures Measure(Step(s, Timeout(j))) < Measure(s)
  {
    if s.nextTask < Total(s) {
      j := 0;
    } else if Idle(s.slots) {
      NothingLeft(s);
      assert false;
    } else {
      j :| j < |s.slots| && s.slots[j].current.Some?;
    }
    TimeoutProgress(s, j);
  }

  lemma {:induction false} PrimeInv<R>(s: State<R>, count: nat)
    requires Core(s) && Open(s) && AllBusy(s.slots) && |s.slots| == s.nextTask
    requires s.settled == {} && s.failed == []
    requires s.nextTask + count <= Total(s)
    ensures var r := Prime(s, count);
            && Core(r) && Open(r) && AllBusy(r.slots) && |r.slots| == |s.slots| + count
            && r.settled == {} && r.failed == []
            && SameFlags(s, r)
    decreases count
  {
    if count > 0 {
      var s1 := s.(slots := s.slots + [Slot(None, false, false)]);
      assert Core(s1) by {
        forall u: nat
          ensures InFlight(s1.slots, u) <==> InFlight(s.slots, u)
        {
          if InFlight(s.slots, u) {
            var i :| 0 <= i < |s.slots| && s.slots[i].current == Some(u);
            assert s1.slots[i].current == Some(u);
          }
        }
      }
      DispatchCore(s1, |s.slots|);
      PrimeInv(DispatchTo(s1, |s.slots|), count - 1);
    }
  }

  lemma StartInv<R>(cfg: Config)
    requires ValidOrder(cfg.order)
    ensures var s: State<R> := Start(cfg);
            Inv(s) && s.cfg == cfg && s.settled == {} && s.respawns == 0
  {
    var s: State<R> := Blank(cfg);
    if |cfg.order| > 0 {
      PrimeInv(s, Max(1, Min(cfg.size, |cfg.order|)));
      var r: State<R> := Start(cfg);
      assert 0 in Range(Total(r));
      SizeDecides(r);
    }
  }

  lemma {:induction false} RunInv<R>(s: State<R>, es: seq<Event<R>>)
    requires Inv(s)
    ensures Inv(Run(s, es)) && Run(s, es).cfg == s.cfg
    decreases |es|
  {
    if es != [] {
      StepInv(s, es[0]);
      RunInv(Step(s, es[0]), es[1..]);
    }
  }

  /** How many events of a run had an effect. */
  function Effective<R(==)>(s: State<R>, es: seq<Event<R>>): nat
    decreases |es|
  {
    if es == [] then 0
    else (if Step(s, es[0]) == s then 0 else 1) + Effective(Step(s, es[0]), es[1..])
  }

  lemma {:induction false} EffectiveIsBounded<R>(s: State<R>, es: seq<Event<R>>)
    requires Inv(s)
    ensures Effective(s, es) + Measure(Run(s, es)) <= Measure(s)
    decreases |es|
  {
    if es != [] {
      StepInv(s, es[0]);
      EffectiveIsBounded(Step(s, es[0]), es[1..]);
    }
  }

  // ---------------------------------------------------------------- main results

  /** The task has not been dispatched yet. */
  ghost predicate Pending<R>(s: State<R>, t: nat) {
    exists k :: s.nextTask <= k < Total(s) && s.cfg.order[k] == t
  }

  /** Whatever the workers do, every task is pending, or in flight on exactly one slot, or settled, and only one of
      these. */
  lemma EveryTaskIsInOnePlace<R>(cfg: Config, es: seq<Event<R>>, t: nat)
    requires ValidOrder(cfg.order) && t < |cfg.order|
    ensures var s := Run(Start(cfg), es);
            && (Pending(s, t) || InFlight(s.slots, t) || t in s.settled)
            && !(Pending(s, t) && InFlight(s.slots, t)) && !(Pending(s, t) && t in s.settled)
            && !(InFlight(s.slots, t) && t in s.settled)
            && forall i, j ::
              0 <= i < |s.slots| && 0 <= j < |s.slots| && s.slots[i].current == Some(t) == s.slots[j].current ==> i == j
  {
    ReachableInv(cfg, es);
    hide Inv, Core;
    OnePlace(Run(Start(cfg), es), t);
  }

  lemma OnePlace<R>(s: State<R>, t: nat)
    requires Inv(s) && t < Total(s)
    ensures Pending(s, t) || InFlight(s.slots, t) || t in s.settled
    ensures !(Pending(s, t) && InFlight(s.slots, t)) && !(Pending(s, t) && t in s.settled)
    ensures !(InFlight(s.slots, t) && t in s.settled)
    ensures forall i, j ::
              0 <= i < |s.slots| && 0 <= j < |s.slots| && s.slots[i].current == Some(t) == s.slots[j].current ==> i == j
  {
    PermutationCovers(s.cfg.order);
    assert t in s.cfg.order;
    var k :| 0 <= k < Total(s) && s.cfg.order[k] == t;
    if k < s.nextTask {
      assert t == s.cfg.order[..s.nextTask][k];
    }
    assert Accounted(s.cfg.order[..s.nextTask], s.slots, s.settled);
  }

  lemma ReachableInv<R>(cfg: Config, es: seq<Event<R>>)
    requires ValidOrder(cfg.order)
    ensures var s := Run(Start(cfg), es); Inv(s) && s.cfg == cfg
  {
    StartInv<R>(cfg);
    hide Core, Inv;
    RunInv(Start(cfg), es);
  }

  /**
   onSettled is called at most once per task.  The promise is resolved at most once, exactly when every
   task is settled; then the results and the ascending failed indices partition 0..n-1.
   */
  lemma RunResolvesOnceWithAPartition<R>(cfg: Config, es: seq<Event<R>>)
    requires ValidOrder(cfg.order)
    ensures var s := Run(Start(cfg), es);
            && Distinct(s.notified) && |s.resolutions| <= 1
            && (|s.resolutions| == 1 <==> s.finished)
            && (s.finished ==>
                  var o := s.resolutions[0];
                  && |s.notified| == |cfg.order|
                  && (forall t :: t in o.results || t in o.failedIndices <==> 0 <= t < |cfg.order|)
                  && (forall t :: t in o.results ==> t !in o.failedIndices)
                  && (forall i, j :: 0 <= i < j < |o.failedIndices| ==> o.failedIndices[i] < o.failedIndices[j]))
  {
    ReachableInv(cfg, es);
    var s := Run(Start(cfg), es);
    if s.finished {
      FinalPartition(|cfg.order|, s.settled, s.results, s.failed, s.notified);
    }
    assert Distinct(s.notified);
  }

  lemma FinalPartition<R>(n: nat, settled: set<nat>, results: map<nat, R>, failed: seq<nat>, notified: seq<nat>)
    requires Ledger(settled, results, failed, notified) && settled == Range(n) && Ascending(failed)
    ensures |notified| == n
    ensures forall t :: t in results || t in failed <==> 0 <= t < n
    ensures forall t :: t in results ==> t !in failed
    ensures forall i, j :: 0 <= i < j < |failed| ==> failed[i] < failed[j]
  {
    DistinctSize(notified);
    assert Elements(notified) == Range(n);
    RangeSize(n);
    StrictlyAscending(failed);
  }

  lemma StrictlyAscending(s: seq<nat>)
    requires Ascending(s) && Distinct(s)
    ensures forall i, j :: 0 <= i < j < |s| ==> s[i] < s[j]
  {
    assert forall i, j :: 0 <= i < j < |s| ==> s[i] <= s[j] && s[i] != s[j];
  }

  /**
   While the promise is open some slot owns a task under an armed watchdog, waiting tasks mean every slot
   is busy, and the breaker has not tripped.  Respawns stay within the budget, and unless the breaker
   tripped every failure is paid for by a respawn.
   */
  lemma NeverStuck<R>(cfg: Config, es: seq<Event<R>>)
    requires ValidOrder(cfg.order)
    ensures var s := Run(Start(cfg), es);
            && (!s.finished ==> exists j :: 0 <= j < |s.slots| && s.slots[j].armed && s.slots[j].current.Some?)
            && (!s.finished && s.nextTask < |cfg.order| ==> AllBusy(s.slots))
            && (s.tripped ==> s.finished)
            && s.respawns <= Max(0, cfg.maxRespawns)
            && (!s.tripped ==> |s.failed| <= s.respawns)
  {
    ReachableInv(cfg, es);
    var s := Run(Start(cfg), es);
    if !s.finished {
      var j := SomeWatchdogIsArmed(s);
    }
  }

  /** In any run at most n + maxRespawns events have an effect, and none after the promise is resolved. */
  lemma EffectiveEventsAreBounded<R>(cfg: Config, es: seq<Event<R>>, more: seq<Event<R>>)
    requires ValidOrder(cfg.order)
    ensures Effective(Start(cfg), es) <= |cfg.order| + Max(0, cfg.maxRespawns)
    ensures Run(Start(cfg), es).finished ==> Run(Run(Start(cfg), es), more) == Run(Start(cfg), es)
  {
    StartInv<R>(cfg);
    EffectiveIsBounded(Start(cfg), es);
    RunInv(Start(cfg), es);
    if Run(Start(cfg), es).finished {
      FinishedIgnoresAll(Run(Start(cfg), es), more);
    }
  }

  lemma {:induction false} FinishedIgnoresAll<R>(s: State<R>, es: seq<Event<R>>)
    requires Inv(s) && s.finished
    ensures Run(s, es) == s
    decreases |es|
  {
    if es != [] {
      StepInv(s, es[0]);
      FinishedIgnoresAll(s, es[1..]);
    }
  }

  /** Each event is the firing of a watchdog that is armed, on a slot that owns a task, at that moment. */
  ghost predicate ArmedFirings<R>(s: State<R>, es: seq<Event<R>>)
    decreases |es|
  {
    es != [] ==>
      && es[0].Timeout? && es[0].slot < |s.slots| && s.slots[es[0].slot].armed && s.slots[es[0].slot].current.Some?
      && ArmedFirings(Step(s, es[0]), es[1..])
  }

  /** From every state of every run armed watchdogs alone, firing one after the other, bring the run to an end,
      within the measure. */
  lemma {:induction false} WatchdogsFinishTheRun<R>(s: State<R>) returns (fires: seq<Event<R>>)
    requires Inv(s)
    ensures |fires| <= Measure(s) && Run(s, fires).finished
    ensures forall k :: 0 <= k < |fires| ==> fires[k].Timeout?
    ensures ArmedFirings(s, fires)
    decreases Measure(s)
  {
    hide Core, Inv;
    if s.finished {
      fires := [];
    } else {
      var j := SomeWatchdogIsArmed(s);
      StepInv(s, Timeout(j));
      var rest := WatchdogsFinishTheRun(Step(s, Timeout(j)));
      fires := [Timeout(j)] + rest;
      assert fires[1..] == rest;
    }
  }

  ghost predicate Reported<R>(es: seq<Event<R>>, t: nat, value: R) {
    exists k :: 0 <= k < |es| && es[k].Message? && es[k].frame == ResultFrame(t, value)
  }

  /** Every result in the outcome is the value of a result frame that some worker posted for that task. */
  lemma {:induction false} ResultsWereReported<R>(s: State<R>, es: seq<Event<R>>, t: nat)
    requires Inv(s) && t in Run(s, es).results
    ensures (t in s.results && Run(s, es).results[t] == s.results[t]) || Reported(es, t, Run(s, es).results[t])
    decreases |es|
  {
    if es != [] {
      var s1 := Step(s, es[0]);
      StepInv(s, es[0]);
      ResultsWereReported(s1, es[1..], t);
      var value := Run(s, es).results[t];
      if Reported(es[1..], t, value) {
        var k :| 0 <= k < |es[1..]| && es[1..][k].Message? && es[1..][k].frame == ResultFrame(t, value);
        assert es[k + 1] == es[1..][k];
      } else {
        StepResults(s, es[0], t);
        assert es[0] == es[0];
      }
    }
  }

  lemma StepResults<R>(s: State<R>, e: Event<R>, t: nat)
    requires Inv(s) && t in Step(s, e).results
    ensures (t in s.results && Step(s, e).results[t] == s.results[t]) ||
            (e.Message? && e.frame == ResultFrame(t, Step(s, e).results[t]))
  {
    hide Inv;
    if e.slot < |s.slots| {
      match e
      case Timeout(j) => TimeoutResults(s, j);
      case Message(j, frame) => MessageResults(s, j, frame);
      case Exit(j) => ExitResults(s, j);
    }
  }

  lemma TimeoutResults<R>(s: State<R>, j: nat)
    requires j < |s.slots|
    ensures OnTaskTimeout(s, j).results == s.results
  {
    if !s.finished && s.slots[j].current.Some? {
      RecycleResults(Expire(s, j), j);
      hide TripBreaker, Recycle, MaybeFinish;
    }
  }

  lemma ExitResults<R>(s: State<R>, j: nat)
    requires j < |s.slots|
    ensures OnExit(s, j).results == s.results
  {
    if s.slots[j].current.Some? {
      RecycleResults(Release(s, j, None), j);
    } else {
      RecycleResults(s.(slots := s.slots[j := s.slots[j].(armed := false)]), j);
    }
    hide TripBreaker, Recycle, MaybeFinish;
  }

  lemma MessageResults<R>(s: State<R>, j: nat, frame: Frame<R>)
    requires j < |s.slots|
    ensures var r := OnMessage(s, j, frame).results;
            r == s.results || (frame.ResultFrame? && r == s.results[frame.index := frame.value])
  {
  }

  lemma RecycleResults<R>(s: State<R>, j: nat)
    requires j < |s.slots|
    ensures TripBreaker(s).results == s.results && MaybeFinish(Recycle(s, j)).results == s.results
  {
    AbandonSlotsResults(s.(tripped := true), 0);
    AbandonPendingResults(AbandonSlots(s.(tripped := true), 0));
  }

  lemma {:induction false} AbandonSlotsResults<R>(s: State<R>, j: nat)
    ensures AbandonSlots(s, j).results == s.results
    decreases |s.slots| - j
  {
    if j < |s.slots| {
      AbandonSlotsResults(if s.slots[j].current.Some? then Release(s, j, None) else s, j + 1);
    }
  }

  lemma {:induction false} AbandonPendingResults<R>(s: State<R>)
    ensures AbandonPending(s).results == s.results
    decreases Total(s) - s.nextTask
  {
    if s.nextTask < Total(s) {
      AbandonPendingResults(Settle(s.(nextTask := s.nextTask + 1), s.cfg.order[s.nextTask], None));
    }
  }
}
