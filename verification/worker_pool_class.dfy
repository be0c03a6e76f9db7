/**
 The worker pool in the form of the source: slots are objects, `run`'s inner functions assign the
 run's variables, and each of them is proved to compute the transition of the state machine.
 */
module WorkerPoolClass {
  import opened Prelude
  import M = WorkerPool

  class SlotCell {
    var current: Option<nat>
    var armed: bool
    var retiring: bool

    constructor ()
      ensures current == None && !armed && !retiring
    {
      current, armed, retiring := None, false, false;
    }
  }

  class Pool<R> {
    const cfg: M.Config
    var slots: seq<SlotCell>
    var nextTask: nat
    var respawns: nat
    var cumulativeMs: int
    var breakerTripped: bool
    var finished: bool
    var settled: set<nat>
    var results: map<nat, R>
    var failedIndices: seq<nat>
    var notified: seq<nat>
    var resolutions: seq<M.Outcome<R>>

    ghost predicate Valid()
      reads this
    {
      forall i, j :: 0 <= i < j < |slots| ==> slots[i] != slots[j]
    }

    ghost function Cells(): set<SlotCell>
      reads this
    {
      set c | c in slots
    }

    ghost function SlotViews(): (v: seq<M.Slot>)
      reads this, slots
      ensures |v| == |slots|
      ensures forall j :: 0 <= j < |v| ==> v[j] == M.Slot(slots[j].current, slots[j].armed, slots[j].retiring)
    {
      seq(|slots|, j requires 0 <= j < |slots| reads this, slots =>
        M.Slot(slots[j].current, slots[j].armed, slots[j].retiring))
    }

    /** The state of the machine that this object represents. */
    ghost function View(): M.State<R>
      reads this, slots
    {
      M.State(cfg, SlotViews(), nextTask, respawns, cumulativeMs, breakerTripped, finished, settled,
              results, failedIndices, notified, resolutions)
    }

    method Settle(index: nat, ok: Option<R>)
      requires Valid()
      modifies this
      ensures Valid() && slots == old(slots)
      ensures View() == M.Settle(old(View()), index, ok)
    {
      if index in settled { return; }
      settled := settled + {index};
      if ok.Some? {
        results := results[index := ok.value];
      } else {
        failedIndices := failedIndices + [index];
      }
      notified := notified + [index];
    }

    method ClearAllTimers()
      requires Valid()
      modifies slots
      ensures View() == old(View()).(slots := M.Disarmed(old(SlotViews())))
    {
      var j := 0;
      while j < |slots|
        invariant 0 <= j <= |slots|
        invariant forall k :: 0 <= k < |slots| ==>
                    && slots[k].current == old(slots[k].current) && slots[k].retiring == old(slots[k].retiring)
                    && slots[k].armed == (k >= j && old(slots[k].armed))
      {
        slots[j].armed := false;
        j := j + 1;
      }
      assert SlotViews() == M.Disarmed(old(SlotViews()));
    }

    method MaybeFinish()
      requires Valid()
      modifies this, slots
      ensures Valid() && slots == old(slots)
      ensures View() == M.MaybeFinish(old(View()))
    {
      if finished || |settled| < |cfg.order| { return; }
      finished := true;
      assert SlotViews() == old(SlotViews());
      ClearAllTimers();
      failedIndices := M.Sort(failedIndices);
      resolutions := resolutions + [M.Outcome(results, breakerTripped, failedIndices)];
      assert SlotViews() == M.Disarmed(old(SlotViews()));
    }

    /** Clear the slot and settle the task it owned, as every handler does first. */
    method Release(j: nat, ok: Option<R>)
      requires Valid() && j < |slots| && slots[j].current.Some?
      modifies this, slots
      ensures Valid() && slots == old(slots)
      ensures View() == M.Release(old(View()), j, ok)
    {
      var idx := slots[j].current.value;
      slots[j].current := None;
      slots[j].armed := false;
      assert SlotViews() == old(SlotViews())[j := old(SlotViews()[j]).(current := None, armed := false)];
      Settle(idx, ok);
    }

    /** First loop of tripBreaker: give up the tasks in flight. */
    method AbandonSlots()
      requires Valid()
      modifies this, slots
      ensures Valid() && slots == old(slots)
      ensures View() == M.AbandonSlots(old(View()), 0)
    {
      var j := 0;
      while j < |slots|
        invariant 0 <= j <= |slots| && slots == old(slots) && Valid()
        invariant M.AbandonSlots(View(), j) == M.AbandonSlots(old(View()), 0)
      {
        if slots[j].current.Some? {
          Release(j, None);
        }
        j := j + 1;
      }
    }

    /** Second loop of tripBreaker: give up the tasks never dispatched. */
    method AbandonPending()
      requires Valid()
      modifies this
      ensures Valid() && slots == old(slots)
      ensures View() == M.AbandonPending(old(View()))
    {
      while nextTask < |cfg.order|
        invariant slots == old(slots) && Valid()
        invariant M.AbandonPending(View()) == M.AbandonPending(old(View()))
        decreases |cfg.order| - nextTask
      {
        AbandonNext();
      }
    }

    method AbandonNext()
      requires Valid() && nextTask < |cfg.order|
      modifies this
      ensures Valid() && slots == old(slots) && nextTask == old(nextTask) + 1
      ensures M.AbandonPending(View()) == M.AbandonPending(old(View()))
    {
      nextTask := nextTask + 1;
      assert View() == old(View()).(nextTask := nextTask);
      Settle(cfg.order[nextTask - 1], None);
    }

    method TripBreaker()
      requires Valid()
      modifies this, slots
      ensures Valid() && slots == old(slots)
      ensures View() == M.TripBreaker(old(View()))
    {
      if breakerTripped { return; }
      breakerTripped := true;
      assert View() == old(View()).(tripped := true);
      AbandonSlots();
      AbandonPending();
      MaybeFinish();
    }

    method DispatchTo(j: nat)
      requires Valid() && j < |slots|
      modifies this, slots
      ensures Valid() && slots == old(slots)
      ensures View() == M.DispatchTo(old(View()), j)
    {
      if breakerTripped || nextTask >= |cfg.order| { return; }
      slots[j].current := Some(cfg.order[nextTask]);
      slots[j].armed := true;
      nextTask := nextTask + 1;
      assert SlotViews() == M.DispatchTo(old(View()), j).slots;
    }

    /** Retire the slot's worker and spawn another, which clears the retiring flag again. */
    method Recycle(j: nat)
      requires Valid() && j < |slots|
      modifies this, slots
      ensures Valid() && slots == old(slots)
      ensures View() == M.Recycle(old(View()), j)
    {
      if finished || breakerTripped { return; }
      if respawns >= cfg.maxRespawns {
        TripBreaker();
        return;
      }
      respawns := respawns + 1;
      slots[j].retiring := true;
      slots[j].retiring := false;
      assert SlotViews() == old(SlotViews())[j := old(SlotViews()[j]).(retiring := false)];
      DispatchTo(j);
    }

    method OnTaskTimeout(j: nat)
      requires Valid() && j < |slots|
      modifies this, slots
      ensures Valid() && slots == old(slots)
      ensures View() == M.OnTaskTimeout(old(View()), j)
    {
      if finished || slots[j].current.None? { return; }
      assert |View().slots| == |slots| && View().slots[j].current == slots[j].current;
      hide View, Valid;
      Expire(j);
      if cumulativeMs >= cfg.maxCumulativeTimeoutMs {
        TripBreaker();
        return;
      }
      Recycle(j);
      MaybeFinish();
    }

    /** Book the time that the watchdog waited, and give the task up. */
    method Expire(j: nat)
      requires Valid() && j < |slots| && slots[j].current.Some?
      modifies this, slots
      ensures Valid() && slots == old(slots) && View() == M.Expire(old(View()), j)
      ensures cumulativeMs == View().cumulativeMs
    {
      cumulativeMs := cumulativeMs + cfg.taskTimeoutMs;
      assert View() == old(View()).(cumulativeMs := cumulativeMs);
      Release(j, None);
    }

    method OnMessage(j: nat, frame: M.Frame<R>)
      requires Valid() && j < |slots|
      modifies this, slots
      ensures Valid() && slots == old(slots)
      ensures View() == M.OnMessage(old(View()), j, frame)
    {
      if finished || frame.OtherFrame? || slots[j].current.None? || frame.index != slots[j].current.value {
        return;
      }
      Release(j, Some(frame.value));
      if !breakerTripped {
        DispatchTo(j);
      }
      MaybeFinish();
    }

    method OnExit(j: nat)
      requires Valid() && j < |slots|
      modifies this, slots
      ensures Valid() && slots == old(slots)
      ensures View() == M.OnExit(old(View()), j)
    {
      if finished || slots[j].retiring { return; }
      if slots[j].current.Some? {
        Release(j, None);
      } else {
        slots[j].armed := false;
        assert SlotViews() == old(SlotViews())[j := old(SlotViews()[j]).(armed := false)];
      }
      Recycle(j);
      MaybeFinish();
    }

    /** Append a slot with a new idle worker. */
    method Spawn()
      requires Valid()
      modifies this
      ensures Valid() && |slots| == |old(slots)| + 1
      ensures slots[..|old(slots)|] == old(slots) && fresh(slots[|old(slots)|])
      ensures View() == old(View()).(slots := old(SlotViews()) + [M.Slot(None, false, false)])
    {
      var slot := new SlotCell();
      slots := slots + [slot];
      assert SlotViews() == old(SlotViews()) + [M.Slot(None, false, false)];
    }

    /** `run` up to the point where it returns its promise: the fleet is spawned and primed. */
    constructor (cfg: M.Config)
      ensures this.cfg == cfg && Valid() && fresh(slots)
      ensures View() == M.Start(cfg)
    {
      this.cfg := cfg;
      slots, nextTask, respawns, cumulativeMs := [], 0, 0, 0;
      breakerTripped, finished, settled, results := false, false, {}, map[];
      failedIndices, notified, resolutions := [], [], [];
      new;
      assert View() == M.Blank(cfg);
      if |cfg.order| == 0 {
        finished := true;
        resolutions := [M.Outcome(map[], false, [])];
        assert SlotViews() == [];
        return;
      }
      PrimeFleet(M.Max(1, M.Min(cfg.size, |cfg.order|)));
    }

    /** Spawn workers and prime each with one task. */
    method PrimeFleet(size: nat)
      requires Valid()
      modifies this, slots
      ensures Valid() && fresh(Cells() - old(Cells()))
      ensures View() == M.Prime(old(View()), size)
    {
      var i := 0;
      while i < size
        invariant 0 <= i <= size && Valid() && fresh(Cells() - old(Cells()))
        invariant M.Prime(View(), size - i) == M.Prime(old(View()), size)
      {
        hide M.DispatchTo;
        Spawn();
        DispatchTo(|slots| - 1);
        i := i + 1;
      }
    }

    /** Any event of the environment: a step of the machine, which keeps its invariant and, unless ignored, makes
        progress. */
    method Deliver(e: M.Event<R>)
      requires Valid() && M.Inv(View())
      modifies this, slots
      ensures Valid() && View() == M.Step(old(View()), e)
      ensures M.Inv(View()) && (View() == old(View()) || M.Measure(View()) < M.Measure(old(View())))
    {
      M.StepInv(View(), e);
      hide M.Inv, M.Measure;
      if e.slot >= |slots| {
        return;
      }
      match e
      case Timeout(j) => OnTaskTimeout(j);
      case Message(j, frame) => OnMessage(j, frame);
      case Exit(j) => OnExit(j);
    }
  }
}
