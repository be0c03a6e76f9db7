/**
 The watcher and the runner of watch mode as objects, changed in place by their callbacks.  Each method is
 proved against the step function of module Watch with the same name, so the results there hold of every
 sequence of calls.  Ghost fields keep the history the results speak of.
 */
module WatchClass {
  import opened Prelude
  import W = Watch

  type Path = W.Path

  /** createSingleFlightScheduler: `active` is the batch the awaited run is working on. */
  class SingleFlightScheduler {
    var inFlight: bool
    var queued: seq<Path>
    var idleWaiters: nat
    var active: Option<seq<Path>>
    ghost var runs: seq<seq<Path>>
    ghost var rejections: nat

    constructor ()
      ensures forall s: W.State :: s.runner == W.Start.runner && s.runs == [] && s.rejections == 0 ==> In(s) == s
    {
      inFlight, queued, idleWaiters, active := false, [], 0, None;
      runs, rejections := [], 0;
    }

    /** The state `s` with this object's part of it put in. */
    ghost function In(s: W.State): W.State
      reads this
    {
      s.(runner := W.Runner(inFlight, queued, idleWaiters, active), runs := runs, rejections := rejections)
    }

    method Schedule(paths: seq<Path>, ghost s: W.State)
      modifies this
      ensures In(s) == W.Schedule(old(In(s)), paths)
    {
      if inFlight {
        var i := 0;
        while i < |paths|
          invariant 0 <= i <= |paths|
          invariant In(s) == old(In(s)).(runner := old(In(s)).runner.(queued := W.AddAll(old(queued), paths[..i])))
        {
          assert paths[..i + 1][..i] == paths[..i];
          if paths[i] !in queued {
            queued := queued + [paths[i]];
          }
          i := i + 1;
        }
        assert paths[..i] == paths;
        return;
      }
      if |paths| == 0 {
        return;
      }
      inFlight := true;
      Run(paths, s);
    }

    /** The call of `run`, up to its first await. */
    method Run(batch: seq<Path>, ghost s: W.State)
      requires inFlight
      modifies this`active, this`runs
      ensures In(s) == W.StartRun(old(In(s)), batch)
    {
      active := Some(batch);
      runs := runs + [batch];
    }

    /** The rest of the loop in `drive` after the awaited run has ended. */
    method OnRunEnds(ghost s: W.State)
      requires active.Some? && inFlight
      modifies this
      ensures In(s) == W.OnRunEnds(old(In(s)))
    {
      if |queued| == 0 {
        active, inFlight := None, false;
        SettleIdle(s);
        return;
      }
      var batch := queued;
      queued := [];
      Run(batch, s);
    }

    /** A rejected run leaves the loop through `finally`. */
    method OnRunRejects(ghost s: W.State)
      requires active.Some?
      modifies this
      ensures In(s) == W.OnRunRejects(old(In(s)))
    {
      active, inFlight := None, false;
      rejections := rejections + 1;
      SettleIdle(s);
    }

    method SettleIdle(ghost s: W.State)
      modifies this`idleWaiters
      ensures In(s) == old(In(s)).(runner := W.SettleIdle(old(In(s)).runner))
    {
      if !inFlight && |queued| == 0 {
        idleWaiters := 0;
      }
    }

    /** Whether the promise is resolved at once. */
    method WhenIdle(ghost s: W.State) returns (resolved: bool)
      modifies this`idleWaiters
      ensures In(s) == W.OnWhenIdle(old(In(s)))
      ensures resolved <==> !inFlight && queued == []
      ensures idleWaiters == old(idleWaiters) + (if resolved then 0 else 1)
    {
      if !inFlight && |queued| == 0 {
        return true;
      }
      idleWaiters := idleWaiters + 1;
      return false;
    }
  }

  /** createFileWatcher, with the callback that watch mode attaches: `schedule` of its runner. */
  class FileWatcher {
    var pending: seq<Path>
    var timerArmed: bool
    var callback: SingleFlightScheduler?
    var closed: bool
    const runner: SingleFlightScheduler
    ghost var changes: seq<W.Change>
    ghost var unattached: set<Path>
    ghost var discarded: set<Path>

    constructor ()
      ensures Valid() && View() == W.Start && fresh(runner)
    {
      pending, timerArmed, callback, closed := [], false, null, false;
      changes, unattached, discarded := [], {}, {};
      runner := new SingleFlightScheduler();
      new;
      assert runner.In(W.Start) == W.Start;
    }

    ghost predicate Valid()
      reads this
    {
      callback == null || callback == runner
    }

    ghost function View(): W.State
      reads this, runner
    {
      runner.In(W.State(W.Watcher(pending, timerArmed, callback != null, closed),
                        W.Start.runner, changes, [], unattached, discarded, 0))
    }

    method OnRaw(rel: Path, ignored: bool)
      requires Valid()
      modifies this`pending, this`timerArmed, this`changes
      ensures Valid() && View() == W.OnRaw(old(View()), rel, ignored)
    {
      if closed {
        return;
      }
      if |rel| == 0 || ignored {
        return;
      }
      if rel !in pending {
        pending := pending + [rel];
      }
      timerArmed := true;
      changes := changes + [W.Change(rel, |runner.runs|)];
    }

    method Flush()
      requires Valid()
      modifies this, runner
      ensures Valid() && View() == W.Flush(old(View()))
    {
      timerArmed := false;
      if |pending| == 0 {
        return;
      }
      var batch := pending;
      pending := [];
      if callback != null {
        callback.Schedule(batch, View());
      } else {
        unattached := unattached + W.Elems(batch);
      }
    }

    method OnBatch()
      requires Valid()
      modifies this`callback
      ensures Valid() && View() == W.Step(old(View()), W.Attach)
    {
      callback := runner;
    }

    method Close()
      requires Valid()
      modifies this
      ensures Valid() && View() == W.OnClose(old(View()))
    {
      if closed {
        return;
      }
      closed := true;
      if timerArmed {
        timerArmed := false;
      }
      discarded := discarded + W.Elems(pending);
      pending := [];
    }

    /** One event, from whatever source: the step of the machine, on both objects. */
    method Deliver(e: W.Event)
      requires Valid() && W.Core(View())
      modifies this, runner
      ensures Valid() && View() == W.Step(old(View()), e) && W.Core(View())
    {
      W.StepCore(View(), e);
      match e
      case Raw(path, ignored) => OnRaw(path, ignored);
      case Debounce => if timerArmed { Flush(); }
      case Attach => OnBatch();
      case RunEnds => if runner.active.Some? { runner.OnRunEnds(View()); }
      case RunRejects => if runner.active.Some? { runner.OnRunRejects(View()); }
      case WhenIdle => var _ := runner.WhenIdle(View());
      case Close => Close();
    }
  }
}
