/**
 What the steps of watch mode do (src/infrastructure/watch/file-watcher.ts with createSingleFlightScheduler in
 src/apps/cli/executor.ts), told from the events: which changes count, what is run, and when a waiter is woken.
 */
module WatchRuns {
  import opened Prelude
  import opened Watch

  // ---------------------------------------------------------------- one step

  /** A change that is not ignored is noted, becomes pending and (re)starts the timer, unless the watcher is closed. */
  lemma RawDoes(s: State, path: Path, ignored: bool)
    ensures var r := Step(s, Raw(path, ignored));
            if s.watcher.closed || ignored || path == "" then r == s
            else
              && r.changes == s.changes + [Change(path, |s.runs|)] && r.watcher.timerArmed
              && (forall p :: p in r.watcher.pending <==> p in s.watcher.pending || p == path)
              && s.watcher.pending <= r.watcher.pending
              && r.runner == s.runner && r.runs == s.runs && r.watcher.closed == s.watcher.closed
  {
  }

  /** The timer hands over all that is pending, as one batch: to be run at once, or after the active run. */
  lemma DebounceDoes(s: State)
    requires Core(s) && Enabled(s, Debounce)
    ensures var r := Step(s, Debounce);
            var batch := s.watcher.pending;
            && batch != [] && r.watcher == s.watcher.(pending := [], timerArmed := false) && r.changes == s.changes
            && (if !s.watcher.attached then r.runner == s.runner && r.runs == s.runs
                else if s.runner.inFlight then
                  && r.runs == s.runs && r.runner.active == s.runner.active && r.runner.inFlight
                  && (forall p :: p in r.runner.queued <==> p in s.runner.queued || p in batch)
                  && s.runner.queued <= r.runner.queued
                else
                  && r.runs == s.runs + [batch] && r.runner.active == Some(batch) && r.runner.inFlight
                  && r.runner.queued == s.runner.queued)
  {
    AddAllGrows(s.runner.queued, s.watcher.pending);
  }

  lemma {:induction false} AddAllGrows(queued: seq<Path>, paths: seq<Path>)
    ensures queued <= AddAll(queued, paths)
  {
    if paths != [] {
      AddAllGrows(queued, paths[..|paths| - 1]);
    }
  }

  /** The end of a run starts one more with all that was queued, if anything was. */
  lemma RunEndsDoes(s: State)
    requires Core(s) && Enabled(s, RunEnds)
    ensures var r := Step(s, RunEnds);
            && r.watcher == s.watcher && r.changes == s.changes && r.runner.queued == []
            && (if s.runner.queued == [] then !r.runner.inFlight && r.runner.active == None && r.runs == s.runs
                else
                  && r.runner.inFlight && r.runner.active == Some(s.runner.queued)
                  && r.runs == s.runs + [s.runner.queued])
  {
  }

  /** A rejected run ends the loop: nothing is started, and what was queued stays queued. */
  lemma RunRejectsDoes(s: State)
    requires Core(s) && Enabled(s, RunRejects)
    ensures var r := Step(s, RunRejects);
            && r.watcher == s.watcher && r.changes == s.changes && r.runs == s.runs
            && !r.runner.inFlight && r.runner.active == None && r.runner.queued == s.runner.queued
  {
  }

  /** Closing forgets what is pending, for good. */
  lemma CloseDoes(s: State)
    requires Core(s)
    ensures var r := Step(s, Close);
            && r.watcher.closed && !r.watcher.timerArmed && r.watcher.pending == []
            && r.runner == s.runner && r.runs == s.runs && r.changes == s.changes
  {
  }

  // ---------------------------------------------------------------- which changes count

  /** The paths of the changes that are not ignored, up to the first close. */
  function Survivors(es: seq<Event>): seq<Path> {
    if es == [] || es[0] == Close then []
    else (if es[0].Raw? && !es[0].ignored && es[0].path != "" then [es[0].path] else []) + Survivors(es[1..])
  }

  function PathsOf(changes: seq<Change>): (r: seq<Path>)
    ensures |r| == |changes|
  {
    seq(|changes|, k requires 0 <= k < |changes| => changes[k].path)
  }

  lemma {:induction false} ClosedNotesNothing(s: State, es: seq<Event>)
    requires s.watcher.closed
    ensures Run(s, es).changes == s.changes
    decreases |es|
  {
    if es != [] {
      ClosedNotesNothing(Step(s, es[0]), es[1..]);
    }
  }

  lemma {:induction false} ChangesFrom(s: State, es: seq<Event>)
    requires !s.watcher.closed
    ensures PathsOf(Run(s, es).changes) == PathsOf(s.changes) + Survivors(es)
    decreases |es|
  {
    if es != [] {
      var e, s1 := es[0], Step(s, es[0]);
      if e == Close {
        ClosedNotesNothing(s1, es[1..]);
      } else {
        ChangesFrom(s1, es[1..]);
        StepNotes(s, e);
        hide Step, PathsOf;
        assert PathsOf(s.changes) + Survivors(es) ==
               (PathsOf(s.changes) + if e.Raw? && !e.ignored && e.path != "" then [e.path] else [])
               + Survivors(es[1..]);
      }
    }
  }

  lemma StepNotes(s: State, e: Event)
    requires !s.watcher.closed && e != Close
    ensures !Step(s, e).watcher.closed
    ensures PathsOf(Step(s, e).changes) ==
            PathsOf(s.changes) + if e.Raw? && !e.ignored && e.path != "" then [e.path] else []
  {
  }

  /** The changes noted are exactly the survivors, in order; so EveryChangeIsServed speaks of each of them. */
  lemma ChangesAreTheSurvivors(es: seq<Event>)
    ensures PathsOf(Run(Start, es).changes) == Survivors(es)
  {
    ChangesFrom(Start, es);
  }

  // ---------------------------------------------------------------- only changes are run

  ghost predicate Changed(changes: seq<Change>, p: Path) {
    exists k :: 0 <= k < |changes| && changes[k].path == p
  }

  /** Whatever is pending, queued or was run is the path of a change. */
  ghost predicate OnlyChanges(s: State) {
    && (forall p :: p in s.watcher.pending || p in s.runner.queued ==> Changed(s.changes, p))
    && (forall k, p :: 0 <= k < |s.runs| && p in s.runs[k] ==> Changed(s.changes, p))
  }

  lemma StepOnlyChanges(s: State, e: Event)
    requires Core(s) && OnlyChanges(s)
    ensures OnlyChanges(Step(s, e))
  {
    if Enabled(s, e) {
      match e
      case Raw(path, ignored) =>
        RawDoes(s, path, ignored);
        StillChanged(s.changes, Change(path, |s.runs|));
        hide Step, Core;
      case Debounce => DebounceDoes(s); hide Step, Core;
      case RunEnds => RunEndsDoes(s); hide Step, Core;
      case RunRejects => RunRejectsDoes(s); hide Step, Core;
      case Close => CloseDoes(s); hide Step, Core;
      case _ =>
    }
  }

  lemma StillChanged(changes: seq<Change>, c: Change)
    ensures forall p :: Changed(changes + [c], p) <==> Changed(changes, p) || p == c.path
  {
    forall p
      ensures Changed(changes + [c], p) <==> Changed(changes, p) || p == c.path
    {
      if Changed(changes, p) {
        var k :| 0 <= k < |changes| && changes[k].path == p;
        assert (changes + [c])[k].path == p;
      }
      assert (changes + [c])[|changes|] == c;
    }
  }

  lemma {:induction false} RunOnlyChanges(s: State, es: seq<Event>)
    requires Core(s) && OnlyChanges(s)
    ensures OnlyChanges(Run(s, es))
    decreases |es|
  {
    hide Core, Step, OnlyChanges;
    if es != [] {
      StepCore(s, es[0]);
      StepOnlyChanges(s, es[0]);
      RunOnlyChanges(Step(s, es[0]), es[1..]);
    }
  }

  /** Nothing is ever run but paths that changed. */
  lemma OnlyChangesAreRun(es: seq<Event>, k: nat, p: Path)
    requires k < |Run(Start, es).runs| && p in Run(Start, es).runs[k]
    ensures p in Survivors(es)
  {
    RunOnlyChanges(Start, es);
    ChangesAreTheSurvivors(es);
    var changes := Run(Start, es).changes;
    hide Run;
    assert Changed(changes, p);
    var i :| 0 <= i < |changes| && changes[i].path == p;
    assert PathsOf(changes)[i] == p;
  }

  /** Once nothing is pending, queued or running, every change has been in a run that started after it. */
  lemma AtRestAllIsServed(es: seq<Event>, k: nat)
    requires AttachedFirst(es) && NeverCloses(es) && k < |Run(Start, es).changes|
    requires var s := Run(Start, es); !s.watcher.timerArmed && s.runner.queued == []
    ensures var s := Run(Start, es); InLaterRun(s.runs, s.changes[k].runsBefore, s.changes[k].path)
  {
    SingleFlight(es);
    EveryChangeIsServed(es, k);
  }

  // ---------------------------------------------------------------- waiting for idleness

  predicate IsIdle(s: State) {
    !s.runner.inFlight && s.runner.queued == []
  }

  /** A call of whenIdle adds a waiter unless all is idle; waiters are woken only when all is idle, and then all. */
  lemma WaitersAfter(s: State, e: Event)
    requires Core(s) && (IsIdle(s) ==> s.runner.idleWaiters == 0)
    ensures var r := Step(s, e);
            r.runner.idleWaiters == if IsIdle(r) then 0
                                    else if e == WhenIdle then s.runner.idleWaiters + 1
                                    else s.runner.idleWaiters
  {
  }

  /** The calls of whenIdle since the last idle moment of the run from s, if n were open before. */
  function CallsSinceIdle(s: State, es: seq<Event>, n: nat): nat
    decreases |es|
  {
    if es == [] then n
    else
      var r := Step(s, es[0]);
      CallsSinceIdle(r, es[1..], if IsIdle(r) then 0 else if es[0] == WhenIdle then n + 1 else n)
  }

  lemma {:induction false} WaitersFrom(s: State, es: seq<Event>)
    requires Core(s) && (IsIdle(s) ==> s.runner.idleWaiters == 0)
    ensures Run(s, es).runner.idleWaiters == CallsSinceIdle(s, es, s.runner.idleWaiters)
    decreases |es|
  {
    hide Core, Step, IsIdle;
    if es != [] {
      StepCore(s, es[0]);
      WaitersAfter(s, es[0]);
      WaitersFrom(Step(s, es[0]), es[1..]);
    }
  }

  /** In every run the open waiters are exactly the calls of whenIdle made since all was last idle: none is woken
      while a run is active or paths are queued, and none is left behind by an idle moment. */
  lemma WaitersAreSinceIdle(es: seq<Event>)
    ensures Run(Start, es).runner.idleWaiters == CallsSinceIdle(Start, es, 0)
  {
    WaitersFrom(Start, es);
  }
}
