/**
 Watch mode: the debounced file watcher (src/infrastructure/watch/file-watcher.ts) feeding the
 single-flight runner (createSingleFlightScheduler in src/apps/cli/executor.ts), as a state machine.

 A raw event, a firing of the debounce timer, the end of a run, a call of whenIdle and a close are the
 steps, in any order.  Collections that the source keeps as sets are sequences in insertion order.
 */
module Watch {
  import opened Prelude

  type Path = string

  /** The watcher's variables; `attached` tells whether onBatch has been called. */
  datatype Watcher = Watcher(pending: seq<Path>, timerArmed: bool, attached: bool, closed: bool)

  /** The runner's variables; `active` is the batch a run is working on. */
  datatype Runner = Runner(inFlight: bool, queued: seq<Path>, idleWaiters: nat, active: Option<seq<Path>>)

  /** A surviving change event, with the number of runs that had started when it came in. */
  datatype Change = Change(path: Path, runsBefore: nat)

  datatype State = State(
    watcher: Watcher,
    runner: Runner,
    changes: seq<Change>,     // the events that survived the ignore filter, in order
    runs: seq<seq<Path>>,     // the batches of the runs started, in order
    unattached: set<Path>,    // flushed while no callback was attached
    discarded: set<Path>,     // pending when the watcher was closed
    rejections: nat           // runs that rejected
  )

  datatype Event =
    | Raw(path: Path, ignored: bool)
    | Debounce
    | Attach
    | RunEnds
    | RunRejects
    | WhenIdle
    | Close

  const Start: State := State(Watcher([], false, false, false), Runner(false, [], 0, None), [], [], {}, {}, 0)

  /** Adding to a set that keeps its insertion order. */
  function Add(s: seq<Path>, p: Path): seq<Path> {
    if p in s then s else s + [p]
  }

  function AddAll(s: seq<Path>, ps: seq<Path>): (r: seq<Path>)
    ensures forall p :: p in r <==> p in s || p in ps
  {
    if ps == [] then s else Add(AddAll(s, ps[..|ps| - 1]), ps[|ps| - 1])
  }

  // ---------------------------------------------------------------- the runner

  function StartRun(s: State, batch: seq<Path>): State {
    s.(runner := s.runner.(inFlight := true, active := Some(batch)), runs := s.runs + [batch])
  }

  function SettleIdle(r: Runner): Runner {
    if !r.inFlight && r.queued == [] then r.(idleWaiters := 0) else r
  }

  function Schedule(s: State, paths: seq<Path>): State {
    if s.runner.inFlight then s.(runner := s.runner.(queued := AddAll(s.runner.queued, paths)))
    else if paths == [] then s
    else StartRun(s, paths)
  }

  /** The continuation after `await run(batch)`. */
  function OnRunEnds(s: State): State {
    if s.runner.queued == []
    then s.(runner := SettleIdle(s.runner.(inFlight := false, active := None)))
    else StartRun(s.(runner := s.runner.(queued := [])), s.runner.queued)
  }

  /** A rejected run leaves the loop through `finally`. */
  function OnRunRejects(s: State): State {
    s.(runner := SettleIdle(s.runner.(inFlight := false, active := None)), rejections := s.rejections + 1)
  }

  function OnWhenIdle(s: State): State {
    if !s.runner.inFlight && s.runner.queued == [] then s
    else s.(runner := s.runner.(idleWaiters := s.runner.idleWaiters + 1))
  }

  // ---------------------------------------------------------------- the watcher

  function OnRaw(s: State, path: Path, ignored: bool): State {
    if s.watcher.closed || path == "" || ignored then s
    else s.(watcher := s.watcher.(pending := Add(s.watcher.pending, path), timerArmed := true),
            changes := s.changes + [Change(path, |s.runs|)])
  }

  function Flush(s: State): State {
    var batch := s.watcher.pending;
    if batch == [] then s.(watcher := s.watcher.(timerArmed := false))
    else
      var s1 := s.(watcher := s.watcher.(timerArmed := false, pending := []));
      if s.watcher.attached then Schedule(s1, batch)
      else s1.(unattached := s.unattached + Elems(batch))
  }

  function OnClose(s: State): State {
    if s.watcher.closed then s
    else s.(watcher := s.watcher.(closed := true, timerArmed := false, pending := []),
            discarded := s.discarded + Elems(s.watcher.pending))
  }

  function Elems(s: seq<Path>): set<Path> {
    set p | p in s
  }

  predicate Enabled(s: State, e: Event) {
    match e
    case Debounce => s.watcher.timerArmed
    case RunEnds => s.runner.active.Some?
    case RunRejects => s.runner.active.Some?
    case _ => true
  }

  function Step(s: State, e: Event): State {
    if !Enabled(s, e) then s
    else match e
      case Raw(path, ignored) => OnRaw(s, path, ignored)
      case Debounce => Flush(s)
      case Attach => s.(watcher := s.watcher.(attached := true))
      case RunEnds => OnRunEnds(s)
      case RunRejects => OnRunRejects(s)
      case WhenIdle => OnWhenIdle(s)
      case Close => OnClose(s)
  }

  function Run(s: State, es: seq<Event>): State
    decreases |es|
  {
    if es == [] then s else Run(Step(s, es[0]), es[1..])
  }

  // ---------------------------------------------------------------- invariants

  /** The path was in the batch of a run that started after the first `n` runs. */
  ghost predicate InLaterRun(runs: seq<seq<Path>>, n: nat, p: Path) {
    exists k :: n <= k < |runs| && p in runs[k]
  }

  /** Where a surviving change can be. */
  ghost predicate Accounted(s: State, c: Change) {
    || c.path in s.watcher.pending
    || c.path in s.runner.queued
    || InLaterRun(s.runs, c.runsBefore, c.path)
    || c.path in s.unattached
    || c.path in s.discarded
  }

  /** Holds in every run, rejections and closing included. */
  ghost predicate Core(s: State) {
    && (s.watcher.timerArmed <==> s.watcher.pending != [])
    && (s.watcher.closed ==> s.watcher.pending == [])
    && (s.runner.inFlight <==> s.runner.active.Some?)
    && Distinct(s.watcher.pending) && Distinct(s.runner.queued)
    && (forall k :: 0 <= k < |s.changes| ==> s.changes[k].runsBefore <= |s.runs| && Accounted(s, s.changes[k]))
  }

  /** Nothing is queued, and nobody waits, unless a run is in flight. */
  ghost predicate Quiet(s: State) {
    !s.runner.inFlight ==> s.runner.queued == [] && s.runner.idleWaiters == 0
  }

  lemma {:induction false} AddAllDistinct(s: seq<Path>, ps: seq<Path>)
    requires Distinct(s)
    ensures Distinct(AddAll(s, ps))
  {
    if ps != [] {
      AddAllDistinct(s, ps[..|ps| - 1]);
    }
  }

  lemma StillInLaterRun(runs: seq<seq<Path>>, batch: seq<Path>, n: nat, p: Path)
    requires n <= |runs|
    ensures InLaterRun(runs, n, p) || p in batch ==> InLaterRun(runs + [batch], n, p)
  {
    var more := runs + [batch];
    if InLaterRun(runs, n, p) {
      var k :| n <= k < |runs| && p in runs[k];
      assert p in more[k];
    }
    assert p in batch ==> p in more[|runs|];
  }

  lemma StartRunCore(s: State, batch: seq<Path>, from: State)
    requires forall k :: 0 <= k < |from.changes| ==>
               from.changes[k].runsBefore <= |from.runs| && Accounted(from, from.changes[k])
    requires from.changes == s.changes && from.runs == s.runs && from.unattached == s.unattached
             && from.discarded == s.discarded
    requires forall p :: p in from.watcher.pending || p in from.runner.queued ==>
               p in s.watcher.pending || p in s.runner.queued || p in batch
    ensures var r := StartRun(s, batch);
            forall k :: 0 <= k < |r.changes| ==> r.changes[k].runsBefore <= |r.runs| && Accounted(r, r.changes[k])
  {
    var r := StartRun(s, batch);
    forall k | 0 <= k < |r.changes|
      ensures r.changes[k].runsBefore <= |r.runs| && Accounted(r, r.changes[k])
    {
      var c := from.changes[k];
      assert Accounted(from, c);
      StillInLaterRun(s.runs, batch, c.runsBefore, c.path);
    }
  }

  lemma FlushCore(s: State)
    requires Core(s)
    ensures Core(Flush(s))
  {
    var batch := s.watcher.pending;
    if batch != [] {
      var s1 := s.(watcher := s.watcher.(timerArmed := false, pending := []));
      if s.watcher.attached && !s.runner.inFlight {
        StartRunCore(s1, batch, s);
      } else {
        AddAllDistinct(s.runner.queued, batch);
        KeepsChanges(s, Flush(s));
      }
    }
  }

  lemma KeepsChanges(s: State, r: State)
    requires Core(s) && r.changes == s.changes && r.runs == s.runs
    requires s.unattached <= r.unattached && s.discarded <= r.discarded
    requires forall p :: p in s.watcher.pending || p in s.runner.queued ==>
               p in r.watcher.pending || p in r.runner.queued || p in r.unattached || p in r.discarded
    ensures forall k :: 0 <= k < |r.changes| ==> r.changes[k].runsBefore <= |r.runs| && Accounted(r, r.changes[k])
  {
    forall k | 0 <= k < |r.changes|
      ensures r.changes[k].runsBefore <= |r.runs| && Accounted(r, r.changes[k])
    {
      assert Accounted(s, s.changes[k]);
    }
  }

  lemma RawCore(s: State, path: Path, ignored: bool)
    requires Core(s)
    ensures Core(OnRaw(s, path, ignored))
  {
    var r := OnRaw(s, path, ignored);
    if r != s {
      forall k | 0 <= k < |r.changes|
        ensures r.changes[k].runsBefore <= |r.runs| && Accounted(r, r.changes[k])
      {
        if k < |s.changes| {
          assert Accounted(s, s.changes[k]) && r.changes[k] == s.changes[k];
        } else {
          assert r.changes[k].path == path && path in r.watcher.pending;
        }
      }
    }
  }

  lemma StepCore(s: State, e: Event)
    requires Core(s)
    ensures Core(Step(s, e))
  {
    if Enabled(s, e) {
      match e
      case Raw(path, ignored) => RawCore(s, path, ignored);
      case Debounce => FlushCore(s);
      case RunEnds =>
        if s.runner.queued == [] {
          KeepsChanges(s, Step(s, e));
        } else {
          StartRunCore(s.(runner := s.runner.(queued := [])), s.runner.queued, s);
        }
      case _ => KeepsChanges(s, Step(s, e));
    }
  }

  /** Every step keeps the runner quiet when idle, except a rejection that finds paths queued. */
  lemma StepQuiet(s: State, e: Event)
    requires Core(s) && Quiet(s)
    ensures Quiet(Step(s, e)) <==> !(e == RunRejects && Enabled(s, e) && s.runner.queued != [])
  {
  }

  lemma {:induction false} RunCore(s: State, es: seq<Event>)
    requires Core(s)
    ensures Core(Run(s, es))
    decreases |es|
  {
    if es != [] {
      StepCore(s, es[0]);
      RunCore(Step(s, es[0]), es[1..]);
    }
  }

  ghost predicate NeverRejects(es: seq<Event>) {
    forall k :: 0 <= k < |es| ==> es[k] != RunRejects
  }

  lemma {:induction false} RunQuiet(s: State, es: seq<Event>)
    requires Core(s) && Quiet(s) && NeverRejects(es)
    ensures Core(Run(s, es)) && Quiet(Run(s, es))
    decreases |es|
  {
    if es != [] {
      StepCore(s, es[0]);
      StepQuiet(s, es[0]);
      RunQuiet(Step(s, es[0]), es[1..]);
    }
  }

  ghost predicate AttachedFirst(es: seq<Event>) {
    |es| > 0 && es[0] == Attach
  }

  ghost predicate NeverCloses(es: seq<Event>) {
    forall k :: 0 <= k < |es| ==> es[k] != Close
  }

  lemma {:induction false} NothingIsLost(s: State, es: seq<Event>)
    requires s.watcher.attached && NeverCloses(es)
    ensures Run(s, es).unattached == s.unattached && Run(s, es).discarded == s.discarded
    decreases |es|
  {
    if es != [] {
      NothingIsLost(Step(s, es[0]), es[1..]);
    }
  }

  // ---------------------------------------------------------------- main results

  /** At most one run at a time, a debounce timer exactly while paths are pending: in every run of the program. */
  lemma SingleFlight(es: seq<Event>)
    ensures var s := Run(Start, es);
            && (s.runner.inFlight <==> s.runner.active.Some?)
            && (s.watcher.timerArmed <==> s.watcher.pending != [])
            && (s.watcher.closed ==> s.watcher.pending == [] && !s.watcher.timerArmed)
  {
    RunCore(Start, es);
  }

  /** While one run is active, no event but its own end starts another. */
  lemma RunsDoNotInterleave(s: State, e: Event)
    requires Core(s) && s.runner.inFlight && e != RunEnds
    ensures Step(s, e).runs == s.runs
    ensures e != RunRejects ==> Step(s, e).runner.active == s.runner.active
  {
  }

  /** If no run rejects, paths are queued and idle waiters wait only while a run is in flight. */
  lemma IdleWaitersAreNeverStranded(es: seq<Event>)
    requires NeverRejects(es)
    ensures var s := Run(Start, es);
            !s.runner.inFlight ==> s.runner.queued == [] && s.runner.idleWaiters == 0
  {
    RunQuiet(Start, es);
  }

  /** "a" is being worked on and "b" is queued. */
  function Busy(): State {
    State(Watcher([], false, true, false), Runner(true, ["b"], 0, Some(["a"])),
          [Change("a", 0), Change("b", 1)], [["a"]], {}, {}, 0)
  }

  lemma StepsToBusy()
    ensures Step(Step(Step(Step(Step(Start, Attach), Raw("a", false)), Debounce), Raw("b", false)), Debounce) == Busy()
  {
    var open, busy := Watcher([], false, true, false), Runner(true, [], 0, Some(["a"]));
    var a, b := Change("a", 0), Change("b", 1);
    var s2 := State(Watcher(["a"], true, true, false), Runner(false, [], 0, None), [a], [], {}, {}, 0);
    var s3 := State(open, busy, [a], [["a"]], {}, {}, 0);
    var s4 := State(Watcher(["b"], true, true, false), busy, [a, b], [["a"]], {}, {}, 0);
    assert Step(Step(Start, Attach), Raw("a", false)) == s2 by { assert [] + [a] == [a]; }
    assert Step(s2, Debounce) == s3;
    assert Step(s3, Raw("b", false)) == s4 by { assert [a] + [b] == [a, b]; }
    assert AddAll([], ["b"]) == Add(AddAll([], []), "b") by { assert ["b"][..0] == []; }
    assert Step(s4, Debounce) == Busy();
  }

  /** A rejection while a path is queued does strand both the path and a waiter. */
  lemma RejectionStrandsWaiters()
    ensures var s := Run(Start, [Attach, Raw("a", false), Debounce, Raw("b", false), Debounce, WhenIdle, RunRejects]);
            !s.runner.inFlight && s.runner.queued == ["b"] && s.runner.idleWaiters == 1
  {
    var r := Step(Step(Busy(), WhenIdle), RunRejects);
    assert !r.runner.inFlight && r.runner.queued == ["b"] && r.runner.idleWaiters == 1;
    hide *;
    StepsToBusy();
    RunSeven(Start, Attach, Raw("a", false), Debounce, Raw("b", false), Debounce, WhenIdle, RunRejects);
  }

  lemma RunSeven(s: State, a: Event, b: Event, c: Event, d: Event, e: Event, f: Event, g: Event)
    ensures Run(s, [a, b, c, d, e, f, g]) == Step(Step(Step(Step(Step(Step(Step(s, a), b), c), d), e), f), g)
  {
    RunConcat(s, [a, b, c], [d, e, f, g]);
    RunConcat(Run(s, [a, b, c]), [d, e], [f, g]);
    assert [a, b, c] + [d, e, f, g] == [a, b, c, d, e, f, g] && [d, e] + [f, g] == [d, e, f, g];
    RunConcat(s, [a], [b, c]);
    assert [a] + [b, c] == [a, b, c];
    RunTwo(Step(s, a), b, c);
    RunTwo(Run(s, [a, b, c]), d, e);
    RunTwo(Run(Run(s, [a, b, c]), [d, e]), f, g);
    assert [a][1..] == [];
  }

  lemma RunTwo(s: State, a: Event, b: Event)
    ensures Run(s, [a, b]) == Step(Step(s, a), b)
  {
    assert [a, b][1..] == [b] && [b][1..] == [];
    assert Run(Step(s, a), [b]) == Step(Step(s, a), b);
  }

  lemma {:induction false} RunConcat(s: State, es: seq<Event>, fs: seq<Event>)
    ensures Run(s, es + fs) == Run(Run(s, es), fs)
    decreases |es|
  {
    if es == [] {
      assert es + fs == fs;
    } else {
      assert (es + fs)[1..] == es[1..] + fs;
      RunConcat(Step(s, es[0]), es[1..], fs);
    }
  }

  /** With the callback attached and the watcher open, every surviving change is pending, queued, or in a batch whose
      run started after it. */
  lemma EveryChangeIsServed(es: seq<Event>, k: nat)
    requires AttachedFirst(es) && NeverCloses(es)
    requires k < |Run(Start, es).changes|
    ensures var s := Run(Start, es);
            var c := s.changes[k];
            c.path in s.watcher.pending || c.path in s.runner.queued || InLaterRun(s.runs, c.runsBefore, c.path)
  {
    RunCore(Start, es);
    NothingIsLost(Step(Start, Attach), es[1..]);
    assert Accounted(Run(Start, es), Run(Start, es).changes[k]);
  }
}
