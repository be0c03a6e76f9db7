/**
 A run that dies and a next run over another tree: exactly when the next run still ends in the full table
 (runIndexingPipeline in src/application/indexing/pipeline.ts, which trusts the cache it finds).
 A failed save of the cache counts as a crash after the last write.
 */
module CrashRecovery {
  import opened Prelude
  import opened Symbols
  import opened Incremental
  import opened DeltaStore
  import opened IncrementalIndex

  type Path = Incremental.Path

  /** One attempt at a run: the parser's version, the tree, and the resolution of that moment. */
  datatype Attempt = Attempt(version: nat, files: seq<FileNode>, resolve: Resolver)

  function ParsedBy(w: World, cache: Cache, a: Attempt): Parsed {
    IncrementalParse(w, a.version, cache, a.files)
  }

  function PlanFor(w: World, cache: Cache, a: Attempt): Plan {
    PlanOf(w, a.resolve, a.version, cache, a.files)
  }

  /** Whether the run gets as far as persisting: a tree with no files, or with no symbols, ends it before. */
  predicate Persisting(w: World, cache: Cache, a: Attempt) {
    a.files != [] && ParsedBy(w, cache, a).symbols != []
  }

  /** What a run writes, if it does not die. */
  function WritesOf(w: World, cache: Cache, a: Attempt): seq<Write> {
    if Persisting(w, cache, a) then Writes(PlanFor(w, cache, a)) else []
  }

  /** The store after all of an attempt's writes. */
  function Completed(w: World, cache: Cache, store: Store, a: Attempt): Store {
    ApplyAll(store, WritesOf(w, cache, a))
  }

  /** The store after the first n writes of an attempt. */
  function Died(w: World, cache: Cache, store: Store, a: Attempt, n: nat): Store
    requires n <= |WritesOf(w, cache, a)|
  {
    ApplyAll(store, WritesOf(w, cache, a)[..n])
  }

  /** The symbols whose rows are among the first n writes. */
  function Wrote(w: World, cache: Cache, a: Attempt, n: nat): seq<Symbol> {
    var symbols := PlanFor(w, cache, a).symbols;
    if n == 0 then [] else if n - 1 <= |symbols| then symbols[..n - 1] else symbols
  }

  function FullTable(w: World, cache: Cache, a: Attempt): map<LogicalKey, Row> {
    FullIndex(a.resolve, ParsedBy(w, cache, a)).rows
  }

  ghost predicate TakenAsUnchanged(w: World, cache: Cache, a: Attempt, p: Path) {
    IsUnchanged(w, a.version, cache, a.files, p)
  }

  /** The attempt's own symbols have this key. */
  predicate Defines(w: World, cache: Cache, a: Attempt, k: LogicalKey) {
    RowFound(Folded(ParsedBy(w, cache, a)), k).Some?
  }

  // ---------------------------------------------------------------- from any store

  /** What a run needs to find under one key.  A run that persists: the cached row, if it takes the file to be
      unchanged; no row that it does not define itself, if the cache does not know the file.  A run that does
      not persist: nothing, for its table is empty and it deletes nothing. */
  ghost predicate ServesAt(w: World, cache: Cache, found: Option<Row>, a: Attempt, k: LogicalKey) {
    if Persisting(w, cache, a) then
      && (TakenAsUnchanged(w, cache, a, k.file) ==> found == CachedRow(cache, k))
      && (k.file !in cache && found.Some? ==> Defines(w, cache, a, k))
    else found == None
  }

  /** Where a key's file stands in an attempt, in terms of the scopes of its delta write. */
  lemma Standing(w: World, cache: Cache, a: Attempt, k: LogicalKey)
    requires CacheOk(w, cache) && UniquePaths(a.files)
    ensures var delta := DeltaNow(w, a.version, cache, a.files);
            var found := RowFound(Folded(ParsedBy(w, cache, a)), k);
            && (TakenAsUnchanged(w, cache, a, k.file) ==>
                  k.file in cache && k.file !in delta.removedAndChanged && k.file !in delta.addedAndChanged
                  && found == CachedRow(cache, k))
            && (k.file in cache && !TakenAsUnchanged(w, cache, a, k.file) ==> k.file in delta.removedAndChanged)
            && (k.file !in cache ==> k.file !in delta.removedAndChanged)
            && (k.file !in cache && k.file !in delta.addedAndChanged ==> found == None)
  {
    var slices := UsedSlices(w, a.version, cache, a.files);
    FoldedIsKeyed(w, a.version, cache, a.files);
    if WalkedPath(a.files, k.file) {
      var i :| 0 <= i < |a.files| && a.files[i].path == k.file;
      DeltaHolds(w, a.version, cache, a.files, i);
      if BucketNow(w, a.version, cache, a.files[i]) == Unchanged {
        RowsAreLocal(slices, a.files, i, k);
      } else {
        NotUnchanged(w, a.version, cache, a.files, i);
      }
    } else {
      DeltaElsewhere(w, a.version, cache, a.files, k.file);
      NoRowsElsewhere(slices, a.files, k);
    }
  }

  lemma FitsAtIff(w: World, cache: Cache, rows: map<LogicalKey, Row>, a: Attempt, k: LogicalKey)
    requires CacheOk(w, cache) && UniquePaths(a.files) && Persisting(w, cache, a)
    ensures var delta := DeltaNow(w, a.version, cache, a.files);
            FitsAt(rows, Folded(ParsedBy(w, cache, a)), delta.removedAndChanged, delta.addedAndChanged, k) <==>
            ServesAt(w, cache, Lookup(rows, k), a, k)
  {
    Standing(w, cache, a, k);
    hide CacheOk, DeltaNow, ParsedBy, Folded, RowFound, CachedRow, TakenAsUnchanged;
  }

  lemma NotUnchanged(w: World, version: nat, cache: Cache, files: seq<FileNode>, i: nat)
    requires UniquePaths(files) && i < |files| && BucketNow(w, version, cache, files[i]) != Unchanged
    ensures !IsUnchanged(w, version, cache, files, files[i].path)
  {
    forall j | 0 <= j < |files| && files[j].path == files[i].path
      ensures BucketNow(w, version, cache, files[j]) != Unchanged
    {
      assert j == i;
    }
  }

  /** From any sound store, a run that completes leaves under a key what a full write does if and only if it
      found under it what it needs. */
  lemma {:induction false} KeyIsRightIff(w: World, cache: Cache, store: Store, a: Attempt, k: LogicalKey)
    requires CacheOk(w, cache) && UniquePaths(a.files) && Sound(store)
    ensures Lookup(Completed(w, cache, store, a).rows, k) == Lookup(FullTable(w, cache, a), k) <==>
            ServesAt(w, cache, Lookup(store.rows, k), a, k)
  {
    if Persisting(w, cache, a) {
      FitsAtIff(w, cache, store.rows, a, k);
      PersistedAt(w, cache, store, a, k);
    } else {
      NotPersisted(w, cache, store, a);
    }
  }

  lemma PersistedAt(w: World, cache: Cache, store: Store, a: Attempt, k: LogicalKey)
    requires CacheOk(w, cache) && UniquePaths(a.files) && Sound(store) && Persisting(w, cache, a)
    ensures var delta := DeltaNow(w, a.version, cache, a.files);
            Lookup(Completed(w, cache, store, a).rows, k) == Lookup(FullTable(w, cache, a), k) <==>
            FitsAt(store.rows, Folded(ParsedBy(w, cache, a)), delta.removedAndChanged, delta.addedAndChanged, k)
  {
    var parsed, delta := ParsedBy(w, cache, a), DeltaNow(w, a.version, cache, a.files);
    FoldedIsKeyed(w, a.version, cache, a.files);
    if k.file in delta.removedAndChanged && k.file !in delta.addedAndChanged {
      RemovedHaveNoRows(w, a.version, cache, a.files, k);
    }
    hide CacheOk, DeltaNow, Folded, IncrementalParse, ApplyAll, Writes, FullWrite, FitsAt;
    DeltaIsExactAt(store, Folded(parsed), delta.removedAndChanged, delta.addedAndChanged,
                   LinksOf(a.resolve, parsed), k);
  }

  /** A run that does not persist leaves the store as it is, and its full table is empty. */
  lemma NotPersisted(w: World, cache: Cache, store: Store, a: Attempt)
    requires UniquePaths(a.files) && !Persisting(w, cache, a)
    ensures Completed(w, cache, store, a) == store && FullTable(w, cache, a) == map[]
  {
    NoSymbolsNoRows(w, a.resolve, a.version, cache, a.files);
  }

  /** From any sound store, a run that completes ends in the full table if and only if it finds under every key
      what it needs.  For a run that persists: the cached rows of every file it takes to be unchanged, and no
      row of a file unknown to the cache that it does not define itself.  For any other: no row at all. */
  lemma {:induction false} RunIsFullIff(w: World, cache: Cache, store: Store, a: Attempt)
    requires CacheOk(w, cache) && UniquePaths(a.files) && Sound(store)
    ensures Completed(w, cache, store, a).rows == FullTable(w, cache, a) <==>
            forall k :: ServesAt(w, cache, Lookup(store.rows, k), a, k)
  {
    var rows, full := Completed(w, cache, store, a).rows, FullTable(w, cache, a);
    hide *;
    forall k: LogicalKey
      ensures Lookup(rows, k) == Lookup(full, k) <==> ServesAt(w, cache, Lookup(store.rows, k), a, k)
    {
      KeyIsRightIff(w, cache, store, a, k);
    }
    if forall k :: ServesAt(w, cache, Lookup(store.rows, k), a, k) {
      forall k: LogicalKey
        ensures Lookup(rows, k) == Lookup(full, k)
      {
        assert ServesAt(w, cache, Lookup(store.rows, k), a, k);
      }
      SameLookups(rows, full);
    }
  }

  // ---------------------------------------------------------------- what stays spoiled

  /** The table does not hold what the cached parse of the key's file says. */
  predicate Spoiled(cache: Cache, rows: map<LogicalKey, Row>, k: LogicalKey) {
    Lookup(rows, k) != CachedRow(cache, k)
  }

  /** When a spoiled key heals.  After a run that persists and saves its cache, a key is spoiled if and only if it
      was before, and its file was taken to be unchanged, or unknown to the cache with no such key in the tree. */
  lemma {:induction false} SpoiledStaysIff(w: World, cache: Cache, store: Store, a: Attempt, k: LogicalKey)
    requires CacheOk(w, cache) && UniquePaths(a.files) && Sound(store) && Persisting(w, cache, a)
    ensures Spoiled(NextCache(w, a.version, cache, a.files), Completed(w, cache, store, a).rows, k) <==>
            && Spoiled(cache, store.rows, k)
            && (TakenAsUnchanged(w, cache, a, k.file) || (k.file !in cache && !Defines(w, cache, a, k)))
  {
    KeyIsRightIff(w, cache, store, a, k);
    FullTableIsNextCache(w, a.resolve, a.version, cache, a.files);
    assert Lookup(FullTable(w, cache, a), k) == CachedRow(NextCache(w, a.version, cache, a.files), k);
    UnchangedIsCached(w, cache, a, k.file);
    hide CacheOk, Completed, FullTable, NextCache, TakenAsUnchanged, Defines, Persisting;
  }

  /** Such a run restores the invariant, as if nothing had ever died, if and only if its table is the full one. */
  lemma {:induction false} InvIsBackIff(w: World, cache: Cache, store: Store, a: Attempt)
    requires CacheOk(w, cache) && UniquePaths(a.files) && Sound(store) && Persisting(w, cache, a)
    ensures Inv(w, State(NextCache(w, a.version, cache, a.files), Completed(w, cache, store, a))) <==>
            Completed(w, cache, store, a).rows == FullTable(w, cache, a)
  {
    var rows, full := Completed(w, cache, store, a).rows, FullTable(w, cache, a);
    var next := NextCache(w, a.version, cache, a.files);
    var writes := WritesOf(w, cache, a);
    FullTableIsNextCache(w, a.resolve, a.version, cache, a.files);
    NextCacheOk(w, a.version, cache, a.files);
    assert writes[..|writes|] == writes;
    DiedIsSound(w, cache, store, a, |writes|);
    assert forall k :: Lookup(full, k) == CachedRow(next, k);
    if forall k :: Lookup(rows, k) == CachedRow(next, k) {
      SameLookups(rows, full);
    }
    hide CacheOk, Sound, Completed, FullTable, NextCache;
  }

  // ---------------------------------------------------------------- after crashes

  /** The rows a crash leaves: those written before it, and the earlier ones the delete did not take. */
  lemma DiedRows(w: World, cache: Cache, store: Store, a: Attempt, n: nat, k: LogicalKey)
    requires CacheOk(w, cache) && Sound(store) && UniquePaths(a.files) && n <= |WritesOf(w, cache, a)|
    ensures var rows, wrote := Died(w, cache, store, a, n).rows, Wrote(w, cache, a, n);
            Lookup(rows, k) ==
            if RowFound(wrote, k).Some? then RowFound(wrote, k)
            else if n > 0 && k.file in PlanFor(w, cache, a).paths then None
            else Lookup(store.rows, k)
  {
    if n == 0 {
      assert WritesOf(w, cache, a)[..0] == [];
    } else {
      var plan := PlanFor(w, cache, a);
      PrefixIsPartial(store, plan, n);
      assert plan.symbols[..|plan.symbols|] == plan.symbols;
      LookupUpsert(Kept(store, plan.paths).rows, Wrote(w, cache, a, n), k);
      hide CacheOk, Sound, Writes, PlanFor, ApplyAll;
    }
  }

  lemma DiedIsSound(w: World, cache: Cache, store: Store, a: Attempt, n: nat)
    requires CacheOk(w, cache) && Sound(store) && UniquePaths(a.files) && n <= |WritesOf(w, cache, a)|
    ensures Sound(Died(w, cache, store, a, n))
  {
    if n == 0 {
      assert WritesOf(w, cache, a)[..0] == [];
    } else {
      PlanIsKeyed(w, a.resolve, a.version, cache, a.files);
      CrashThenRerun(store, PlanFor(w, cache, a), n);
    }
  }

  /** What was written belongs to files that the attempt did not take to be unchanged. */
  lemma WroteScope(w: World, cache: Cache, a: Attempt, n: nat, k: LogicalKey)
    requires CacheOk(w, cache) && UniquePaths(a.files) && RowFound(Wrote(w, cache, a, n), k).Some?
    ensures k.file in cache ==> k.file in PlanFor(w, cache, a).paths
    ensures Defines(w, cache, a, k)
  {
    var plan := PlanFor(w, cache, a);
    var delta := DeltaNow(w, a.version, cache, a.files);
    var symbols := Folded(ParsedBy(w, cache, a));
    FoldedIsKeyed(w, a.version, cache, a.files);
    assert plan.symbols[..|plan.symbols|] == plan.symbols;
    FoundInPrefix(plan.symbols, if n - 1 <= |plan.symbols| then n - 1 else |plan.symbols|, k);
    FoundInScope(symbols, delta.addedAndChanged, k);
    if WalkedPath(a.files, k.file) {
      var i :| 0 <= i < |a.files| && a.files[i].path == k.file;
      DeltaHolds(w, a.version, cache, a.files, i);
    } else {
      DeltaElsewhere(w, a.version, cache, a.files, k.file);
    }
  }

  /** A run that died, and after how many writes. */
  datatype Death = Death(attempt: Attempt, writes: nat)

  ghost predicate ValidDeaths(w: World, cache: Cache, deaths: seq<Death>) {
    forall i :: 0 <= i < |deaths| ==>
      UniquePaths(deaths[i].attempt.files) && deaths[i].writes <= |WritesOf(w, cache, deaths[i].attempt)|
  }

  /** The store after these runs died one after the other, with the cache as it was. */
  function AfterDeaths(w: World, cache: Cache, store: Store, deaths: seq<Death>): Store
    requires ValidDeaths(w, cache, deaths)
  {
    if deaths == [] then store
    else
      var d := deaths[|deaths| - 1];
      Died(w, cache, AfterDeaths(w, cache, store, deaths[..|deaths| - 1]), d.attempt, d.writes)
  }

  /** What is left under a key, told from the trees alone: what the last of the runs to reach it wrote or deleted,
      and the cached row if none did. */
  function RowLeft(w: World, cache: Cache, deaths: seq<Death>, k: LogicalKey): Option<Row> {
    if deaths == [] then CachedRow(cache, k)
    else
      var d := deaths[|deaths| - 1];
      var row := RowFound(Wrote(w, cache, d.attempt, d.writes), k);
      if row.Some? then row
      else if d.writes > 0 && k.file in PlanFor(w, cache, d.attempt).paths then None
      else RowLeft(w, cache, deaths[..|deaths| - 1], k)
  }

  /** What is left under the key is what the next run needs there. */
  ghost predicate ServesAfter(w: World, cache: Cache, deaths: seq<Death>, next: Attempt, k: LogicalKey) {
    ServesAt(w, cache, RowLeft(w, cache, deaths, k), next, k)
  }

  lemma {:induction false} DeathsLeave(w: World, s: State, deaths: seq<Death>)
    requires Inv(w, s) && ValidDeaths(w, s.cache, deaths)
    ensures Sound(AfterDeaths(w, s.cache, s.store, deaths))
    ensures forall k :: Lookup(AfterDeaths(w, s.cache, s.store, deaths).rows, k) == RowLeft(w, s.cache, deaths, k)
  {
    if deaths != [] {
      var init, d := deaths[..|deaths| - 1], deaths[|deaths| - 1];
      DeathsLeave(w, s, init);
      var before := AfterDeaths(w, s.cache, s.store, init);
      InvGivesCacheOk(w, s);
      DiedIsSound(w, s.cache, before, d.attempt, d.writes);
      hide Inv, Sound, Died, Wrote, PlanFor, WritesOf, CacheOk;
      forall k: LogicalKey
        ensures Lookup(AfterDeaths(w, s.cache, s.store, deaths).rows, k) == RowLeft(w, s.cache, deaths, k)
      {
        DiedRows(w, s.cache, before, d.attempt, d.writes, k);
      }
    }
  }

  /** Any number of runs over any trees that died anywhere, then a run over any tree that completes: the table is
      the full one if and only if under every key is left what that run needs. */
  lemma {:induction false} CrashesThenOtherTreeIff(w: World, s: State, deaths: seq<Death>, next: Attempt)
    requires Inv(w, s) && ValidDeaths(w, s.cache, deaths) && UniquePaths(next.files)
    ensures Completed(w, s.cache, AfterDeaths(w, s.cache, s.store, deaths), next).rows == FullTable(w, s.cache, next)
            <==> forall k :: ServesAfter(w, s.cache, deaths, next, k)
  {
    hide *;
    InvGivesCacheOk(w, s);
    DeathsLeave(w, s, deaths);
    var store := AfterDeaths(w, s.cache, s.store, deaths);
    RunIsFullIff(w, s.cache, store, next);
    ServesTheSame(w, s.cache, store.rows, deaths, next);
  }

  lemma ServesTheSame(w: World, cache: Cache, rows: map<LogicalKey, Row>, deaths: seq<Death>, next: Attempt)
    requires forall k :: Lookup(rows, k) == RowLeft(w, cache, deaths, k)
    ensures (forall k :: ServesAt(w, cache, Lookup(rows, k), next, k)) <==>
            (forall k :: ServesAfter(w, cache, deaths, next, k))
  {
    hide ServesAt, Lookup;
    forall k: LogicalKey
      ensures ServesAfter(w, cache, deaths, next, k) <==> ServesAt(w, cache, Lookup(rows, k), next, k)
    {
      assert Lookup(rows, k) == RowLeft(w, cache, deaths, k);
    }
    hide ServesAfter;
  }

  /** One crash, under one key.  Before a run that persists: a file that the crash deleted the rows of and that run
      takes to be unchanged has the cached row written back; a row written for a file new to the cache is still
      defined.  Before a run that does not persist: no row is left. */
  ghost predicate HarmlessAt(w: World, cache: Cache, died: Attempt, n: nat, next: Attempt, k: LogicalKey) {
    var row, deleted := RowFound(Wrote(w, cache, died, n), k), k.file in PlanFor(w, cache, died).paths;
    if Persisting(w, cache, next) then
      && (deleted && TakenAsUnchanged(w, cache, next, k.file) ==> row == CachedRow(cache, k))
      && (k.file !in cache && row.Some? ==> Defines(w, cache, next, k))
    else row == None && (!deleted ==> CachedRow(cache, k) == None)
  }

  lemma ServesIffHarmless(w: World, s: State, died: Attempt, n: nat, next: Attempt, k: LogicalKey)
    requires Inv(w, s) && UniquePaths(died.files) && 1 <= n <= |WritesOf(w, s.cache, died)|
    ensures ServesAfter(w, s.cache, [Death(died, n)], next, k) <==> HarmlessAt(w, s.cache, died, n, next, k)
  {
    if RowFound(Wrote(w, s.cache, died, n), k).Some? {
      WroteScope(w, s.cache, died, n, k);
    }
    assert [Death(died, n)][..0] == [];
    assert RowLeft(w, s.cache, [], k) == CachedRow(s.cache, k);
    UnchangedIsCached(w, s.cache, next, k.file);
    hide Wrote, PlanFor, TakenAsUnchanged, Defines, Inv, RowFound, CachedRow, Persisting;
  }

  lemma UnchangedIsCached(w: World, cache: Cache, a: Attempt, p: Path)
    ensures TakenAsUnchanged(w, cache, a, p) ==> p in cache
  {
  }

  lemma OneDeath(w: World, cache: Cache, store: Store, died: Attempt, n: nat)
    requires UniquePaths(died.files) && n <= |WritesOf(w, cache, died)|
    ensures ValidDeaths(w, cache, [Death(died, n)])
    ensures AfterDeaths(w, cache, store, [Death(died, n)]) == Died(w, cache, store, died, n)
  {
    assert [Death(died, n)][..0] == [];
    hide Died, WritesOf;
    assert AfterDeaths(w, cache, store, []) == store;
  }

  /** A run that died after n writes, then a run over any tree that completes: the table is the full one if and
      only if no key is harmed.  (With no write done there is nothing to harm.) */
  lemma {:induction false} CrashThenOtherTreeIff(w: World, s: State, died: Attempt, n: nat, next: Attempt)
    requires Inv(w, s) && UniquePaths(died.files) && UniquePaths(next.files)
    requires 1 <= n <= |WritesOf(w, s.cache, died)|
    ensures Completed(w, s.cache, Died(w, s.cache, s.store, died, n), next).rows == FullTable(w, s.cache, next) <==>
            forall k :: HarmlessAt(w, s.cache, died, n, next, k)
  {
    var deaths := [Death(died, n)];
    hide *;
    OneDeath(w, s.cache, s.store, died, n);
    CrashesThenOtherTreeIff(w, s, deaths, next);
    HarmlessForAll(w, s, died, n, next);
  }

  lemma HarmlessForAll(w: World, s: State, died: Attempt, n: nat, next: Attempt)
    requires Inv(w, s) && UniquePaths(died.files) && 1 <= n <= |WritesOf(w, s.cache, died)|
    ensures (forall k :: ServesAfter(w, s.cache, [Death(died, n)], next, k)) <==>
            (forall k :: HarmlessAt(w, s.cache, died, n, next, k))
  {
    forall k: LogicalKey
      ensures ServesAfter(w, s.cache, [Death(died, n)], next, k) <==> HarmlessAt(w, s.cache, died, n, next, k)
    {
      ServesIffHarmless(w, s, died, n, next, k);
    }
    hide *;
  }

  lemma InvGivesCacheOk(w: World, s: State)
    requires Inv(w, s)
    ensures CacheOk(w, s.cache)
  {
  }

  /** The same tree again is always harmless. */
  lemma {:induction false} SameTreeIsHarmless(w: World, s: State, a: Attempt, n: nat, k: LogicalKey)
    requires Inv(w, s) && UniquePaths(a.files) && 1 <= n <= |WritesOf(w, s.cache, a)|
    ensures HarmlessAt(w, s.cache, a, n, a, k)
  {
    if RowFound(Wrote(w, s.cache, a, n), k).Some? {
      WroteScope(w, s.cache, a, n, k);
    }
    if k.file in s.cache {
      CachedStaysIffUnchanged(w, a.version, s.cache, a.files, k.file);
    }
    UnchangedIsCached(w, s.cache, a, k.file);
  }

  /** Died right after the delete: the next table is full if and only if the next run takes no file to be unchanged
      that lost its rows or, if it does not persist, every row was lost. */
  lemma {:induction false} DiedAfterDeleteIff(w: World, s: State, died: Attempt, next: Attempt)
    requires Inv(w, s) && UniquePaths(died.files) && UniquePaths(next.files) && Persisting(w, s.cache, died)
    ensures |WritesOf(w, s.cache, died)| >= 1
    ensures Completed(w, s.cache, Died(w, s.cache, s.store, died, 1), next).rows == FullTable(w, s.cache, next) <==>
            forall k: LogicalKey ::
              (if Persisting(w, s.cache, next)
               then k.file in PlanFor(w, s.cache, died).paths && TakenAsUnchanged(w, s.cache, next, k.file)
               else k.file !in PlanFor(w, s.cache, died).paths) ==>
                CachedRow(s.cache, k) == None
  {
    assert Wrote(w, s.cache, died, 1) == [];
    assert |Writes(PlanFor(w, s.cache, died))| >= 1;
    assert forall k: LogicalKey :: RowFound([], k) == None;
    forall k: LogicalKey
      ensures HarmlessAt(w, s.cache, died, 1, next, k) <==>
              ((if Persisting(w, s.cache, next)
                then k.file in PlanFor(w, s.cache, died).paths && TakenAsUnchanged(w, s.cache, next, k.file)
                else k.file !in PlanFor(w, s.cache, died).paths) ==>
                 CachedRow(s.cache, k) == None)
    {
    }
    hide *;
    CrashThenOtherTreeIff(w, s, died, 1, next);
  }

  // ---------------------------------------------------------------- the four ways to go wrong

  /** Taken away before the crash and there again as it was. */
  ghost predicate Restored(w: World, cache: Cache, died: Attempt, next: Attempt, k: LogicalKey) {
    && !WalkedPath(died.files, k.file) && TakenAsUnchanged(w, cache, next, k.file) && CachedRow(cache, k).Some?
  }

  /** Edited before the crash and then edited back, with another row, or none, written for it in between. */
  ghost predicate Reverted(w: World, cache: Cache, died: Attempt, n: nat, next: Attempt, k: LogicalKey) {
    && WalkedPath(died.files, k.file) && !TakenAsUnchanged(w, cache, died, k.file)
    && TakenAsUnchanged(w, cache, next, k.file) && RowFound(Wrote(w, cache, died, n), k) != CachedRow(cache, k)
  }

  /** New at the crash, with its row written, and taken away since. */
  ghost predicate TakenAway(w: World, cache: Cache, died: Attempt, n: nat, next: Attempt, k: LogicalKey) {
    k.file !in cache && RowFound(Wrote(w, cache, died, n), k).Some? && !WalkedPath(next.files, k.file)
  }

  /** New at the crash, with its row written, and edited since so that it no longer defines the key. */
  ghost predicate EditedSince(w: World, cache: Cache, died: Attempt, n: nat, next: Attempt, k: LogicalKey) {
    && k.file !in cache && RowFound(Wrote(w, cache, died, n), k).Some? && WalkedPath(next.files, k.file)
    && !Defines(w, cache, next, k)
  }

  /** Before a run that persists there are exactly four ways for a crash to do harm. */
  lemma {:induction false} FourWaysToHarm(w: World, s: State, died: Attempt, n: nat, next: Attempt, k: LogicalKey)
    requires Inv(w, s) && UniquePaths(died.files) && UniquePaths(next.files) && Persisting(w, s.cache, next)
    requires 1 <= n <= |WritesOf(w, s.cache, died)|
    ensures !HarmlessAt(w, s.cache, died, n, next, k) <==>
            || Restored(w, s.cache, died, next, k) || Reverted(w, s.cache, died, n, next, k)
            || TakenAway(w, s.cache, died, n, next, k) || EditedSince(w, s.cache, died, n, next, k)
  {
    InvGivesCacheOk(w, s);
    UnchangedIsCached(w, s.cache, next, k.file);
    if RowFound(Wrote(w, s.cache, died, n), k).Some? && !WalkedPath(died.files, k.file) {
      WroteScope(w, s.cache, died, n, k);
      NotWalkedNotDefined(w, s.cache, died, k);
    }
    if k.file !in s.cache && !WalkedPath(next.files, k.file) {
      NotWalkedNotDefined(w, s.cache, next, k);
    }
    if k.file in s.cache {
      CachedStaysIffUnchanged(w, died.version, s.cache, died.files, k.file);
      UnchangedIsWalked(w, s.cache, died, k.file);
    }
    assert PlanFor(w, s.cache, died).paths == DeltaNow(w, died.version, s.cache, died.files).removedAndChanged;
    hide Inv, CacheOk, PlanFor, DeltaNow, Wrote, WritesOf, Persisting, Defines, TakenAsUnchanged, WalkedPath, RowFound,
         CachedRow, UniquePaths;
  }

  lemma UnchangedIsWalked(w: World, cache: Cache, a: Attempt, p: Path)
    ensures TakenAsUnchanged(w, cache, a, p) ==> WalkedPath(a.files, p)
  {
  }

  /** Why a harmed key means another table: what is under it after the next run. */
  lemma HarmedRow(w: World, s: State, died: Attempt, n: nat, next: Attempt, k: LogicalKey)
    requires Inv(w, s) && UniquePaths(died.files) && UniquePaths(next.files)
    requires 1 <= n <= |WritesOf(w, s.cache, died)|
    requires || (TakenAsUnchanged(w, s.cache, next, k.file) && Persisting(w, s.cache, next))
             || (k.file !in s.cache && !Defines(w, s.cache, next, k))
    ensures Lookup(Completed(w, s.cache, Died(w, s.cache, s.store, died, n), next).rows, k) ==
            Lookup(Died(w, s.cache, s.store, died, n).rows, k)
    ensures Lookup(FullTable(w, s.cache, next), k) == CachedRow(s.cache, k)
  {
    var crashed := Died(w, s.cache, s.store, died, n);
    InvGivesCacheOk(w, s);
    assert Sound(s.store);
    hide Inv;
    DiedIsSound(w, s.cache, s.store, died, n);
    if Persisting(w, s.cache, next) {
      RowIsFound(w, s.cache, crashed, next, k);
    } else {
      NotPersisted(w, s.cache, crashed, next);
    }
  }

  /** A run that persists neither deletes nor writes under a key whose file it takes to be unchanged, or that only
      an earlier run put there. */
  lemma RowIsFound(w: World, cache: Cache, store: Store, a: Attempt, k: LogicalKey)
    requires CacheOk(w, cache) && Sound(store) && UniquePaths(a.files) && Persisting(w, cache, a)
    requires TakenAsUnchanged(w, cache, a, k.file) || (k.file !in cache && !Defines(w, cache, a, k))
    ensures Lookup(Completed(w, cache, store, a).rows, k) == Lookup(store.rows, k)
    ensures Lookup(FullTable(w, cache, a), k) == CachedRow(cache, k)
  {
    var parsed := ParsedBy(w, cache, a);
    var delta := DeltaNow(w, a.version, cache, a.files);
    FoldedIsKeyed(w, a.version, cache, a.files);
    AllWritten(store, PlanFor(w, cache, a));
    Standing(w, cache, a, k);
    hide CacheOk, TakenAsUnchanged, DeltaNow, Writes, ApplyAll, Written, FullWrite, IncrementalParse, UsedSlices;
    DeltaAt(store, Folded(parsed), delta.removedAndChanged, delta.addedAndChanged, LinksOf(a.resolve, parsed), k);
    FullWriteIs(Folded(parsed), LinksOf(a.resolve, parsed));
    LookupUpsert(map[], Folded(parsed), k);
  }

  /** A tree with a file taken to be unchanged that has a row is one that persists. */
  lemma UnchangedRowPersists(w: World, cache: Cache, a: Attempt, k: LogicalKey)
    requires CacheOk(w, cache) && UniquePaths(a.files)
    requires TakenAsUnchanged(w, cache, a, k.file) && CachedRow(cache, k).Some?
    ensures Persisting(w, cache, a)
  {
    Standing(w, cache, a, k);
    assert RowFound(Folded(ParsedBy(w, cache, a)), k).Some?;
    hide CacheOk, CachedRow, DeltaNow, IncrementalParse;
  }

  /** A changed file that was edited back counts as unchanged: whatever the died run wrote of it is what stays. */
  lemma {:induction false} RevertAfterCrashKeepsTheEdit(w: World, s: State, died: Attempt, n: nat, i: nat,
                                                        next: Attempt, k: LogicalKey)
    requires Inv(w, s) && UniquePaths(died.files) && UniquePaths(next.files)
    requires 1 <= n <= |WritesOf(w, s.cache, died)| && Persisting(w, s.cache, next)
    requires i < |died.files| && died.files[i].path == k.file
    requires BucketNow(w, died.version, s.cache, died.files[i]) == Changed && TakenAsUnchanged(w, s.cache, next, k.file)
    ensures Lookup(Completed(w, s.cache, Died(w, s.cache, s.store, died, n), next).rows, k) ==
            RowFound(Wrote(w, s.cache, died, n), k)
    ensures Lookup(FullTable(w, s.cache, next), k) == CachedRow(s.cache, k)
  {
    InvGivesCacheOk(w, s);
    DeltaHolds(w, died.version, s.cache, died.files, i);
    HarmedRow(w, s, died, n, next, k);
    DiedRows(w, s.cache, s.store, died, n, k);
  }

  /** A changed file whose row was deleted but not yet written again, and an edit back: the file counts as
      unchanged, and its row is gone. */
  lemma {:induction false} RevertAfterCrashLosesRows(w: World, s: State, died: Attempt, n: nat, i: nat,
                                                     next: Attempt, k: LogicalKey)
    requires Inv(w, s) && UniquePaths(died.files) && UniquePaths(next.files)
    requires 1 <= n <= |WritesOf(w, s.cache, died)|
    requires i < |died.files| && died.files[i].path == k.file
    requires BucketNow(w, died.version, s.cache, died.files[i]) == Changed && TakenAsUnchanged(w, s.cache, next, k.file)
    requires CachedRow(s.cache, k).Some? && RowFound(Wrote(w, s.cache, died, n), k).None?
    ensures k !in Completed(w, s.cache, Died(w, s.cache, s.store, died, n), next).rows
    ensures k in FullTable(w, s.cache, next)
  {
    InvGivesCacheOk(w, s);
    UnchangedRowPersists(w, s.cache, next, k);
    RevertAfterCrashKeepsTheEdit(w, s, died, n, i, next, k);
  }

  /** The same with a file that was away when the run died and is there again: however far the run had got, if
      it got to writing at all. */
  lemma {:induction false} RestoreAfterCrashLosesRows(w: World, s: State, died: Attempt, n: nat, next: Attempt,
                                                      k: LogicalKey)
    requires Inv(w, s) && UniquePaths(died.files) && UniquePaths(next.files)
    requires 1 <= n <= |WritesOf(w, s.cache, died)|
    requires !WalkedPath(died.files, k.file) && TakenAsUnchanged(w, s.cache, next, k.file)
    requires CachedRow(s.cache, k).Some?
    ensures k !in Completed(w, s.cache, Died(w, s.cache, s.store, died, n), next).rows
    ensures k in FullTable(w, s.cache, next)
  {
    InvGivesCacheOk(w, s);
    DeltaElsewhere(w, died.version, s.cache, died.files, k.file);
    if RowFound(Wrote(w, s.cache, died, n), k).Some? {
      WroteScope(w, s.cache, died, n, k);
      NotWalkedNotDefined(w, s.cache, died, k);
    }
    UnchangedRowPersists(w, s.cache, next, k);
    HarmedRow(w, s, died, n, next, k);
    DiedRows(w, s.cache, s.store, died, n, k);
  }

  lemma NotWalkedNotDefined(w: World, cache: Cache, a: Attempt, k: LogicalKey)
    requires CacheOk(w, cache) && UniquePaths(a.files) && !WalkedPath(a.files, k.file)
    ensures !Defines(w, cache, a, k)
  {
    FoldedIsKeyed(w, a.version, cache, a.files);
    NoRowsElsewhere(UsedSlices(w, a.version, cache, a.files), a.files, k);
  }

  /** A row written for a file new to the cache, and a next tree without that file: the row stays. */
  lemma {:induction false} RemovalAfterCrashLeavesRows(w: World, s: State, died: Attempt, n: nat, next: Attempt,
                                                       k: LogicalKey)
    requires Inv(w, s) && UniquePaths(died.files) && UniquePaths(next.files)
    requires 1 <= n <= |WritesOf(w, s.cache, died)|
    requires k.file !in s.cache && RowFound(Wrote(w, s.cache, died, n), k).Some? && !WalkedPath(next.files, k.file)
    ensures k in Completed(w, s.cache, Died(w, s.cache, s.store, died, n), next).rows
    ensures k !in FullTable(w, s.cache, next)
  {
    InvGivesCacheOk(w, s);
    NotWalkedNotDefined(w, s.cache, next, k);
    HarmedRow(w, s, died, n, next, k);
    DiedRows(w, s.cache, s.store, died, n, k);
  }

  /** The same with the file edited so that it no longer defines the key: the file counts as added, and added
      files are not in the delete scope. */
  lemma {:induction false} EditAfterCrashLeavesRows(w: World, s: State, died: Attempt, n: nat, next: Attempt,
                                                    k: LogicalKey)
    requires Inv(w, s) && UniquePaths(died.files) && UniquePaths(next.files)
    requires 1 <= n <= |WritesOf(w, s.cache, died)|
    requires k.file !in s.cache && RowFound(Wrote(w, s.cache, died, n), k).Some?
    requires WalkedPath(next.files, k.file) && !Defines(w, s.cache, next, k)
    ensures k in Completed(w, s.cache, Died(w, s.cache, s.store, died, n), next).rows
    ensures k !in FullTable(w, s.cache, next)
  {
    HarmedRow(w, s, died, n, next, k);
    DiedRows(w, s.cache, s.store, died, n, k);
  }
}
