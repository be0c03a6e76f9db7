/**
 Concrete histories of an index, from the empty store: an edge that stays though nothing resolves to it any
 more, crashes after which an edit spoils the table, and a tree whose files are all gone.
 */
module Histories {
  import opened Prelude
  import opened Symbols
  import opened Incremental
  import opened AccessedKeys
  import opened DeltaStore
  import opened IncrementalIndex
  import opened CrashRecovery

  type Path = Incremental.Path

  function TextAt(mtime: nat): Content {
    if mtime == 0 then "main" else if mtime == 1 then "h" else "x"
  }

  function Definition(text: Content): RawSymbol {
    RawSymbol(text, "function", 0, 0, "")
  }

  /** A file is one function, named by its text, that calls `h`; its mtime tells which text it holds. */
  function OneFunctionFiles(): World {
    World((p: Path, m: nat) => Some(TextAt(m)), c => c,
          (v, p, c) => Some(Extract([Definition(c)], [RawHint(Call, "h", Some(Definition(c)), "")])))
  }

  function FunctionOf(f: FileNode): Symbol {
    var text := TextAt(f.mtime);
    Symbol(IdOf(f.path, Definition(text)), LogicalKey(f.path, text, "function", 0), text, "function", f.path, "", [])
  }

  function CallIn(f: FileNode): Hint {
    Hint(Call, f.path, "h", Some(FunctionOf(f).id), "")
  }

  function FunctionsOf(files: seq<FileNode>): (r: seq<Symbol>)
    ensures |r| == |files|
  {
    seq(|files|, i requires 0 <= i < |files| => FunctionOf(files[i]))
  }

  function CallsIn(files: seq<FileNode>): (r: seq<Hint>)
    ensures |r| == |files|
  {
    seq(|files|, i requires 0 <= i < |files| => CallIn(files[i]))
  }

  /** The first symbol of a name that is not the caller, as the program's fallback has it. */
  function FirstNamed(symbols: seq<Symbol>, name: string, caller: SymbolId): Option<SymbolId> {
    if symbols == [] then None
    else if symbols[0].name == name && symbols[0].id != caller then Some(symbols[0].id)
    else FirstNamed(symbols[1..], name, caller)
  }

  function ResolveCall(symbols: seq<Symbol>, hint: Hint): Relationship {
    if hint.enclosing.None? then Relationship(Synthetic(hint.sourceFile), Synthetic(hint.targetName), "CALLS")
    else
      var target := FirstNamed(symbols, hint.targetName, hint.enclosing.value);
      Relationship(SymbolRef(hint.enclosing.value),
                   if target.Some? then SymbolRef(target.value) else Synthetic(hint.targetName), "CALLS")
  }

  function ResolveCalls(): Resolver {
    (symbols: seq<Symbol>, hints: seq<Hint>) =>
      seq(|hints|, i requires 0 <= i < |hints| => ResolveCall(symbols, hints[i]))
  }

  // ---------------------------------------------------------------- what such trees parse to

  lemma ParsedAs(version: nat, f: FileNode)
    ensures ParseNow(OneFunctionFiles(), version, f) == Some(Slice([FunctionOf(f)], [CallIn(f)]))
  {
    var text := TextAt(f.mtime);
    var raw := [Definition(text)];
    var stamped := Stamp(f.path, raw);
    assert stamped == [FunctionOf(f).(key := LogicalKey("", "", "", 0))];
    assert stamped[..0] == [];
    assert DedupeById(stamped) == stamped;
    assert AssignKeys(stamped) == [FunctionOf(f)];
    assert StampHints(f.path, [RawHint(Call, "h", Some(Definition(text)), "")]) == [CallIn(f)];
  }

  lemma {:induction false} SlicesFlat(slices: seq<Slice>, files: seq<FileNode>)
    requires |slices| == |files|
    requires forall i :: 0 <= i < |files| ==> slices[i] == Slice([FunctionOf(files[i])], [CallIn(files[i])])
    ensures AllSymbols(slices) == FunctionsOf(files) && AllHints(slices) == CallsIn(files)
  {
    if files != [] {
      var n := |files| - 1;
      SlicesFlat(slices[..n], files[..n]);
      assert FunctionsOf(files) == FunctionsOf(files[..n]) + [FunctionOf(files[n])];
      assert CallsIn(files) == CallsIn(files[..n]) + [CallIn(files[n])];
    }
  }

  lemma HashIsInjective()
    ensures InjectiveHash(OneFunctionFiles())
  {
  }

  lemma UsedAs(version: nat, prior: Cache, f: FileNode)
    requires CacheOk(OneFunctionFiles(), prior)
    ensures SliceOf(Used(OneFunctionFiles(), version, prior, f)) == Slice([FunctionOf(f)], [CallIn(f)])
  {
    HashIsInjective();
    ParsedAs(version, f);
    UsedVersusParsed(OneFunctionFiles(), version, prior, f);
  }

  lemma TreeParsesAs(version: nat, prior: Cache, files: seq<FileNode>)
    requires CacheOk(OneFunctionFiles(), prior) && UniquePaths(files)
    ensures IncrementalParse(OneFunctionFiles(), version, prior, files) == Parsed(FunctionsOf(files), CallsIn(files))
  {
    var w := OneFunctionFiles();
    var slices := UsedSlices(w, version, prior, files);
    forall i | 0 <= i < |files|
      ensures slices[i] == Slice([FunctionOf(files[i])], [CallIn(files[i])])
    {
      UsedAs(version, prior, files[i]);
    }
    SlicesFlat(slices, files);
    MergeIsPlain(w, version, prior, files);
  }

  lemma {:induction false} CallsReadNothing(files: seq<FileNode>, id: SymbolId)
    ensures KeysRead(CallsIn(files), id) == []
  {
    if files != [] {
      var n := |files| - 1;
      CallsReadNothing(files[..n], id);
      assert CallsIn(files)[..n] == CallsIn(files[..n]);
    }
  }

  lemma FoldsAs(files: seq<FileNode>)
    ensures Folded(Parsed(FunctionsOf(files), CallsIn(files))) == FunctionsOf(files)
  {
    forall i | 0 <= i < |files|
      ensures AttachOne(FunctionsOf(files)[i], CallsIn(files)) == FunctionsOf(files)[i]
    {
      CallsReadNothing(files, FunctionsOf(files)[i].id);
    }
  }

  /** A run over such a tree from any state between runs leaves an entry for each file. */
  lemma CachedAfter(version: nat, prior: Cache, files: seq<FileNode>, i: nat)
    requires CacheOk(OneFunctionFiles(), prior) && UniquePaths(files) && i < |files|
    requires files[i].path !in prior
    ensures var next := NextCache(OneFunctionFiles(), version, prior, files);
            files[i].path in next && next[files[i].path] ==
              Entry(TextAt(files[i].mtime), files[i].mtime, version, Slice([FunctionOf(files[i])], [CallIn(files[i])]))
  {
    NextCacheHolds(OneFunctionFiles(), version, prior, files);
    ParsedAs(version, files[i]);
    hide NextCache, ParseNow;
    assert CachedAs(NextCache(OneFunctionFiles(), version, prior, files), files[i].path,
                    Used(OneFunctionFiles(), version, prior, files[i]));
  }

  // ---------------------------------------------------------------- a stale edge

  const CALLER := FileNode("a.ts", 0)
  const OTHER := FileNode("b.ts", 2)
  const EDITED := FileNode("b.ts", 1)
  const CALLEE := FileNode("c.ts", 1)

  const FIRST_TREE := [CALLER, OTHER, CALLEE]
  const SECOND_TREE := [CALLER, EDITED, CALLEE]

  /** `main` of a.ts calls `h` of c.ts. */
  const STALE := Edge("CALLS", FunctionOf(CALLER).key, FunctionOf(CALLEE).key)

  lemma FirstResolution()
    ensures var symbols := FunctionsOf(FIRST_TREE);
            Relates(symbols, ResolveCalls()(symbols, CallsIn(FIRST_TREE)), STALE)
  {
    var symbols := FunctionsOf(FIRST_TREE);
    var rels := ResolveCalls()(symbols, CallsIn(FIRST_TREE));
    assert symbols == [FunctionOf(CALLER), FunctionOf(OTHER), FunctionOf(CALLEE)];
    FirstOfThree(FunctionOf(CALLER), FunctionOf(OTHER), FunctionOf(CALLEE), "h", FunctionOf(CALLER).id);
    assert RelatesAt(symbols, rels, STALE, 0, 0, 2);
  }

  lemma FirstOfThree(a: Symbol, b: Symbol, c: Symbol, name: string, caller: SymbolId)
    ensures FirstNamed([a, b, c], name, caller) ==
            if a.name == name && a.id != caller then Some(a.id)
            else if b.name == name && b.id != caller then Some(b.id)
            else if c.name == name && c.id != caller then Some(c.id)
            else None
  {
    assert [a, b, c][1..] == [b, c] && [b, c][1..] == [c] && [c][1..] == [];
    assert FirstNamed([c], name, caller) == if c.name == name && c.id != caller then Some(c.id) else None;
    assert FirstNamed([b, c], name, caller) ==
           if b.name == name && b.id != caller then Some(b.id) else FirstNamed([c], name, caller);
  }

  /** After the edit, the call of a.ts goes to b.ts, and no other relationship starts there. */
  lemma SecondResolution()
    ensures var symbols := FunctionsOf(SECOND_TREE);
            !Relates(symbols, ResolveCalls()(symbols, CallsIn(SECOND_TREE)), STALE)
  {
    var symbols := FunctionsOf(SECOND_TREE);
    var rels := ResolveCalls()(symbols, CallsIn(SECOND_TREE));
    var main, hb, hc := FunctionOf(CALLER), FunctionOf(EDITED), FunctionOf(CALLEE);
    assert symbols == [main, hb, hc];
    FirstOfThree(main, hb, hc, "h", main.id);
    assert rels[0] == Relationship(SymbolRef(main.id), SymbolRef(hb.id), "CALLS");
    assert rels[1].source == SymbolRef(hb.id) && rels[2].source == SymbolRef(hc.id);
    forall i, a, b | 0 <= i < |rels| && 0 <= a < |symbols| && 0 <= b < |symbols|
      ensures !RelatesAt(symbols, rels, STALE, i, a, b)
    {
    }
  }

  const FIRST_RUN := Episode(1, FIRST_TREE, ResolveCalls(), [])
  const SECOND_RUN := Episode(1, SECOND_TREE, ResolveCalls(), [])

  const BEGINNING := State(map[], EMPTY)

  lemma StartIsSound()
    ensures Inv(OneFunctionFiles(), BEGINNING)
  {
  }

  lemma OneFromAll(w: World, e: Episode)
    ensures AfterAll(w, [e]) == AfterEpisode(w, BEGINNING, e)
  {
    assert [e][..0] == [];
  }

  lemma TreesAreUnique()
    ensures UniquePaths(FIRST_TREE) && UniquePaths(SECOND_TREE)
  {
    assert "a.ts"[0] != "b.ts"[0] && "b.ts"[0] != "c.ts"[0] && "a.ts"[0] != "c.ts"[0];
  }

  lemma RunsPersist(s: State, e: Episode)
    requires Inv(OneFunctionFiles(), s) && UniquePaths(e.files) && |e.files| > 0
    ensures PersistsNow(OneFunctionFiles(), s, e)
    ensures IncrementalParse(OneFunctionFiles(), e.version, s.cache, e.files) ==
            Parsed(FunctionsOf(e.files), CallsIn(e.files))
  {
    TreeParsesAs(e.version, s.cache, e.files);
  }

  /** The edges of a full index of such a tree, whatever was cached before. */
  lemma FullEdgesOf(s: State, e: Episode, x: Edge)
    requires Inv(OneFunctionFiles(), s) && UniquePaths(e.files) && e.resolve == ResolveCalls() && x.edgeType == "CALLS"
    ensures var symbols := FunctionsOf(e.files);
            x in FullIndex(e.resolve, IncrementalParse(OneFunctionFiles(), e.version, s.cache, e.files)).edges <==>
            Relates(symbols, ResolveCalls()(symbols, CallsIn(e.files)), x)
  {
    TreeParsesAs(e.version, s.cache, e.files);
    FoldsAs(e.files);
    assert BetweenSymbols(x.edgeType);
    hide Relates, FullIndex, Folded, IncrementalParse, Inv, ResolveCalls;
    InvGivesCacheOk(OneFunctionFiles(), s);
    FullEdgesAre(OneFunctionFiles(), e.resolve, e.version, s.cache, e.files, x);
  }

  lemma AfterFirstRun()
    ensures var s := AfterAll(OneFunctionFiles(), [FIRST_RUN]);
            && Inv(OneFunctionFiles(), s) && STALE in s.store.edges
            && s.cache == NextCache(OneFunctionFiles(), 1, map[], FIRST_TREE)
  {
    var w := OneFunctionFiles();
    StartIsSound();
    TreesAreUnique();
    OneFromAll(w, FIRST_RUN);
    RunsPersist(BEGINNING, FIRST_RUN);
    EpisodeKeepsInv(w, BEGINNING, FIRST_RUN);
    EpisodeIsOneWrite(w, BEGINNING, FIRST_RUN);
    FirstResolution();
    FullEdgesOf(BEGINNING, FIRST_RUN, STALE);
    EpisodeEdges(w, BEGINNING, FIRST_RUN);
    hide *;
  }

  /** a.ts and c.ts were walked before and are as they were. */
  lemma EndsAreUnchanged()
    ensures BetweenUnchanged(OneFunctionFiles(), 1, NextCache(OneFunctionFiles(), 1, map[], FIRST_TREE),
                             SECOND_TREE, STALE)
  {
    var w := OneFunctionFiles();
    var cache := NextCache(w, 1, map[], FIRST_TREE);
    TreesAreUnique();
    CachedAfter(1, map[], FIRST_TREE, 0);
    CachedAfter(1, map[], FIRST_TREE, 2);
    hide NextCache, ParseNow;
    assert BucketNow(w, 1, cache, SECOND_TREE[0]) == Unchanged;
    assert BucketNow(w, 1, cache, SECOND_TREE[2]) == Unchanged;
    assert SECOND_TREE[0].path == STALE.from.file && SECOND_TREE[2].path == STALE.to.file;
    hide BucketNow;
  }

  /** Two runs from the empty store, an edit of a third file in between: the first run's edge between two unchanged
      files is still there, and a full rebuild does not have it. */
  lemma AStaleEdgeIsReached()
    ensures var w := OneFunctionFiles();
            var before := AfterAll(w, [FIRST_RUN]);
            && STALE in AfterAll(w, [FIRST_RUN, SECOND_RUN]).store.edges
            && STALE !in FullIndex(SECOND_RUN.resolve, IncrementalParse(w, 1, before.cache, SECOND_TREE)).edges
            && FullParse(w, 1, SECOND_TREE) == IncrementalParse(w, 1, before.cache, SECOND_TREE)
  {
    var w := OneFunctionFiles();
    var before := AfterAll(w, [FIRST_RUN]);
    AfterFirstRun();
    TreesAreUnique();
    RunsPersist(before, SECOND_RUN);
    EpisodeEdges(w, before, SECOND_RUN);
    EndsAreUnchanged();
    SecondResolution();
    FullEdgesOf(before, SECOND_RUN, STALE);
    TwoFromAll(w, FIRST_RUN, SECOND_RUN);
    RunsPersist(BEGINNING, SECOND_RUN);
    StartIsSound();
    EmptyCacheParsesAll(w, 1, SECOND_TREE);
    assert FullParse(w, 1, SECOND_TREE) == IncrementalParse(w, 1, map[], SECOND_TREE);
    hide *;
  }

  lemma TwoFromAll(w: World, e: Episode, f: Episode)
    ensures AfterAll(w, [e, f]) == AfterEpisode(w, AfterAll(w, [e]), f)
  {
    assert [e, f][..1] == [e];
  }

  // ---------------------------------------------------------------- a first index that dies, an edit, a rerun

  lemma OneFileIsUnique(f: FileNode)
    ensures UniquePaths([f])
  {
  }

  const DYING := Attempt(1, [CALLER], ResolveCalls())
  const AFTER_EDIT := Attempt(1, [FileNode("a.ts", 1)], ResolveCalls())

  /** The only symbol of a one-file tree is written first. */
  lemma WritesTheFunction(f: FileNode, resolve: Resolver)
    ensures var a := Attempt(1, [f], resolve);
            && |WritesOf(OneFunctionFiles(), map[], a)| >= 2
            && Wrote(OneFunctionFiles(), map[], a, 2) == [FunctionOf(f)]
  {
    var w := OneFunctionFiles();
    OneFileIsUnique(f);
    TreeParsesAs(1, map[], [f]);
    FoldsAs([f]);
    DeltaHolds(w, 1, map[], [f], 0);
    var symbols := [FunctionOf(f)];
    assert FunctionsOf([f]) == symbols && symbols[..0] == [];
    var scope := DeltaNow(w, 1, map[], [f]).addedAndChanged;
    assert FunctionOf(f).file in scope;
    assert Persisting(w, map[], Attempt(1, [f], resolve));
    hide DeltaNow, IncrementalParse, Folded, Persisting;
    assert InScope(symbols, scope) == symbols;
    assert PlanFor(w, map[], Attempt(1, [f], resolve)).symbols == symbols;
    assert symbols[..1] == symbols;
  }

  lemma DefinesOnly(f: FileNode, resolve: Resolver, k: LogicalKey)
    ensures Defines(OneFunctionFiles(), map[], Attempt(1, [f], resolve), k) <==> k == FunctionOf(f).key
  {
    OneFileIsUnique(f);
    TreeParsesAs(1, map[], [f]);
    FoldsAs([f]);
    var symbols := [FunctionOf(f)];
    assert FunctionsOf([f]) == symbols && symbols[..0] == [];
    assert Folded(ParsedBy(OneFunctionFiles(), map[], Attempt(1, [f], resolve))) == symbols;
    assert RowFound(symbols, k) == if FunctionOf(f).key == k then Some(RowOf(FunctionOf(f))) else RowFound([], k);
  }

  /** The first index of a one-file tree dies after its first row; the function is renamed; the next run completes,
      and the old function stays in the table, where a full write has none. */
  lemma ARenameAfterACrashLeavesTheOldName()
    ensures var w := OneFunctionFiles();
            var oldKey := FunctionOf(CALLER).key;
            && 2 <= |WritesOf(w, map[], DYING)|
            && oldKey in Completed(w, map[], Died(w, map[], EMPTY, DYING, 2), AFTER_EDIT).rows
            && oldKey !in FullTable(w, map[], AFTER_EDIT)
  {
    var w := OneFunctionFiles();
    var k := FunctionOf(CALLER).key;
    StartIsSound();
    OneFileIsUnique(CALLER);
    OneFileIsUnique(FileNode("a.ts", 1));
    WritesTheFunction(CALLER, ResolveCalls());
    assert [FunctionOf(CALLER)][..0] == [];
    assert RowFound([FunctionOf(CALLER)], k).Some?;
    DefinesOnly(FileNode("a.ts", 1), ResolveCalls(), k);
    assert k != FunctionOf(FileNode("a.ts", 1)).key;
    assert WalkedPath(AFTER_EDIT.files, k.file) by { assert AFTER_EDIT.files[0].path == k.file; }
    hide *;
    EditAfterCrashLeavesRows(w, BEGINNING, DYING, 2, AFTER_EDIT, k);
  }

  // ---------------------------------------------------------------- a crash after an edit, and the edit undone

  const SMALL_RUN := Episode(1, [CALLER], ResolveCalls(), [])
  const DYING_EDIT := Attempt(1, [FileNode("a.ts", 1)], ResolveCalls())
  const UNDONE := Attempt(1, [CALLER], ResolveCalls())

  lemma AfterSmallRun()
    ensures var s := AfterAll(OneFunctionFiles(), [SMALL_RUN]);
            && Inv(OneFunctionFiles(), s)
            && "a.ts" in s.cache
            && s.cache["a.ts"] == Entry("main", 0, 1, Slice([FunctionOf(CALLER)], [CallIn(CALLER)]))
  {
    var w := OneFunctionFiles();
    StartIsSound();
    OneFileIsUnique(CALLER);
    OneFromAll(w, SMALL_RUN);
    RunsPersist(BEGINNING, SMALL_RUN);
    EpisodeKeepsInv(w, BEGINNING, SMALL_RUN);
    EpisodeIsOneWrite(w, BEGINNING, SMALL_RUN);
    CachedAfter(1, map[], [CALLER], 0);
    hide Inv, AfterAll, AfterEpisode, NextCache, PersistsNow, ApplyAll, Writes;
  }

  lemma Standings(cache: Cache)
    requires "a.ts" in cache && cache["a.ts"] == Entry("main", 0, 1, Slice([FunctionOf(CALLER)], [CallIn(CALLER)]))
    ensures BucketNow(OneFunctionFiles(), 1, cache, FileNode("a.ts", 1)) == Changed
    ensures TakenAsUnchanged(OneFunctionFiles(), cache, UNDONE, "a.ts")
    ensures CachedRow(cache, FunctionOf(CALLER).key).Some?
  {
    assert "main" != "h" by { assert |"main"| != |"h"|; }
    assert BucketNow(OneFunctionFiles(), 1, cache, UNDONE.files[0]) == Unchanged;
    assert [FunctionOf(CALLER)][..0] == [];
    hide BucketNow;
  }

  lemma OneFilePersists(cache: Cache, f: FileNode)
    requires CacheOk(OneFunctionFiles(), cache)
    ensures var a := Attempt(1, [f], ResolveCalls());
            |WritesOf(OneFunctionFiles(), cache, a)| >= 1 && Wrote(OneFunctionFiles(), cache, a, 1) == []
  {
    OneFileIsUnique(f);
    TreeParsesAs(1, cache, [f]);
    assert FunctionsOf([f]) == [FunctionOf(f)];
    hide CacheOk, IncrementalParse, PlanOf;
  }

  /** A complete run; the function is renamed and the next run dies after its delete; the renaming is undone and
      the next run completes: the function has no row, where a full write has one. */
  lemma AnUndoneEditAfterACrashLosesTheRow()
    ensures var w := OneFunctionFiles();
            var s, k := AfterAll(w, [SMALL_RUN]), FunctionOf(CALLER).key;
            && k in s.store.rows && 1 <= |WritesOf(w, s.cache, DYING_EDIT)|
            && k !in Completed(w, s.cache, Died(w, s.cache, s.store, DYING_EDIT, 1), UNDONE).rows
            && k in FullTable(w, s.cache, UNDONE)
  {
    var w := OneFunctionFiles();
    var s, k := AfterAll(w, [SMALL_RUN]), FunctionOf(CALLER).key;
    AfterSmallRun();
    Standings(s.cache);
    OneFileIsUnique(CALLER);
    OneFileIsUnique(FileNode("a.ts", 1));
    assert Lookup(s.store.rows, k) == CachedRow(s.cache, k);
    assert k in s.store.rows;
    assert k.file == "a.ts" && DYING_EDIT.files[0] == FileNode("a.ts", 1);
    InvGivesCacheOk(w, s);
    hide *;
    OneFilePersists(s.cache, FileNode("a.ts", 1));
    assert RowFound([], k).None? by { NothingFound(k); }
    RevertAfterCrashLosesRows(w, s, DYING_EDIT, 1, 0, UNDONE, k);
  }

  lemma NothingFound(k: LogicalKey)
    ensures RowFound([], k).None?
  {
  }

  // ---------------------------------------------------------------- a tree without files

  const NO_FILES := Episode(1, [], ResolveCalls(), [])

  /** A complete run, and one over a tree from which every file is gone: the function keeps its row, where a full
      write has none. */
  lemma AnEmptyTreeKeepsTheTable()
    ensures var w := OneFunctionFiles();
            var before, k := AfterAll(w, [SMALL_RUN]), FunctionOf(CALLER).key;
            && k in AfterAll(w, [SMALL_RUN, NO_FILES]).store.rows
            && FullIndex(NO_FILES.resolve, IncrementalParse(w, 1, before.cache, [])).rows == map[]
  {
    var w := OneFunctionFiles();
    var s, k := AfterAll(w, [SMALL_RUN]), FunctionOf(CALLER).key;
    AfterSmallRun();
    Standings(s.cache);
    assert Lookup(s.store.rows, k) == CachedRow(s.cache, k);
    TwoFromAll(w, SMALL_RUN, NO_FILES);
    assert AfterEpisode(w, s, NO_FILES) == s;
    hide *;
    NoSymbolsNoRows(w, NO_FILES.resolve, 1, s.cache, []);
  }
}
