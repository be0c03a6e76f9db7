/**
 Phase 2 of an indexing run: which files are parsed again, which are taken from the parse cache, and what
 comes out (classifyFiles in src/application/indexing/cache/classify.ts; runPhase2 and attachAccessedKeys in
 src/application/indexing/pipeline.ts).

 Reading, hashing and extracting are parameters (World).  That `disk` is a function says that a path read
 twice at one mtime gives the same content, or fails both times.
 */
module Incremental {
  import opened Prelude
  import opened Symbols

  type Path = string
  type Content = string
  type Hash = string

  /** What the extractor finds at a position of one file. */
  datatype RawSymbol = RawSymbol(name: string, kind: string, line: nat, column: nat, details: string)
  datatype HintKind = Import | Call | Inherits | Implements | Access
  datatype RawHint = RawHint(kind: HintKind, targetName: string, enclosing: Option<RawSymbol>, details: string)
  datatype Extract = Extract(symbols: seq<RawSymbol>, hints: seq<RawHint>)

  datatype Hint = Hint(kind: HintKind, sourceFile: Path, targetName: string, enclosing: Option<SymbolId>,
                       details: string)

  /** The parse of one file. */
  datatype Slice = Slice(symbols: seq<Symbol>, hints: seq<Hint>)

  const NOTHING := Slice([], [])

  datatype FileNode = FileNode(path: Path, mtime: nat)
  datatype Entry = Entry(contentHash: Hash, mtime: nat, version: nat, slice: Slice)
  type Cache = map<Path, Entry>

  /** `extract` gives None when the parser skips the file; its first argument is the parse version. */
  datatype World = World(
    disk: (Path, nat) -> Option<Content>,
    hash: Content -> Hash,
    extract: (nat, Path, Content) -> Option<Extract>
  )

  ghost predicate InjectiveHash(w: World) {
    forall a, b :: w.hash(a) == w.hash(b) ==> a == b
  }

  ghost predicate UniquePaths(files: seq<FileNode>) {
    forall i, j :: 0 <= i < j < |files| ==> files[i].path != files[j].path
  }

  // ---------------------------------------------------------------- parsing one file

  function IdOf(path: Path, r: RawSymbol): SymbolId {
    SymbolId(path, r.name, r.line, r.column)
  }

  function Stamp(path: Path, raw: seq<RawSymbol>): (r: seq<Symbol>)
    ensures |r| == |raw|
  {
    seq(|raw|, i requires 0 <= i < |raw| =>
      Symbol(IdOf(path, raw[i]), LogicalKey("", "", "", 0), raw[i].name, raw[i].kind, path, raw[i].details, []))
  }

  function StampHints(path: Path, raw: seq<RawHint>): (r: seq<Hint>)
    ensures |r| == |raw|
  {
    seq(|raw|, i requires 0 <= i < |raw| =>
      Hint(raw[i].kind, path, raw[i].targetName,
           if raw[i].enclosing.Some? then Some(IdOf(path, raw[i].enclosing.value)) else None, raw[i].details))
  }

  function Parse(w: World, version: nat, path: Path, content: Content): Option<Slice> {
    match w.extract(version, path, content)
    case None => None
    case Some(x) => Some(Slice(AssignLogicalKeys(Stamp(path, x.symbols)), StampHints(path, x.hints)))
  }

  /** The parse of a walked file as it now is; None when it cannot be read or the parser skips it. */
  function ParseNow(w: World, version: nat, f: FileNode): Option<Slice> {
    match w.disk(f.path, f.mtime)
    case None => None
    case Some(content) => Parse(w, version, f.path, content)
  }

  /** Everything in a slice names its own file; ids and keys are unique in it. */
  ghost predicate OfFile(slice: Slice, path: Path) {
    && (forall i :: 0 <= i < |slice.symbols| ==> SymbolOfFile(slice.symbols[i], path))
    && DistinctIds(slice.symbols)
    && (forall i, j :: 0 <= i < j < |slice.symbols| ==> slice.symbols[i].key != slice.symbols[j].key)
    && HintsOfFile(slice.hints, path)
  }

  ghost predicate SymbolOfFile(s: Symbol, path: Path) {
    s.file == path && s.id.file == path && s.key.file == path
  }

  ghost predicate HintsOfFile(hints: seq<Hint>, path: Path) {
    forall i :: 0 <= i < |hints| && hints[i].enclosing.Some? ==> hints[i].enclosing.value.file == path
  }

  lemma ParseOfFile(w: World, version: nat, path: Path, content: Content)
    requires Parse(w, version, path, content).Some?
    ensures OfFile(Parse(w, version, path, content).value, path)
  {
    var raw := Stamp(path, w.extract(version, path, content).value.symbols);
    var survivors := DedupeById(raw);
    var out := AssignKeys(survivors);
    DedupeIsDistinct(raw);
    DedupeIsFrom(raw);
    KeysAreUniqueOrdinals(raw);
    forall i | 0 <= i < |out|
      ensures SymbolOfFile(out[i], path) && out[i].id == survivors[i].id
    {
      AssignedAt(survivors, i);
      assert survivors[i] in raw;
    }
  }

  // ---------------------------------------------------------------- classification

  datatype ClassifiableFile = ClassifiableFile(node: FileNode, contentHash: Option<Hash>)
  datatype Bucket = Unchanged | Changed | Added
  datatype Classification = Classification(
    reused: seq<FileNode>, changed: seq<FileNode>, added: seq<FileNode>, removed: set<Path>)

  predicate IsFresh(entry: Entry, contentHash: Option<Hash>, version: nat) {
    && entry.version == version
    && contentHash.Some?
    && entry.contentHash == contentHash.value
  }

  function BucketOf(f: ClassifiableFile, cache: Cache, version: nat): Bucket {
    if f.node.path !in cache then Added
    else if IsFresh(cache[f.node.path], f.contentHash, version) then Unchanged
    else Changed
  }

  /** The files of one bucket, in walk order. */
  function InBucket(files: seq<ClassifiableFile>, cache: Cache, version: nat, b: Bucket): seq<FileNode> {
    if files == [] then []
    else
      var init, last := files[..|files| - 1], files[|files| - 1];
      InBucket(init, cache, version, b) + (if BucketOf(last, cache, version) == b then [last.node] else [])
  }

  lemma InBucketSnoc(files: seq<ClassifiableFile>, i: nat, cache: Cache, version: nat)
    requires i < |files|
    ensures forall b :: InBucket(files[..i + 1], cache, version, b) ==
                        InBucket(files[..i], cache, version, b) +
                        (if BucketOf(files[i], cache, version) == b then [files[i].node] else [])
  {
    assert files[..i + 1][..i] == files[..i];
  }

  ghost predicate PutIn(files: seq<ClassifiableFile>, cache: Cache, version: nat, b: Bucket, f: FileNode) {
    exists i :: 0 <= i < |files| && files[i].node == f && BucketOf(files[i], cache, version) == b
  }

  lemma {:induction false} InBucketHolds(files: seq<ClassifiableFile>, cache: Cache, version: nat, b: Bucket)
    ensures forall f :: f in InBucket(files, cache, version, b) <==> PutIn(files, cache, version, b, f)
  {
    if files != [] {
      var init, last := files[..|files| - 1], files[|files| - 1];
      InBucketHolds(init, cache, version, b);
      var r := InBucket(files, cache, version, b);
      forall f
        ensures f in r <==> PutIn(files, cache, version, b, f)
      {
        if PutIn(init, cache, version, b, f) {
          var i :| 0 <= i < |init| && init[i].node == f && BucketOf(init[i], cache, version) == b;
          assert files[i] == init[i];
        }
        assert PutIn(files, cache, version, b, f) ==>
                 PutIn(init, cache, version, b, f) || (f == last.node && BucketOf(last, cache, version) == b) by {
          assert forall i :: 0 <= i < |init| ==> files[i] == init[i];
        }
        assert f == last.node && BucketOf(last, cache, version) == b ==> files[|init|].node == f;
      }
    }
  }

  /** In walk order: more files only add at the end. */
  lemma {:induction false} InBucketGrows(files: seq<ClassifiableFile>, more: seq<ClassifiableFile>, cache: Cache,
                                         version: nat, b: Bucket)
    ensures InBucket(files, cache, version, b) <= InBucket(files + more, cache, version, b)
  {
    if more == [] {
      assert files + more == files;
    } else {
      assert (files + more)[..|files + more| - 1] == files + more[..|more| - 1];
      InBucketGrows(files, more[..|more| - 1], cache, version, b);
    }
  }

  predicate Walked(files: seq<ClassifiableFile>, p: Path) {
    exists i :: 0 <= i < |files| && files[i].node.path == p
  }

  function Classify(files: seq<ClassifiableFile>, cache: Cache, version: nat): Classification {
    Classification(InBucket(files, cache, version, Unchanged), InBucket(files, cache, version, Changed),
                   InBucket(files, cache, version, Added), set p | p in cache && !Walked(files, p))
  }

  method ClassifyFiles(files: seq<ClassifiableFile>, cache: Cache, version: nat) returns (c: Classification)
    ensures c == Classify(files, cache, version)
  {
    var reused, changed, added := [], [], [];
    var present: set<Path> := {};
    var i := 0;
    while i < |files|
      invariant 0 <= i <= |files|
      invariant reused == InBucket(files[..i], cache, version, Unchanged)
      invariant changed == InBucket(files[..i], cache, version, Changed)
      invariant added == InBucket(files[..i], cache, version, Added)
      invariant forall p :: p in present <==> Walked(files[..i], p)
    {
      hide InBucket, Walked;
      var f := files[i];
      assert files[..i] + [f] == files[..i + 1];
      WalkedSnoc(files[..i], f);
      InBucketSnoc(files, i, cache, version);
      i := i + 1;
      present := present + {f.node.path};
      if f.node.path !in cache {
        added := added + [f.node];
        continue;
      }
      if IsFresh(cache[f.node.path], f.contentHash, version) {
        reused := reused + [f.node];
      } else {
        changed := changed + [f.node];
      }
    }
    assert files[..i] == files;
    var removed := RemovedFiles(cache.Keys, present);
    c := Classification(reused, changed, added, removed);
  }

  method RemovedFiles(cached: set<Path>, present: set<Path>) returns (removed: set<Path>)
    ensures removed == cached - present
  {
    removed := {};
    var keys := cached;
    while keys != {}
      invariant keys <= cached && removed == cached - keys - present
    {
      var key :| key in keys;
      keys := keys - {key};
      if key !in present {
        removed := removed + {key};
      }
    }
  }

  lemma WalkedSnoc(files: seq<ClassifiableFile>, f: ClassifiableFile)
    ensures forall p :: Walked(files + [f], p) <==> Walked(files, p) || p == f.node.path
  {
    var r := files + [f];
    forall p
      ensures Walked(r, p) <==> Walked(files, p) || p == f.node.path
    {
      if Walked(files, p) {
        var k :| 0 <= k < |files| && files[k].node.path == p;
        assert r[k].node.path == p;
      }
      assert r[|files|] == f;
    }
  }

  // ---------------------------------------------------------------- the merge

  /** Equal mtime: the cached hash, without a read.  Else the hash of what is read, if it can be. */
  function CurrentHash(w: World, prior: Cache, f: FileNode): Option<Hash> {
    if f.path in prior && prior[f.path].mtime == f.mtime then Some(prior[f.path].contentHash)
    else match w.disk(f.path, f.mtime)
      case None => None
      case Some(content) => Some(w.hash(content))
  }

  function Hashed(w: World, prior: Cache, files: seq<FileNode>): (r: seq<ClassifiableFile>)
    ensures |r| == |files|
  {
    seq(|files|, i requires 0 <= i < |files| => ClassifiableFile(files[i], CurrentHash(w, prior, files[i])))
  }

  function BucketNow(w: World, version: nat, prior: Cache, f: FileNode): Bucket {
    BucketOf(ClassifiableFile(f, CurrentHash(w, prior, f)), prior, version)
  }

  /** The entry a walked file contributes: freshly parsed, else the cached one of the current version. */
  function Used(w: World, version: nat, prior: Cache, f: FileNode): Option<Entry> {
    if BucketNow(w, version, prior, f) != Unchanged && ParseNow(w, version, f).Some? then
      Some(Entry(w.hash(w.disk(f.path, f.mtime).value), f.mtime, version, ParseNow(w, version, f).value))
    else if f.path in prior && prior[f.path].version == version then Some(prior[f.path])
    else None
  }

  function SliceOf(e: Option<Entry>): Slice {
    if e.Some? then e.value.slice else NOTHING
  }

  function ParsedSlice(p: Option<Slice>): Slice {
    if p.Some? then p.value else NOTHING
  }

  function UsedSlices(w: World, version: nat, prior: Cache, files: seq<FileNode>): (r: seq<Slice>)
    ensures |r| == |files|
  {
    seq(|files|, i requires 0 <= i < |files| => SliceOf(Used(w, version, prior, files[i])))
  }

  function ParsedSlices(w: World, version: nat, files: seq<FileNode>): (r: seq<Slice>)
    ensures |r| == |files|
  {
    seq(|files|, i requires 0 <= i < |files| => ParsedSlice(ParseNow(w, version, files[i])))
  }

  function AllSymbols(slices: seq<Slice>): seq<Symbol> {
    if slices == [] then [] else AllSymbols(slices[..|slices| - 1]) + slices[|slices| - 1].symbols
  }

  function AllHints(slices: seq<Slice>): seq<Hint> {
    if slices == [] then [] else AllHints(slices[..|slices| - 1]) + slices[|slices| - 1].hints
  }

  /** What phase 2 hands to the later phases. */
  datatype Parsed = Parsed(symbols: seq<Symbol>, hints: seq<Hint>)

  function Merge(slices: seq<Slice>): Parsed {
    Parsed(DedupeById(AllSymbols(slices)), AllHints(slices))
  }

  /** A run that parses every file. */
  function FullParse(w: World, version: nat, files: seq<FileNode>): Parsed {
    Merge(ParsedSlices(w, version, files))
  }

  function IncrementalParse(w: World, version: nat, prior: Cache, files: seq<FileNode>): Parsed {
    Merge(UsedSlices(w, version, prior, files))
  }

  function NextCache(w: World, version: nat, prior: Cache, files: seq<FileNode>): Cache {
    if files == [] then map[]
    else
      var last := files[|files| - 1];
      var next := NextCache(w, version, prior, files[..|files| - 1]);
      var e := Used(w, version, prior, last);
      if e.Some? then next[last.path := e.value] else next
  }

  /** The plan of the delta write: files whose rows go, files whose rows are written. */
  datatype Delta = Delta(removedAndChanged: set<Path>, addedAndChanged: set<Path>)

  function Paths(files: seq<FileNode>): set<Path> {
    set f | f in files :: f.path
  }

  function DeltaOf(c: Classification): Delta {
    Delta(c.removed + Paths(c.changed), Paths(c.changed) + Paths(c.added))
  }

  function DeltaNow(w: World, version: nat, prior: Cache, files: seq<FileNode>): Delta {
    DeltaOf(Classify(Hashed(w, prior, files), prior, version))
  }

  /** The results of a parse by path: the hash and the slice of every file the parser did not skip. */
  ghost predicate ResultsOf(perFile: map<Path, (Hash, Slice)>, w: World, version: nat, toParse: seq<FileNode>) {
    && (forall i :: 0 <= i < |toParse| ==> HasResult(perFile, w, version, toParse[i]))
    && (forall p :: p in perFile ==> exists i :: 0 <= i < |toParse| && toParse[i].path == p)
  }

  ghost predicate HasResult(perFile: map<Path, (Hash, Slice)>, w: World, version: nat, f: FileNode) {
    var now := ParseNow(w, version, f);
    if now.Some? then f.path in perFile && perFile[f.path] == (w.hash(w.disk(f.path, f.mtime).value), now.value)
    else f.path !in perFile
  }

  method ParseAll(w: World, version: nat, toParse: seq<FileNode>) returns (perFile: map<Path, (Hash, Slice)>)
    requires UniquePaths(toParse)
    ensures ResultsOf(perFile, w, version, toParse)
  {
    perFile := map[];
    var i := 0;
    while i < |toParse|
      invariant 0 <= i <= |toParse| && ResultsOf(perFile, w, version, toParse[..i])
    {
      var f := toParse[i];
      assert toParse[..i + 1] == toParse[..i] + [f];
      ResultsSnoc(perFile, w, version, toParse[..i], f);
      var content := w.disk(f.path, f.mtime);
      if content.Some? {
        var slice := Parse(w, version, f.path, content.value);
        if slice.Some? {
          perFile := perFile[f.path := (w.hash(content.value), slice.value)];
        }
      }
      i := i + 1;
    }
    assert toParse[..i] == toParse;
  }

  lemma {:induction false} ResultsSnoc(perFile: map<Path, (Hash, Slice)>, w: World, version: nat,
                                       before: seq<FileNode>, f: FileNode)
    requires ResultsOf(perFile, w, version, before) && UniquePaths(before + [f])
    ensures var now := ParseNow(w, version, f);
            ResultsOf(if now.Some? then perFile[f.path := (w.hash(w.disk(f.path, f.mtime).value), now.value)]
                      else perFile,
                      w, version, before + [f])
  {
    var now := ParseNow(w, version, f);
    var files := before + [f];
    var more := if now.Some? then perFile[f.path := (w.hash(w.disk(f.path, f.mtime).value), now.value)] else perFile;
    hide ParseNow;
    forall p | p in more
      ensures exists k :: 0 <= k < |files| && files[k].path == p
    {
      if p in perFile {
        var k :| 0 <= k < |before| && before[k].path == p;
        assert files[k].path == p;
      } else {
        assert files[|before|].path == p;
      }
    }
    forall k | 0 <= k < |files|
      ensures HasResult(more, w, version, files[k])
    {
      if k < |before| {
        assert HasResult(perFile, w, version, before[k]);
        assert files[k].path != files[|before|].path;
      } else {
        assert forall j :: 0 <= j < |before| ==> files[j] == before[j] && files[j].path != files[|before|].path;
      }
    }
  }

  lemma BucketsAreUnique(files: seq<ClassifiableFile>, cache: Cache, version: nat)
    requires forall i, j :: 0 <= i < j < |files| ==> files[i].node.path != files[j].node.path
    ensures UniquePaths(InBucket(files, cache, version, Changed) + InBucket(files, cache, version, Added))
  {
    var changed, added := InBucket(files, cache, version, Changed), InBucket(files, cache, version, Added);
    BucketIsUnique(files, cache, version, Changed);
    BucketIsUnique(files, cache, version, Added);
    InBucketHolds(files, cache, version, Changed);
    InBucketHolds(files, cache, version, Added);
    forall f, g | f in changed && g in added
      ensures f.path != g.path
    {
    }
  }

  lemma {:induction false} BucketIsUnique(files: seq<ClassifiableFile>, cache: Cache, version: nat, b: Bucket)
    requires forall i, j :: 0 <= i < j < |files| ==> files[i].node.path != files[j].node.path
    ensures UniquePaths(InBucket(files, cache, version, b))
  {
    if files != [] {
      var init := files[..|files| - 1];
      BucketIsUnique(init, cache, version, b);
      InBucketHolds(init, cache, version, b);
      var r := InBucket(init, cache, version, b);
      forall i | 0 <= i < |r|
        ensures r[i].path != files[|files| - 1].node.path
      {
        assert r[i] in r;
      }
    }
  }

  /** Whether a walked file has a fresh result: it was not unchanged, and the parser did not skip it. */
  ghost predicate FreshOnly(perFile: map<Path, (Hash, Slice)>, w: World, version: nat, prior: Cache, f: FileNode) {
    if BucketNow(w, version, prior, f) == Unchanged then f.path !in perFile else HasResult(perFile, w, version, f)
  }

  lemma ResultsAreFresh(perFile: map<Path, (Hash, Slice)>, w: World, version: nat, prior: Cache, files: seq<FileNode>,
                        i: nat)
    requires UniquePaths(files) && i < |files|
    requires var c := Classify(Hashed(w, prior, files), prior, version);
             ResultsOf(perFile, w, version, c.changed + c.added)
    ensures FreshOnly(perFile, w, version, prior, files[i])
  {
    var f := files[i];
    var hashed := Hashed(w, prior, files);
    var c := Classify(hashed, prior, version);
    var toParse := c.changed + c.added;
    assert hashed[i] == ClassifiableFile(f, CurrentHash(w, prior, f));
    InBucketHolds(hashed, prior, version, Changed);
    InBucketHolds(hashed, prior, version, Added);
    if f.path in perFile {
      var j :| 0 <= j < |toParse| && toParse[j].path == f.path;
      assert toParse[j] in c.changed || toParse[j] in c.added;
      var k :| 0 <= k < |hashed| && hashed[k].node == toParse[j] && BucketOf(hashed[k], prior, version) != Unchanged;
      assert files[k].path == f.path && k == i;
    }
    if BucketNow(w, version, prior, f) != Unchanged {
      assert f in c.changed || f in c.added;
      assert f in toParse;
    }
  }

  lemma MergeSnoc(slices: seq<Slice>, i: nat)
    requires i < |slices|
    ensures AllSymbols(slices[..i + 1]) == AllSymbols(slices[..i]) + slices[i].symbols
    ensures AllHints(slices[..i + 1]) == AllHints(slices[..i]) + slices[i].hints
  {
    assert slices[..i + 1][..i] == slices[..i];
  }

  lemma NextCacheSnoc(w: World, version: nat, prior: Cache, files: seq<FileNode>, i: nat)
    requires i < |files|
    ensures var e := Used(w, version, prior, files[i]);
            NextCache(w, version, prior, files[..i + 1]) ==
            if e.Some? then NextCache(w, version, prior, files[..i])[files[i].path := e.value]
            else NextCache(w, version, prior, files[..i])
  {
    assert files[..i + 1][..i] == files[..i];
  }

  /** The loop over the walk: the fresh slice if there is one, else the cached slice of the current version. */
  method MergeInWalkOrder(w: World, version: nat, prior: Cache, files: seq<FileNode>, perFile: map<Path, (Hash, Slice)>)
    returns (symbols: seq<Symbol>, hints: seq<Hint>, nextCache: Cache)
    requires forall i :: 0 <= i < |files| ==> FreshOnly(perFile, w, version, prior, files[i])
    ensures var slices := UsedSlices(w, version, prior, files);
            symbols == AllSymbols(slices) && hints == AllHints(slices)
    ensures nextCache == NextCache(w, version, prior, files)
  {
    symbols, hints, nextCache := [], [], map[];
    ghost var slices := UsedSlices(w, version, prior, files);
    var i := 0;
    assert slices[..0] == [] && files[..0] == [];
    assert AllSymbols(slices[..0]) == [] && AllHints(slices[..0]) == [];
    assert NextCache(w, version, prior, files[..0]) == map[];
    hide AllSymbols, AllHints, NextCache, BucketNow, ParseNow;
    while i < |files|
      invariant 0 <= i <= |files|
      invariant symbols == AllSymbols(slices[..i]) && hints == AllHints(slices[..i])
      invariant nextCache == NextCache(w, version, prior, files[..i])
    {
      var f := files[i];
      assert FreshOnly(perFile, w, version, prior, f);
      MergeSnoc(slices, i);
      NextCacheSnoc(w, version, prior, files, i);
      i := i + 1;
      if f.path in perFile {
        var result := perFile[f.path];
        symbols := symbols + result.1.symbols;
        hints := hints + result.1.hints;
        nextCache := nextCache[f.path := Entry(result.0, f.mtime, version, result.1)];
        continue;
      }
      if f.path in prior && prior[f.path].version == version {
        symbols := symbols + prior[f.path].slice.symbols;
        hints := hints + prior[f.path].slice.hints;
        nextCache := nextCache[f.path := prior[f.path]];
      }
    }
    assert slices[..i] == slices && files[..i] == files;
  }

  method RunPhase2(w: World, version: nat, prior: Cache, files: seq<FileNode>)
    returns (parsed: Parsed, nextCache: Cache, delta: Delta)
    requires UniquePaths(files)
    ensures parsed == IncrementalParse(w, version, prior, files)
    ensures nextCache == NextCache(w, version, prior, files)
    ensures delta == DeltaNow(w, version, prior, files)
  {
    var hashed := Hashed(w, prior, files);
    var c := ClassifyFiles(hashed, prior, version);
    BucketsAreUnique(hashed, prior, version);
    var perFile := ParseAll(w, version, c.changed + c.added);
    forall i | 0 <= i < |files|
      ensures FreshOnly(perFile, w, version, prior, files[i])
    {
      ResultsAreFresh(perFile, w, version, prior, files, i);
    }
    var symbols, hints, next := MergeInWalkOrder(w, version, prior, files, perFile);
    nextCache := next;
    symbols := DedupeByIdLoop(symbols);
    parsed := Parsed(symbols, hints);
    delta := Delta(c.removed + Paths(c.changed), Paths(c.changed) + Paths(c.added));
  }

  // ---------------------------------------------------------------- what the cache holds

  /** The entry is the parse, at its version, of the content its mtime stands for, with that content's hash. */
  ghost predicate EntryOk(w: World, path: Path, e: Entry) {
    var content := w.disk(path, e.mtime);
    content.Some? && e.contentHash == w.hash(content.value) && Parse(w, e.version, path, content.value) == Some(e.slice)
  }

  ghost predicate CacheOk(w: World, cache: Cache) {
    forall p :: p in cache ==> EntryOk(w, p, cache[p])
  }

  lemma UsedIsOk(w: World, version: nat, prior: Cache, f: FileNode)
    requires CacheOk(w, prior)
    ensures var e := Used(w, version, prior, f);
            e.Some? ==> EntryOk(w, f.path, e.value) && OfFile(e.value.slice, f.path)
  {
    var e := Used(w, version, prior, f);
    if e.Some? {
      assert EntryOk(w, f.path, e.value);
      ParseOfFile(w, e.value.version, f.path, w.disk(f.path, e.value.mtime).value);
    }
  }

  /** After a run the cache holds, for the files walked, exactly the entries used. */
  lemma {:induction false} NextCacheHolds(w: World, version: nat, prior: Cache, files: seq<FileNode>)
    requires UniquePaths(files)
    ensures var next := NextCache(w, version, prior, files);
            && (forall i :: 0 <= i < |files| ==> CachedAs(next, files[i].path, Used(w, version, prior, files[i])))
            && (forall p :: p in next ==> exists i :: 0 <= i < |files| && files[i].path == p)
  {
    var next := NextCache(w, version, prior, files);
    if files != [] {
      var init, last := files[..|files| - 1], files[|files| - 1];
      NextCacheHolds(w, version, prior, init);
      var before := NextCache(w, version, prior, init);
      hide Used, NextCache;
      assert forall k :: 0 <= k < |init| ==> init[k] == files[k] && init[k].path != last.path;
      forall i | 0 <= i < |files|
        ensures CachedAs(next, files[i].path, Used(w, version, prior, files[i]))
      {
        if i < |init| {
          assert CachedAs(before, init[i].path, Used(w, version, prior, init[i]));
        }
      }
      forall p | p in next
        ensures exists i :: 0 <= i < |files| && files[i].path == p
      {
        if p in before {
          var i :| 0 <= i < |init| && init[i].path == p;
          assert files[i].path == p;
        } else {
          assert files[|init|].path == p;
        }
      }
    }
  }

  ghost predicate CachedAs(cache: Cache, p: Path, e: Option<Entry>) {
    if e.Some? then p in cache && cache[p] == e.value else p !in cache
  }

  lemma NextCacheOk(w: World, version: nat, prior: Cache, files: seq<FileNode>)
    requires CacheOk(w, prior) && UniquePaths(files)
    ensures CacheOk(w, NextCache(w, version, prior, files))
  {
    var next := NextCache(w, version, prior, files);
    NextCacheHolds(w, version, prior, files);
    forall p | p in next
      ensures EntryOk(w, p, next[p])
    {
      var i :| 0 <= i < |files| && files[i].path == p;
      assert CachedAs(next, files[i].path, Used(w, version, prior, files[i]));
      UsedIsOk(w, version, prior, files[i]);
    }
  }

  /** A file classified as unchanged has the parse the cache holds for it. */
  lemma UnchangedIsCurrent(w: World, version: nat, prior: Cache, f: FileNode)
    requires InjectiveHash(w) && CacheOk(w, prior) && BucketNow(w, version, prior, f) == Unchanged
    ensures ParseNow(w, version, f) == Some(prior[f.path].slice)
  {
    hide Parse;
    assert EntryOk(w, f.path, prior[f.path]);
  }

  /** The two tiers of the staleness check agree with the contents: a cached file is unchanged if and only if
      its entry is of this version and it can be read as the content that was parsed. */
  lemma UnchangedIffSameContent(w: World, version: nat, prior: Cache, f: FileNode)
    requires InjectiveHash(w) && CacheOk(w, prior) && f.path in prior
    ensures BucketNow(w, version, prior, f) == Unchanged <==>
            prior[f.path].version == version && w.disk(f.path, f.mtime) == w.disk(f.path, prior[f.path].mtime)
  {
    hide Parse;
    assert EntryOk(w, f.path, prior[f.path]);
  }

  // ---------------------------------------------------------------- incremental equals full

  /** A changed file that the parser now skips, with a cached slice of the current version to fall back on. */
  predicate FallsBack(w: World, version: nat, prior: Cache, f: FileNode) {
    && BucketNow(w, version, prior, f) == Changed
    && ParseNow(w, version, f).None?
    && prior[f.path].version == version
    && prior[f.path].slice != NOTHING
  }

  lemma UsedVersusParsed(w: World, version: nat, prior: Cache, f: FileNode)
    requires InjectiveHash(w) && CacheOk(w, prior)
    ensures !FallsBack(w, version, prior, f) ==>
              SliceOf(Used(w, version, prior, f)) == ParsedSlice(ParseNow(w, version, f))
    ensures FallsBack(w, version, prior, f) ==>
              SliceOf(Used(w, version, prior, f)) == prior[f.path].slice
              && ParsedSlice(ParseNow(w, version, f)) == NOTHING
  {
    if BucketNow(w, version, prior, f) == Unchanged {
      UnchangedIsCurrent(w, version, prior, f);
    }
  }

  /** `a` has at least what `b` has, file by file. */
  ghost predicate Covers(a: seq<Slice>, b: seq<Slice>) {
    |a| == |b| && forall i :: 0 <= i < |a| ==> a[i] == b[i] || b[i] == NOTHING
  }

  lemma {:induction false} CoversSizes(a: seq<Slice>, b: seq<Slice>)
    requires Covers(a, b)
    ensures |AllSymbols(a)| >= |AllSymbols(b)| && |AllHints(a)| >= |AllHints(b)|
    ensures a != b ==> |AllSymbols(a)| > |AllSymbols(b)| || |AllHints(a)| > |AllHints(b)|
  {
    if a != [] {
      var n := |a| - 1;
      CoversSizes(a[..n], b[..n]);
      assert |AllSymbols(a)| == |AllSymbols(a[..n])| + |a[n].symbols|
             && |AllSymbols(b)| == |AllSymbols(b[..n])| + |b[n].symbols|;
      assert |AllHints(a)| == |AllHints(a[..n])| + |a[n].hints| && |AllHints(b)| == |AllHints(b[..n])| + |b[n].hints|;
      hide AllSymbols, AllHints;
      assert a[n] == b[n] || b[n] == NOTHING;
      assert a[..n] == b[..n] && a[n] == b[n] ==> a == b by {
        assert a == a[..n] + [a[n]] && b == b[..n] + [b[n]];
      }
    }
  }

  ghost predicate SlicesOfFiles(slices: seq<Slice>, files: seq<FileNode>) {
    && |slices| == |files|
    && forall i :: 0 <= i < |files| ==> OfFile(slices[i], files[i].path)
  }

  lemma {:induction false} SymbolsOfFiles(slices: seq<Slice>, files: seq<FileNode>, k: nat)
    requires SlicesOfFiles(slices, files) && k < |AllSymbols(slices)|
    ensures exists i :: 0 <= i < |files| && SymbolOfFile(AllSymbols(slices)[k], files[i].path)
  {
    var n := |slices| - 1;
    var before := AllSymbols(slices[..n]);
    if k < |before| {
      SymbolsOfFiles(slices[..n], files[..n], k);
      var i :| 0 <= i < n && SymbolOfFile(before[k], files[..n][i].path);
      assert files[..n][i] == files[i];
    } else {
      assert SymbolOfFile(slices[n].symbols[k - |before|], files[n].path);
    }
  }

  /** Ids do not repeat across the files of a walk, so the last pass over the merged list drops nothing. */
  lemma {:induction false} MergedIdsAreDistinct(slices: seq<Slice>, files: seq<FileNode>)
    requires SlicesOfFiles(slices, files) && UniquePaths(files)
    ensures DistinctIds(AllSymbols(slices))
  {
    if slices != [] {
      var n := |slices| - 1;
      MergedIdsAreDistinct(slices[..n], files[..n]);
      var before, last := AllSymbols(slices[..n]), slices[n].symbols;
      forall k, j | 0 <= k < |before| && 0 <= j < |last|
        ensures before[k].id != last[j].id
      {
        SymbolsOfFiles(slices[..n], files[..n], k);
        var i :| 0 <= i < n && SymbolOfFile(before[k], files[..n][i].path);
        assert files[..n][i] == files[i] && files[i].path != files[n].path;
        assert SymbolOfFile(last[j], files[n].path);
      }
    }
  }

  lemma UsedSlicesOfFiles(w: World, version: nat, prior: Cache, files: seq<FileNode>)
    requires CacheOk(w, prior)
    ensures SlicesOfFiles(UsedSlices(w, version, prior, files), files)
  {
    forall i | 0 <= i < |files|
      ensures OfFile(UsedSlices(w, version, prior, files)[i], files[i].path)
    {
      UsedIsOk(w, version, prior, files[i]);
    }
  }

  lemma MergeIsPlain(w: World, version: nat, prior: Cache, files: seq<FileNode>)
    requires CacheOk(w, prior) && UniquePaths(files)
    ensures IncrementalParse(w, version, prior, files).symbols == AllSymbols(UsedSlices(w, version, prior, files))
  {
    var slices := UsedSlices(w, version, prior, files);
    UsedSlicesOfFiles(w, version, prior, files);
    MergedIdsAreDistinct(slices, files);
    DedupeOfDistinct(AllSymbols(slices));
  }

  /** A full parse, written as an incremental one from an empty cache. */
  lemma EmptyCacheParsesAll(w: World, version: nat, files: seq<FileNode>)
    ensures UsedSlices(w, version, map[], files) == ParsedSlices(w, version, files)
  {
  }

  /** The symbols and hints of an incremental run are those of a full parse, in order, if and only if no walked file
      falls back. */
  lemma IncrementalEqualsFull(w: World, version: nat, prior: Cache, files: seq<FileNode>)
    requires InjectiveHash(w) && CacheOk(w, prior) && UniquePaths(files)
    ensures IncrementalParse(w, version, prior, files) == FullParse(w, version, files) <==>
            forall i :: 0 <= i < |files| ==> !FallsBack(w, version, prior, files[i])
  {
    var a, b := UsedSlices(w, version, prior, files), ParsedSlices(w, version, files);
    forall i | 0 <= i < |files|
      ensures a[i] == b[i] <==> !FallsBack(w, version, prior, files[i])
      ensures a[i] == b[i] || b[i] == NOTHING
    {
      UsedVersusParsed(w, version, prior, files[i]);
    }
    CoversSizes(a, b);
    MergeIsPlain(w, version, prior, files);
    EmptyCacheParsesAll(w, version, files);
    MergeIsPlain(w, version, map[], files);
    assert a == b <==> forall i :: 0 <= i < |files| ==> a[i] == b[i];
  }

  // ---------------------------------------------------------------- one dedup over everything extracted

  function Ids(symbols: seq<Symbol>): (r: seq<SymbolId>)
    ensures |r| == |symbols|
  {
    seq(|symbols|, i requires 0 <= i < |symbols| => symbols[i].id)
  }

  /** What the extractor emits for a walked file, before any dedup. */
  function RawOf(w: World, version: nat, f: FileNode): seq<Symbol> {
    match w.disk(f.path, f.mtime)
    case None => []
    case Some(content) =>
      match w.extract(version, f.path, content)
      case None => []
      case Some(x) => Stamp(f.path, x.symbols)
  }

  function RawLists(w: World, version: nat, files: seq<FileNode>): (r: seq<seq<Symbol>>)
    ensures |r| == |files|
  {
    seq(|files|, i requires 0 <= i < |files| => RawOf(w, version, files[i]))
  }

  lemma KeysKeepIds(symbols: seq<Symbol>)
    ensures Ids(AssignKeys(symbols)) == Ids(symbols)
  {
    forall i | 0 <= i < |symbols|
      ensures AssignKeys(symbols)[i].id == symbols[i].id
    {
      AssignedAt(symbols, i);
    }
  }

  lemma ParsedIds(w: World, version: nat, f: FileNode)
    ensures Ids(ParsedSlice(ParseNow(w, version, f)).symbols) == Ids(DedupeById(RawOf(w, version, f)))
  {
    KeysKeepIds(DedupeById(RawOf(w, version, f)));
  }

  lemma {:induction false} FlatIds(slices: seq<Slice>, lists: seq<seq<Symbol>>)
    requires |slices| == |lists| && forall i :: 0 <= i < |lists| ==> Ids(slices[i].symbols) == Ids(lists[i])
    ensures Ids(AllSymbols(slices)) == Ids(Flat(lists))
  {
    if lists != [] {
      var n := |lists| - 1;
      FlatIds(slices[..n], lists[..n]);
      IdsOfConcat(AllSymbols(slices[..n]), slices[n].symbols);
      IdsOfConcat(Flat(lists[..n]), lists[n]);
    }
  }

  lemma IdsOfConcat(a: seq<Symbol>, b: seq<Symbol>)
    ensures Ids(a + b) == Ids(a) + Ids(b)
  {
  }

  lemma DistinctByIds(a: seq<Symbol>, b: seq<Symbol>)
    requires DistinctIds(a) && Ids(a) == Ids(b)
    ensures DistinctIds(b)
  {
    assert |a| == |Ids(a)| && |b| == |Ids(b)|;
    assert forall i :: 0 <= i < |a| ==> Ids(a)[i] == a[i].id && Ids(b)[i] == b[i].id;
  }

  /** A full parse, which drops repeats file by file before it numbers the symbols, keeps the very ids that one
      dedup over everything extracted from the tree would keep, in that order. */
  lemma {:induction false} FullParseIsOneDedup(w: World, version: nat, files: seq<FileNode>)
    requires UniquePaths(files)
    ensures Ids(FullParse(w, version, files).symbols) == Ids(DedupeById(Flat(RawLists(w, version, files))))
  {
    var slices, lists := ParsedSlices(w, version, files), RawLists(w, version, files);
    var each := DedupeEach(lists);
    EmptyCacheParsesAll(w, version, files);
    MergeIsPlain(w, version, map[], files);
    UsedSlicesOfFiles(w, version, map[], files);
    MergedIdsAreDistinct(slices, files);
    forall i | 0 <= i < |files|
      ensures Ids(slices[i].symbols) == Ids(each[i])
    {
      ParsedIds(w, version, files[i]);
    }
    FlatIds(slices, each);
    DistinctByIds(AllSymbols(slices), Flat(each));
    DedupeOfDistinct(Flat(each));
    DedupeOfFlat(lists);
  }

  // ---------------------------------------------------------------- sequences of runs

  /** A run over the tree of the moment; `saved` is false when it dies before the cache is saved, or the save fails. */
  datatype Run = Run(version: nat, files: seq<FileNode>, saved: bool)

  ghost predicate ValidRuns(runs: seq<Run>) {
    forall k :: 0 <= k < |runs| ==> UniquePaths(runs[k].files)
  }

  /** Runs with no files or no symbols return before anything is persisted. */
  predicate Persists(w: World, cache: Cache, r: Run) {
    r.files != [] && IncrementalParse(w, r.version, cache, r.files).symbols != []
  }

  function CacheAfter(w: World, runs: seq<Run>): Cache {
    if runs == [] then map[]
    else
      var cache, r := CacheAfter(w, runs[..|runs| - 1]), runs[|runs| - 1];
      if Persists(w, cache, r) && r.saved then NextCache(w, r.version, cache, r.files) else cache
  }

  /** In every sequence of runs, edits and upgrades of the parser, each cache entry is the parse of the content with
      its hash. */
  lemma {:induction false} CacheIsAlwaysOk(w: World, runs: seq<Run>)
    requires ValidRuns(runs)
    ensures CacheOk(w, CacheAfter(w, runs))
  {
    if runs != [] {
      var r := runs[|runs| - 1];
      CacheIsAlwaysOk(w, runs[..|runs| - 1]);
      NextCacheOk(w, r.version, CacheAfter(w, runs[..|runs| - 1]), r.files);
    }
  }

  /** From an empty cache, over any sequence of runs, run k gives what a full parse of its tree gives, unless a file
      falls back. */
  lemma EveryRunEqualsFull(w: World, runs: seq<Run>, k: nat)
    requires InjectiveHash(w) && ValidRuns(runs) && k < |runs|
    ensures var prior, r := CacheAfter(w, runs[..k]), runs[k];
            IncrementalParse(w, r.version, prior, r.files) == FullParse(w, r.version, r.files) <==>
            forall i :: 0 <= i < |r.files| ==> !FallsBack(w, r.version, prior, r.files[i])
  {
    CacheIsAlwaysOk(w, runs[..k]);
    IncrementalEqualsFull(w, runs[k].version, CacheAfter(w, runs[..k]), runs[k].files);
  }

  /** In particular when the parser skips no walked file. */
  lemma NoSkipsMeansFull(w: World, runs: seq<Run>, k: nat)
    requires InjectiveHash(w) && ValidRuns(runs) && k < |runs|
    requires forall i :: 0 <= i < |runs[k].files| ==> ParseNow(w, runs[k].version, runs[k].files[i]).Some?
    ensures IncrementalParse(w, runs[k].version, CacheAfter(w, runs[..k]), runs[k].files) ==
            FullParse(w, runs[k].version, runs[k].files)
  {
    EveryRunEqualsFull(w, runs, k);
  }

  /** A parser that accepts one text only, and a file that holds it until its mtime is 2. */
  function BrokenByAnEdit(): World {
    World((p, m) => Some(if m == 1 then "good" else "bad"), c => c,
          (v, p, c) => if c == "good" then Some(Extract([RawSymbol("f", "function", 0, 0, "")], [])) else None)
  }

  lemma FallingBackKeeps(w: World, version: nat, prior: Cache, f: FileNode)
    requires FallsBack(w, version, prior, f) && prior[f.path].slice.symbols != []
    ensures IncrementalParse(w, version, prior, [f]).symbols != [] && FullParse(w, version, [f]).symbols == []
  {
    OneFile(w, version, prior, f);
    assert ParsedSlices(w, version, [f]) == [NOTHING];
  }

  /** It does happen: the second run keeps the symbol of a text that is gone, where a full parse has none. */
  lemma AFileThatFallsBack()
    ensures var w := BrokenByAnEdit();
            var runs := [Run(1, [FileNode("a.ts", 1)], true), Run(1, [FileNode("a.ts", 2)], true)];
            && InjectiveHash(w) && ValidRuns(runs)
            && IncrementalParse(w, 1, CacheAfter(w, runs[..1]), runs[1].files).symbols != []
            && FullParse(w, 1, runs[1].files).symbols == []
  {
    var w := BrokenByAnEdit();
    assert InjectiveHash(w);
    hide *;
    var f, g := FileNode("a.ts", 1), FileNode("a.ts", 2);
    var first := Run(1, [f], true);
    var runs := [first, Run(1, [g], true)];
    assert runs[..1] == [first];
    OneFile(w, 1, map[], f);
    var slice := SliceOf(Used(w, 1, map[], f));
    TwoRunsAreValid(runs[0], runs[1]);
    FallingBackKeeps(w, 1, map["a.ts" := Entry("good", 1, 1, slice)], g);
  }

  lemma TwoRunsAreValid(a: Run, b: Run)
    requires |a.files| <= 1 && |b.files| <= 1
    ensures ValidRuns([a, b])
  {
  }

  lemma OneFile(w: World, version: nat, prior: Cache, f: FileNode)
    ensures var slice := SliceOf(Used(w, version, prior, f));
            && IncrementalParse(w, version, prior, [f]).symbols == DedupeById(slice.symbols)
            && (slice.symbols != [] ==> DedupeById(slice.symbols) != [])
    ensures var e := Used(w, version, prior, f);
            NextCache(w, version, prior, [f]) == if e.Some? then map[f.path := e.value] else map[]
    ensures AllSymbols([NOTHING]) == []
  {
    hide Used;
    var slice := SliceOf(Used(w, version, prior, f));
    assert UsedSlices(w, version, prior, [f]) == [slice];
    assert [slice][..0] == [] && [f][..0] == [] && [NOTHING][..0] == [];
    assert AllSymbols([slice]) == slice.symbols;
    if slice.symbols != [] {
      assert HasId(slice.symbols, slice.symbols[0].id);
      DedupeKeepsIds(slice.symbols);
      assert HasId(DedupeById(slice.symbols), slice.symbols[0].id);
    }
  }
}
