/**
 Whole indexing runs over a parse cache and a store: phase 2, the fold of property reads, the delta write
 and the save of the cache (runIndexingPipeline in src/application/indexing/pipeline.ts), over any sequence
 of runs, edits and crashes.
 */
module IncrementalIndex {
  import opened Prelude
  import opened Symbols
  import opened Incremental
  import opened AccessedKeys
  import opened DeltaStore

  type Path = Incremental.Path

  /** An end of a resolved relationship: an intra-run id, or anything else. */
  datatype Ref = SymbolRef(id: SymbolId) | Synthetic(name: string)
  datatype Relationship = Relationship(source: Ref, target: Ref, edgeType: string)

  /** Resolution is global and not part of this model: any function of the symbols and hints. */
  type Resolver = (seq<Symbol>, seq<Hint>) -> seq<Relationship>

  /** The key of the symbol with this id. */
  function KeyOfId(symbols: seq<Symbol>, id: SymbolId): Option<LogicalKey> {
    if symbols == [] then None
    else if symbols[|symbols| - 1].id == id then Some(symbols[|symbols| - 1].key)
    else KeyOfId(symbols[..|symbols| - 1], id)
  }

  /** Ids become keys at the persist boundary; everything else falls through. */
  function KeyOf(symbols: seq<Symbol>, r: Ref): End {
    match r
    case Synthetic(name) => Other(name)
    case SymbolRef(id) =>
      var k := KeyOfId(symbols, id);
      if k.Some? then Node(k.value) else Other(id.name)
  }

  function Keyed(symbols: seq<Symbol>, rels: seq<Relationship>): (r: seq<Link>)
    ensures |r| == |rels|
  {
    seq(|rels|, i requires 0 <= i < |rels| =>
      Link(rels[i].edgeType, KeyOf(symbols, rels[i].source), KeyOf(symbols, rels[i].target)))
  }

  /** The symbols and links that parsed files lead to. */
  function Folded(parsed: Parsed): seq<Symbol> {
    Attach(parsed.symbols, parsed.hints)
  }

  function LinksOf(resolve: Resolver, parsed: Parsed): seq<Link> {
    Keyed(Folded(parsed), resolve(Folded(parsed), parsed.hints))
  }

  /** The store a run that parses everything writes into an empty one. */
  function FullIndex(resolve: Resolver, parsed: Parsed): Store {
    FullWrite(Folded(parsed), LinksOf(resolve, parsed))
  }

  function PlanOf(w: World, resolve: Resolver, version: nat, prior: Cache, files: seq<FileNode>): Plan {
    var parsed := IncrementalParse(w, version, prior, files);
    var delta := DeltaNow(w, version, prior, files);
    Plan(delta.removedAndChanged, InScope(Folded(parsed), delta.addedAndChanged), LinksOf(resolve, parsed))
  }

  // ---------------------------------------------------------------- rows of a file

  lemma {:induction false} FoundAttached(symbols: seq<Symbol>, hints: seq<Hint>, k: LogicalKey)
    ensures RowFound(Attach(symbols, hints), k) ==
            (var s := Find(symbols, k); if s.Some? then Some(RowOf(AttachOne(s.value, hints))) else None)
  {
    if symbols != [] {
      var init := symbols[..|symbols| - 1];
      FoundAttached(init, hints, k);
      var r := Attach(symbols, hints);
      assert r[..|r| - 1] == Attach(init, hints) && r[|r| - 1] == AttachOne(symbols[|symbols| - 1], hints);
      hide Attach;
    }
  }

  function Find(symbols: seq<Symbol>, k: LogicalKey): Option<Symbol> {
    if symbols == [] then None
    else if symbols[|symbols| - 1].key == k then Some(symbols[|symbols| - 1])
    else Find(symbols[..|symbols| - 1], k)
  }

  lemma {:induction false} FindInConcat(a: seq<Symbol>, b: seq<Symbol>, k: LogicalKey)
    ensures Find(a + b, k) == if Find(b, k).Some? then Find(b, k) else Find(a, k)
  {
    if b == [] {
      assert a + b == a;
    } else {
      FindInConcat(a, b[..|b| - 1], k);
      assert (a + b)[..|a + b| - 1] == a + b[..|b| - 1];
    }
  }

  lemma {:induction false} FoundIsOfFile(symbols: seq<Symbol>, path: Path, k: LogicalKey)
    requires forall i :: 0 <= i < |symbols| ==> SymbolOfFile(symbols[i], path)
    ensures Find(symbols, k).Some? ==> k.file == path && SymbolOfFile(Find(symbols, k).value, path)
  {
    if symbols != [] && symbols[|symbols| - 1].key != k {
      FoundIsOfFile(symbols[..|symbols| - 1], path, k);
    }
  }

  /** The row that a file's own parse gives a key. */
  function SliceRow(slice: Slice, k: LogicalKey): Option<Row> {
    var s := Find(slice.symbols, k);
    if s.Some? then Some(RowOf(AttachOne(s.value, slice.hints))) else None
  }

  lemma {:induction false} FoundInSlices(slices: seq<Slice>, files: seq<FileNode>, k: LogicalKey)
    requires SlicesOfFiles(slices, files) && UniquePaths(files)
    ensures forall i :: 0 <= i < |files| && files[i].path == k.file ==>
              Find(AllSymbols(slices), k) == Find(slices[i].symbols, k)
    ensures (forall i :: 0 <= i < |files| ==> files[i].path != k.file) ==> Find(AllSymbols(slices), k).None?
  {
    if slices != [] {
      var n := |slices| - 1;
      FoundInSlices(slices[..n], files[..n], k);
      FindInConcat(AllSymbols(slices[..n]), slices[n].symbols, k);
      FoundIsOfFile(slices[n].symbols, files[n].path, k);
      hide AllSymbols, Find;
      assert forall i :: 0 <= i < n ==> files[..n][i] == files[i] && slices[..n][i] == slices[i];
    }
  }

  /** The row a run gives a key comes from the parse of the key's file alone. */
  lemma RowsAreLocal(slices: seq<Slice>, files: seq<FileNode>, i: nat, k: LogicalKey)
    requires SlicesOfFiles(slices, files) && UniquePaths(files)
    requires i < |files| && files[i].path == k.file
    ensures RowFound(Attach(AllSymbols(slices), AllHints(slices)), k) == SliceRow(slices[i], k)
  {
    FoundAttached(AllSymbols(slices), AllHints(slices), k);
    FoundInSlices(slices, files, k);
    var s := Find(slices[i].symbols, k);
    FoundIsOfFile(slices[i].symbols, files[i].path, k);
    if s.Some? {
      ReadsAreLocal(slices, files, i, s.value.id);
    }
  }

  lemma NoRowsElsewhere(slices: seq<Slice>, files: seq<FileNode>, k: LogicalKey)
    requires SlicesOfFiles(slices, files) && UniquePaths(files)
    requires forall i :: 0 <= i < |files| ==> files[i].path != k.file
    ensures RowFound(Attach(AllSymbols(slices), AllHints(slices)), k) == None
  {
    FoundAttached(AllSymbols(slices), AllHints(slices), k);
    FoundInSlices(slices, files, k);
  }

  lemma {:induction false} FoldedIsKeyed(w: World, version: nat, prior: Cache, files: seq<FileNode>)
    requires CacheOk(w, prior) && UniquePaths(files)
    ensures var parsed := IncrementalParse(w, version, prior, files);
            var slices := UsedSlices(w, version, prior, files);
            Folded(parsed) == Attach(AllSymbols(slices), AllHints(slices)) && KeyedByFile(Folded(parsed))
    ensures SlicesOfFiles(UsedSlices(w, version, prior, files), files)
  {
    var slices := UsedSlices(w, version, prior, files);
    MergeIsPlain(w, version, prior, files);
    UsedSlicesOfFiles(w, version, prior, files);
    var symbols := AllSymbols(slices);
    var folded := Attach(symbols, AllHints(slices));
    forall j | 0 <= j < |folded|
      ensures folded[j].key.file == folded[j].file
    {
      SymbolsOfFiles(slices, files, j);
      assert folded[j] == AttachOne(symbols[j], AllHints(slices));
    }
  }

  // ---------------------------------------------------------------- what a full index holds

  ghost predicate DistinctKeys(symbols: seq<Symbol>) {
    forall i, j :: 0 <= i < j < |symbols| ==> symbols[i].key != symbols[j].key
  }

  lemma {:induction false} MergedKeysAreDistinct(slices: seq<Slice>, files: seq<FileNode>)
    requires SlicesOfFiles(slices, files) && UniquePaths(files)
    ensures DistinctKeys(AllSymbols(slices))
  {
    if slices != [] {
      var n := |slices| - 1;
      MergedKeysAreDistinct(slices[..n], files[..n]);
      var before, last := AllSymbols(slices[..n]), slices[n].symbols;
      forall k, j | 0 <= k < |before| && 0 <= j < |last|
        ensures before[k].key != last[j].key
      {
        SymbolsOfFiles(slices[..n], files[..n], k);
        var i :| 0 <= i < n && SymbolOfFile(before[k], files[..n][i].path);
        assert files[..n][i] == files[i] && files[i].path != files[n].path;
        assert SymbolOfFile(last[j], files[n].path);
      }
    }
  }

  /** The symbols of a run have ids and keys of their own. */
  lemma FoldedIsDistinct(w: World, version: nat, prior: Cache, files: seq<FileNode>)
    requires CacheOk(w, prior) && UniquePaths(files)
    ensures var symbols := Folded(IncrementalParse(w, version, prior, files));
            DistinctIds(symbols) && DistinctKeys(symbols)
  {
    var slices := UsedSlices(w, version, prior, files);
    FoldedIsKeyed(w, version, prior, files);
    MergedIdsAreDistinct(slices, files);
    MergedKeysAreDistinct(slices, files);
    var plain, symbols := AllSymbols(slices), Folded(IncrementalParse(w, version, prior, files));
    assert forall i :: 0 <= i < |symbols| ==> symbols[i].id == plain[i].id && symbols[i].key == plain[i].key;
  }

  lemma {:induction false} KeyOfEach(symbols: seq<Symbol>, a: nat)
    requires DistinctIds(symbols) && a < |symbols|
    ensures KeyOfId(symbols, symbols[a].id) == Some(symbols[a].key)
  {
    if a < |symbols| - 1 {
      KeyOfEach(symbols[..|symbols| - 1], a);
    }
  }

  lemma {:induction false} KeyOfSome(symbols: seq<Symbol>, id: SymbolId) returns (a: nat)
    requires KeyOfId(symbols, id).Some?
    ensures a < |symbols| && symbols[a].id == id && KeyOfId(symbols, id) == Some(symbols[a].key)
  {
    if symbols[|symbols| - 1].id == id {
      a := |symbols| - 1;
    } else {
      a := KeyOfSome(symbols[..|symbols| - 1], id);
    }
  }

  lemma {:induction false} RowOfEach(symbols: seq<Symbol>, a: nat)
    requires DistinctKeys(symbols) && a < |symbols|
    ensures RowFound(symbols, symbols[a].key) == Some(RowOf(symbols[a]))
  {
    if a < |symbols| - 1 {
      RowOfEach(symbols[..|symbols| - 1], a);
    }
  }

  lemma {:induction false} RowOfSome(symbols: seq<Symbol>, k: LogicalKey) returns (a: nat)
    requires RowFound(symbols, k).Some?
    ensures a < |symbols| && symbols[a].key == k
  {
    if symbols[|symbols| - 1].key == k {
      a := |symbols| - 1;
    } else {
      a := RowOfSome(symbols[..|symbols| - 1], k);
    }
  }

  /** The table of a full index: one row per symbol, under its own key. */
  lemma FullRowsAre(w: World, resolve: Resolver, version: nat, prior: Cache, files: seq<FileNode>)
    requires CacheOk(w, prior) && UniquePaths(files)
    ensures var parsed := IncrementalParse(w, version, prior, files);
            var symbols, rows := Folded(parsed), FullIndex(resolve, parsed).rows;
            && (forall a :: 0 <= a < |symbols| ==> Lookup(rows, symbols[a].key) == Some(RowOf(symbols[a])))
            && (forall k :: k in rows ==> exists a :: 0 <= a < |symbols| && symbols[a].key == k)
  {
    var parsed := IncrementalParse(w, version, prior, files);
    var symbols := Folded(parsed);
    FoldedIsDistinct(w, version, prior, files);
    FullWriteIs(symbols, LinksOf(resolve, parsed));
    var rows := FullIndex(resolve, parsed).rows;
    forall a | 0 <= a < |symbols|
      ensures Lookup(rows, symbols[a].key) == Some(RowOf(symbols[a]))
    {
      LookupUpsert(map[], symbols, symbols[a].key);
      RowOfEach(symbols, a);
    }
    forall k | k in rows
      ensures exists a :: 0 <= a < |symbols| && symbols[a].key == k
    {
      LookupUpsert(map[], symbols, k);
      var a := RowOfSome(symbols, k);
    }
  }

  /** Two symbols, of which the first is the source and the second the target of a relationship of this type. */
  ghost predicate Relates(symbols: seq<Symbol>, rels: seq<Relationship>, e: Edge) {
    exists i, a, b :: 0 <= i < |rels| && 0 <= a < |symbols| && 0 <= b < |symbols|
                      && RelatesAt(symbols, rels, e, i, a, b)
  }

  ghost predicate RelatesAt(symbols: seq<Symbol>, rels: seq<Relationship>, e: Edge, i: nat, a: nat, b: nat)
    requires i < |rels| && a < |symbols| && b < |symbols|
  {
    && rels[i] == Relationship(SymbolRef(symbols[a].id), SymbolRef(symbols[b].id), e.edgeType)
    && e.from == symbols[a].key && e.to == symbols[b].key
  }

  lemma {:induction false} LandedAre(links: seq<Link>, keys: set<LogicalKey>, e: Edge)
    ensures e in Landed(links, keys) <==> LandsAs(links, keys, e)
  {
    if links != [] {
      var init, last := links[..|links| - 1], links[|links| - 1];
      LandedAre(init, keys, e);
      if LandsAs(init, keys, e) {
        var i :| 0 <= i < |init| && Lands(init[i], keys)
                 && e == Edge(init[i].edgeType, init[i].from.key, init[i].to.key);
        assert links[i] == init[i];
      }
      assert forall i :: 0 <= i < |init| ==> links[i] == init[i];
      assert links[|init|] == last;
    }
  }

  ghost predicate LandsAs(links: seq<Link>, keys: set<LogicalKey>, e: Edge) {
    exists i :: 0 <= i < |links| && Lands(links[i], keys)
                && e == Edge(links[i].edgeType, links[i].from.key, links[i].to.key)
  }

  lemma LandsIffRelates(symbols: seq<Symbol>, rels: seq<Relationship>, keys: set<LogicalKey>, e: Edge)
    requires DistinctIds(symbols) && forall a :: 0 <= a < |symbols| ==> symbols[a].key in keys
    ensures LandsAs(Keyed(symbols, rels), keys, e) <==> BetweenSymbols(e.edgeType) && Relates(symbols, rels, e)
  {
    var links := Keyed(symbols, rels);
    hide BetweenSymbols;
    if LandsAs(links, keys, e) {
      var i :| 0 <= i < |links| && Lands(links[i], keys)
               && e == Edge(links[i].edgeType, links[i].from.key, links[i].to.key);
      assert rels[i].source.SymbolRef? && rels[i].target.SymbolRef?;
      var a := KeyOfSome(symbols, rels[i].source.id);
      var b := KeyOfSome(symbols, rels[i].target.id);
      assert RelatesAt(symbols, rels, e, i, a, b);
    }
    if BetweenSymbols(e.edgeType) && Relates(symbols, rels, e) {
      var i, a, b :| 0 <= i < |rels| && 0 <= a < |symbols| && 0 <= b < |symbols|
                     && RelatesAt(symbols, rels, e, i, a, b);
      KeyOfEach(symbols, a);
      KeyOfEach(symbols, b);
      assert Lands(links[i], keys) && e == Edge(links[i].edgeType, links[i].from.key, links[i].to.key);
    }
  }

  /** The edges of a full index: exactly the resolved relationships from symbol to symbol, by the keys of their ends. */
  lemma FullEdgesAre(w: World, resolve: Resolver, version: nat, prior: Cache, files: seq<FileNode>, e: Edge)
    requires CacheOk(w, prior) && UniquePaths(files)
    ensures var parsed := IncrementalParse(w, version, prior, files);
            e in FullIndex(resolve, parsed).edges <==>
            && e.edgeType != "CONTAINS" && e.edgeType != "HAS_STEP" && e.edgeType != "DEPENDS_ON"
            && Relates(Folded(parsed), resolve(Folded(parsed), parsed.hints), e)
  {
    var parsed := IncrementalParse(w, version, prior, files);
    assert BetweenSymbols(e.edgeType) <==>
           e.edgeType != "CONTAINS" && e.edgeType != "HAS_STEP" && e.edgeType != "DEPENDS_ON";
    var symbols := Folded(parsed);
    var rels := resolve(symbols, parsed.hints);
    FoldedIsDistinct(w, version, prior, files);
    FullWriteIs(symbols, LinksOf(resolve, parsed));
    FullRowsAre(w, resolve, version, prior, files);
    var keys := FullIndex(resolve, parsed).rows.Keys;
    hide *;
    LandedAre(Keyed(symbols, rels), keys, e);
    LandsIffRelates(symbols, rels, keys, e);
    FullEdgesUnfold(resolve, parsed, e);
  }

  lemma FullEdgesUnfold(resolve: Resolver, parsed: Parsed, e: Edge)
    ensures var full := FullIndex(resolve, parsed);
            e in full.edges <==>
            e in Landed(Keyed(Folded(parsed), resolve(Folded(parsed), parsed.hints)), full.rows.Keys)
  {
    FullWriteIs(Folded(parsed), LinksOf(resolve, parsed));
  }

  // ---------------------------------------------------------------- the scope of a delta write

  ghost predicate WalkedPath(files: seq<FileNode>, p: Path) {
    exists i :: 0 <= i < |files| && files[i].path == p
  }

  lemma DeltaHolds(w: World, version: nat, prior: Cache, files: seq<FileNode>, i: nat)
    requires UniquePaths(files) && i < |files|
    ensures var delta, b := DeltaNow(w, version, prior, files), BucketNow(w, version, prior, files[i]);
            && (files[i].path in delta.removedAndChanged <==> b == Changed)
            && (files[i].path in delta.addedAndChanged <==> b != Unchanged)
  {
    var hashed := Hashed(w, prior, files);
    var c := Classify(hashed, prior, version);
    var f := files[i];
    assert hashed[i] == ClassifiableFile(f, CurrentHash(w, prior, f));
    InBucketHolds(hashed, prior, version, Changed);
    InBucketHolds(hashed, prior, version, Added);
    OnlyItsBucket(w, version, prior, files, i, Changed);
    OnlyItsBucket(w, version, prior, files, i, Added);
    assert Walked(hashed, f.path);
    assert f.path in Paths(c.changed) <==> BucketNow(w, version, prior, f) == Changed;
    assert f.path in Paths(c.added) <==> BucketNow(w, version, prior, f) == Added;
  }

  lemma OnlyItsBucket(w: World, version: nat, prior: Cache, files: seq<FileNode>, i: nat, b: Bucket)
    requires UniquePaths(files) && i < |files|
    ensures var inBucket := InBucket(Hashed(w, prior, files), prior, version, b);
            && (files[i] in inBucket <==> BucketNow(w, version, prior, files[i]) == b)
            && (files[i].path in Paths(inBucket) <==> BucketNow(w, version, prior, files[i]) == b)
  {
    var hashed := Hashed(w, prior, files);
    var inBucket := InBucket(hashed, prior, version, b);
    InBucketHolds(hashed, prior, version, b);
    assert hashed[i] == ClassifiableFile(files[i], CurrentHash(w, prior, files[i]));
    if files[i].path in Paths(inBucket) {
      var g :| g in inBucket && g.path == files[i].path;
      assert PutIn(hashed, prior, version, b, g);
      var j :| 0 <= j < |hashed| && hashed[j].node == g && BucketOf(hashed[j], prior, version) == b;
      assert files[j].path == files[i].path && j == i;
    }
    if BucketNow(w, version, prior, files[i]) == b {
      assert PutIn(hashed, prior, version, b, files[i]);
      assert files[i] in inBucket;
    }
  }

  lemma DeltaElsewhere(w: World, version: nat, prior: Cache, files: seq<FileNode>, p: Path)
    requires !WalkedPath(files, p)
    ensures var delta := DeltaNow(w, version, prior, files);
            (p in delta.removedAndChanged <==> p in prior) && p !in delta.addedAndChanged
  {
    var hashed := Hashed(w, prior, files);
    var c := Classify(hashed, prior, version);
    InBucketHolds(hashed, prior, version, Changed);
    InBucketHolds(hashed, prior, version, Added);
    forall f | f in c.changed || f in c.added
      ensures f.path != p
    {
      var i :| 0 <= i < |hashed| && hashed[i].node == f;
      assert files[i] == f;
    }
    assert forall i :: 0 <= i < |hashed| ==> hashed[i].node == files[i];
    assert !Walked(hashed, p);
  }

  // ---------------------------------------------------------------- one run, attempted any number of times

  datatype State = State(cache: Cache, store: Store)

  /** The row the cached parse of a key's file gives it. */
  function CachedRow(cache: Cache, k: LogicalKey): Option<Row> {
    if k.file in cache then SliceRow(cache[k.file].slice, k) else None
  }

  /** The symbol table is that of the cached parses. */
  ghost predicate TableOfCache(rows: map<LogicalKey, Row>, cache: Cache) {
    forall k :: Lookup(rows, k) == CachedRow(cache, k)
  }

  /** Holds between runs, whatever was edited and however often they crashed. */
  ghost predicate Inv(w: World, s: State) {
    CacheOk(w, s.cache) && Sound(s.store) && TableOfCache(s.store.rows, s.cache)
  }

  /** The table of the last run is what the next one needs of the rows it finds. */
  lemma TableFits(w: World, version: nat, prior: Cache, files: seq<FileNode>, rows: map<LogicalKey, Row>)
    requires CacheOk(w, prior) && UniquePaths(files) && TableOfCache(rows, prior)
    ensures var delta := DeltaNow(w, version, prior, files);
            Fits(rows, Folded(IncrementalParse(w, version, prior, files)), delta.removedAndChanged,
                 delta.addedAndChanged)
  {
    var delta := DeltaNow(w, version, prior, files);
    var slices := UsedSlices(w, version, prior, files);
    var symbols := Folded(IncrementalParse(w, version, prior, files));
    FoldedIsKeyed(w, version, prior, files);
    forall k: LogicalKey
      ensures FitsAt(rows, symbols, delta.removedAndChanged, delta.addedAndChanged, k)
    {
      assert Lookup(rows, k) == CachedRow(prior, k);
      if WalkedPath(files, k.file) {
        var i :| 0 <= i < |files| && files[i].path == k.file;
        DeltaHolds(w, version, prior, files, i);
        if BucketNow(w, version, prior, files[i]) == Unchanged {
          RowsAreLocal(slices, files, i, k);
        }
      } else {
        DeltaElsewhere(w, version, prior, files, k.file);
        NoRowsElsewhere(slices, files, k);
      }
    }
  }

  lemma {:induction false} RemovedHaveNoRows(w: World, version: nat, prior: Cache, files: seq<FileNode>, k: LogicalKey)
    requires CacheOk(w, prior) && UniquePaths(files)
    requires var delta := DeltaNow(w, version, prior, files);
             k.file in delta.removedAndChanged && k.file !in delta.addedAndChanged
    ensures RowFound(Folded(IncrementalParse(w, version, prior, files)), k).None?
  {
    FoldedIsKeyed(w, version, prior, files);
    if WalkedPath(files, k.file) {
      var i :| 0 <= i < |files| && files[i].path == k.file;
      DeltaHolds(w, version, prior, files, i);
      assert false;
    } else {
      NoRowsElsewhere(UsedSlices(w, version, prior, files), files, k);
    }
  }

  /** A run's full table is the table of the cache it saves. */
  lemma FullTableIsNextCache(w: World, resolve: Resolver, version: nat, prior: Cache, files: seq<FileNode>)
    requires CacheOk(w, prior) && UniquePaths(files)
    ensures TableOfCache(FullIndex(resolve, IncrementalParse(w, version, prior, files)).rows,
                         NextCache(w, version, prior, files))
  {
    var parsed := IncrementalParse(w, version, prior, files);
    var slices := UsedSlices(w, version, prior, files);
    var next := NextCache(w, version, prior, files);
    FoldedIsKeyed(w, version, prior, files);
    FullWriteIs(Folded(parsed), LinksOf(resolve, parsed));
    NextCacheHolds(w, version, prior, files);
    var rows := FullIndex(resolve, parsed).rows;
    forall k
      ensures Lookup(rows, k) == CachedRow(next, k)
    {
      LookupUpsert(map[], Folded(parsed), k);
      if WalkedPath(files, k.file) {
        var i :| 0 <= i < |files| && files[i].path == k.file;
        RowsAreLocal(slices, files, i, k);
        assert CachedAs(next, files[i].path, Used(w, version, prior, files[i]));
      } else {
        NoRowsElsewhere(slices, files, k);
      }
    }
  }

  /** From any store that fits, a delta write gives the full table; and only from such a store. */
  lemma {:induction false} DeltaTableIff(w: World, resolve: Resolver, version: nat, prior: Cache, files: seq<FileNode>,
                                         store: Store)
    requires CacheOk(w, prior) && UniquePaths(files) && Sound(store)
    ensures var parsed, delta := IncrementalParse(w, version, prior, files), DeltaNow(w, version, prior, files);
            ApplyAll(store, Writes(PlanOf(w, resolve, version, prior, files))).rows ==
            FullIndex(resolve, parsed).rows <==>
            Fits(store.rows, Folded(parsed), delta.removedAndChanged, delta.addedAndChanged)
  {
    var parsed, delta := IncrementalParse(w, version, prior, files), DeltaNow(w, version, prior, files);
    FoldedIsKeyed(w, version, prior, files);
    forall k: LogicalKey | k.file in delta.removedAndChanged && k.file !in delta.addedAndChanged
      ensures RowFound(Folded(parsed), k).None?
    {
      RemovedHaveNoRows(w, version, prior, files, k);
    }
    DeltaIsExactIff(store, Folded(parsed), delta.removedAndChanged, delta.addedAndChanged, LinksOf(resolve, parsed));
  }

  /** The attempts of a run over one tree: each but the last dies after some number of writes, before the cache is
      saved. */
  datatype Episode = Episode(version: nat, files: seq<FileNode>, resolve: Resolver, crashes: seq<nat>)

  predicate PersistsNow(w: World, s: State, e: Episode) {
    e.files != [] && IncrementalParse(w, e.version, s.cache, e.files).symbols != []
  }

  function AfterEpisode(w: World, s: State, e: Episode): State {
    if !PersistsNow(w, s, e) then s
    else
      var writes := Writes(PlanOf(w, e.resolve, e.version, s.cache, e.files));
      State(NextCache(w, e.version, s.cache, e.files), ApplyAll(AfterCrashes(s.store, writes, e.crashes), writes))
  }

  function AfterAll(w: World, episodes: seq<Episode>): State {
    if episodes == [] then State(map[], EMPTY)
    else AfterEpisode(w, AfterAll(w, episodes[..|episodes| - 1]), episodes[|episodes| - 1])
  }

  ghost predicate ValidEpisodes(episodes: seq<Episode>) {
    forall k :: 0 <= k < |episodes| ==> UniquePaths(episodes[k].files)
  }

  lemma PlanIsKeyed(w: World, resolve: Resolver, version: nat, prior: Cache, files: seq<FileNode>)
    requires CacheOk(w, prior) && UniquePaths(files)
    ensures KeyedByFile(PlanOf(w, resolve, version, prior, files).symbols)
  {
    FoldedIsKeyed(w, version, prior, files);
    InScopeIsKeyed(Folded(IncrementalParse(w, version, prior, files)),
                   DeltaNow(w, version, prior, files).addedAndChanged);
  }

  /** The crashes of an episode leave no trace. */
  lemma EpisodeIsOneWrite(w: World, s: State, e: Episode)
    requires Inv(w, s) && UniquePaths(e.files) && PersistsNow(w, s, e)
    ensures var plan := PlanOf(w, e.resolve, e.version, s.cache, e.files);
            AfterEpisode(w, s, e) ==
            State(NextCache(w, e.version, s.cache, e.files), ApplyAll(s.store, Writes(plan)))
  {
    var plan := PlanOf(w, e.resolve, e.version, s.cache, e.files);
    PlanIsKeyed(w, e.resolve, e.version, s.cache, e.files);
    AnyCrashesThenRerun(s.store, plan, e.crashes);
  }

  /** After the attempts of a run have ended in one that completes, the symbol table is that of a full write into an
      empty store. */
  lemma EpisodeGivesFullTable(w: World, s: State, e: Episode)
    requires Inv(w, s) && UniquePaths(e.files) && PersistsNow(w, s, e)
    ensures AfterEpisode(w, s, e).store.rows ==
            FullIndex(e.resolve, IncrementalParse(w, e.version, s.cache, e.files)).rows
  {
    EpisodeIsOneWrite(w, s, e);
    TableFits(w, e.version, s.cache, e.files, s.store.rows);
    DeltaTableIff(w, e.resolve, e.version, s.cache, e.files, s.store);
  }

  lemma EpisodeKeepsInv(w: World, s: State, e: Episode)
    requires Inv(w, s) && UniquePaths(e.files)
    ensures Inv(w, AfterEpisode(w, s, e))
  {
    if PersistsNow(w, s, e) {
      var plan := PlanOf(w, e.resolve, e.version, s.cache, e.files);
      EpisodeIsOneWrite(w, s, e);
      EpisodeGivesFullTable(w, s, e);
      FullTableIsNextCache(w, e.resolve, e.version, s.cache, e.files);
      NextCacheOk(w, e.version, s.cache, e.files);
      PlanIsKeyed(w, e.resolve, e.version, s.cache, e.files);
      AllWritten(s.store, plan);
      PartialSound(s.store, plan, |plan.symbols|, |plan.links|);
    }
  }

  lemma {:induction false} InvAlways(w: World, episodes: seq<Episode>)
    requires ValidEpisodes(episodes)
    ensures Inv(w, AfterAll(w, episodes))
  {
    if episodes != [] {
      var init := episodes[..|episodes| - 1];
      InvAlways(w, init);
      EpisodeKeepsInv(w, AfterAll(w, init), episodes[|episodes| - 1]);
    }
  }

  // ---------------------------------------------------------------- against a full parse

  /** A walked file falls back to a cached slice that has symbols. */
  predicate FallsBackToSymbols(w: World, version: nat, prior: Cache, f: FileNode) {
    FallsBack(w, version, prior, f) && prior[f.path].slice.symbols != []
  }

  lemma {:induction false} SameSliceRows(w: World, version: nat, prior: Cache, f: FileNode, k: LogicalKey)
    requires InjectiveHash(w) && CacheOk(w, prior)
    ensures !FallsBackToSymbols(w, version, prior, f) ==>
              SliceRow(SliceOf(Used(w, version, prior, f)), k) == SliceRow(ParsedSlice(ParseNow(w, version, f)), k)
    ensures FallsBackToSymbols(w, version, prior, f) ==>
              SliceRow(ParsedSlice(ParseNow(w, version, f)), k) == None
              && SliceRow(SliceOf(Used(w, version, prior, f)), k) == SliceRow(prior[f.path].slice, k)
  {
    UsedVersusParsed(w, version, prior, f);
  }

  lemma FullParseRow(w: World, resolve: Resolver, version: nat, prior: Cache, files: seq<FileNode>, i: nat,
                     k: LogicalKey)
    requires CacheOk(w, prior) && UniquePaths(files) && i < |files| && files[i].path == k.file
    ensures Lookup(FullIndex(resolve, IncrementalParse(w, version, prior, files)).rows, k) ==
            SliceRow(SliceOf(Used(w, version, prior, files[i])), k)
  {
    var parsed := IncrementalParse(w, version, prior, files);
    FoldedIsKeyed(w, version, prior, files);
    FullWriteIs(Folded(parsed), LinksOf(resolve, parsed));
    LookupUpsert(map[], Folded(parsed), k);
    RowsAreLocal(UsedSlices(w, version, prior, files), files, i, k);
  }

  lemma FullParseNoRow(w: World, resolve: Resolver, version: nat, prior: Cache, files: seq<FileNode>, k: LogicalKey)
    requires CacheOk(w, prior) && UniquePaths(files) && !WalkedPath(files, k.file)
    ensures Lookup(FullIndex(resolve, IncrementalParse(w, version, prior, files)).rows, k) == None
  {
    var parsed := IncrementalParse(w, version, prior, files);
    FoldedIsKeyed(w, version, prior, files);
    FullWriteIs(Folded(parsed), LinksOf(resolve, parsed));
    LookupUpsert(map[], Folded(parsed), k);
    NoRowsElsewhere(UsedSlices(w, version, prior, files), files, k);
  }

  /** The full table of an incremental run is that of a full parse if and only if no walked file falls back to
      symbols. */
  lemma TableOfFullParseIff(w: World, resolve: Resolver, version: nat, prior: Cache, files: seq<FileNode>)
    requires InjectiveHash(w) && CacheOk(w, prior) && UniquePaths(files)
    ensures FullIndex(resolve, IncrementalParse(w, version, prior, files)).rows ==
            FullIndex(resolve, FullParse(w, version, files)).rows <==>
            forall i :: 0 <= i < |files| ==> !FallsBackToSymbols(w, version, prior, files[i])
  {
    EmptyCacheParsesAll(w, version, files);
    var rows := FullIndex(resolve, IncrementalParse(w, version, prior, files)).rows;
    var full := FullIndex(resolve, IncrementalParse(w, version, map[], files)).rows;
    assert FullParse(w, version, files) == IncrementalParse(w, version, map[], files);
    hide *;
    if forall i :: 0 <= i < |files| ==> !FallsBackToSymbols(w, version, prior, files[i]) {
      forall k
        ensures Lookup(rows, k) == Lookup(full, k)
      {
        SameRowUnlessFallback(w, resolve, version, prior, files, k);
      }
      SameLookups(rows, full);
    } else {
      var i :| 0 <= i < |files| && FallsBackToSymbols(w, version, prior, files[i]);
      FallbackRowDiffers(w, resolve, version, prior, files, i);
    }
  }

  lemma {:induction false} SameRowUnlessFallback(w: World, resolve: Resolver, version: nat, prior: Cache,
                                                 files: seq<FileNode>, k: LogicalKey)
    requires InjectiveHash(w) && CacheOk(w, prior) && UniquePaths(files)
    requires forall i :: 0 <= i < |files| ==> !FallsBackToSymbols(w, version, prior, files[i])
    ensures Lookup(FullIndex(resolve, IncrementalParse(w, version, prior, files)).rows, k) ==
            Lookup(FullIndex(resolve, IncrementalParse(w, version, map[], files)).rows, k)
  {
    hide CacheOk, IncrementalParse, FullIndex, Used, ParseNow, FallsBackToSymbols;
    assert CacheOk(w, map[]) by { EmptyCacheIsOk(w); }
    if WalkedPath(files, k.file) {
      var i :| 0 <= i < |files| && files[i].path == k.file;
      FullParseRow(w, resolve, version, prior, files, i, k);
      FullParseRow(w, resolve, version, map[], files, i, k);
      SameSliceRows(w, version, prior, files[i], k);
      EmptyCacheParses(w, version, files[i]);
    } else {
      FullParseNoRow(w, resolve, version, prior, files, k);
      FullParseNoRow(w, resolve, version, map[], files, k);
    }
  }

  lemma EmptyCacheIsOk(w: World)
    ensures CacheOk(w, map[])
  {
  }

  lemma EmptyCacheParses(w: World, version: nat, f: FileNode)
    ensures SliceOf(Used(w, version, map[], f)) == ParsedSlice(ParseNow(w, version, f))
  {
  }

  lemma {:induction false} FallbackRowDiffers(w: World, resolve: Resolver, version: nat, prior: Cache,
                                              files: seq<FileNode>, i: nat)
    requires InjectiveHash(w) && CacheOk(w, prior) && UniquePaths(files)
    requires i < |files| && FallsBackToSymbols(w, version, prior, files[i])
    ensures FullIndex(resolve, IncrementalParse(w, version, prior, files)).rows !=
            FullIndex(resolve, IncrementalParse(w, version, map[], files)).rows
    ensures FullIndex(resolve, IncrementalParse(w, version, prior, files)).rows != map[]
  {
    var f := files[i];
    var symbols := prior[f.path].slice.symbols;
    var k := symbols[|symbols| - 1].key;
    UsedVersusParsed(w, version, prior, f);
    UsedIsOk(w, version, prior, f);
    assert SymbolOfFile(symbols[|symbols| - 1], f.path);
    assert SliceRow(prior[f.path].slice, k).Some?;
    FullParseRow(w, resolve, version, prior, files, i, k);
    FullParseRow(w, resolve, version, map[], files, i, k);
    SameSliceRows(w, version, prior, f, k);
    EmptyCacheParses(w, version, f);
    var rows := FullIndex(resolve, IncrementalParse(w, version, prior, files)).rows;
    var full := FullIndex(resolve, IncrementalParse(w, version, map[], files)).rows;
    assert Lookup(rows, k) != Lookup(full, k) && k in rows;
  }

  /** A tree with no files, or with no symbols, has an empty full table. */
  lemma NoSymbolsNoRows(w: World, resolve: Resolver, version: nat, prior: Cache, files: seq<FileNode>)
    requires files == [] || IncrementalParse(w, version, prior, files).symbols == []
    ensures FullIndex(resolve, IncrementalParse(w, version, prior, files)).rows == map[]
  {
    var parsed := IncrementalParse(w, version, prior, files);
    assert parsed.symbols == [] && Folded(parsed) == [];
    FullWriteIs(Folded(parsed), LinksOf(resolve, parsed));
  }

  // ---------------------------------------------------------------- main results

  /** Over any sequence of edits, upgrades, crashes and reruns, from an empty store and cache: after every run
      that persists, the table is the one a full write of its symbols into an empty store gives; and it is the
      table of a full parse if and only if no walked file falls back to symbols. */
  lemma {:induction false} TheTableIsAlwaysFull(w: World, episodes: seq<Episode>)
    requires InjectiveHash(w) && ValidEpisodes(episodes) && episodes != []
    requires PersistsNow(w, AfterAll(w, episodes[..|episodes| - 1]), episodes[|episodes| - 1])
    ensures var before, e := AfterAll(w, episodes[..|episodes| - 1]), episodes[|episodes| - 1];
            && AfterAll(w, episodes).store.rows ==
                 FullIndex(e.resolve, IncrementalParse(w, e.version, before.cache, e.files)).rows
            && (AfterAll(w, episodes).store.rows == FullIndex(e.resolve, FullParse(w, e.version, e.files)).rows <==>
                  forall i :: 0 <= i < |e.files| ==> !FallsBackToSymbols(w, e.version, before.cache, e.files[i]))
  {
    var before, e := AfterAll(w, episodes[..|episodes| - 1]), episodes[|episodes| - 1];
    InvAlways(w, episodes[..|episodes| - 1]);
    EpisodeGivesFullTable(w, before, e);
    TableOfFullParseIff(w, e.resolve, e.version, before.cache, e.files);
  }

  /** The same of every run, persisting or not: a run over a tree with no files or no symbols leaves the table as
      it was, which is the full one if and only if it was empty. */
  lemma {:induction false} TheTableIsFullIff(w: World, episodes: seq<Episode>)
    requires InjectiveHash(w) && ValidEpisodes(episodes) && episodes != []
    ensures var before, e := AfterAll(w, episodes[..|episodes| - 1]), episodes[|episodes| - 1];
            var rows := AfterAll(w, episodes).store.rows;
            && (rows == FullIndex(e.resolve, IncrementalParse(w, e.version, before.cache, e.files)).rows <==>
                  PersistsNow(w, before, e) || before.store.rows == map[])
            && (rows == FullIndex(e.resolve, FullParse(w, e.version, e.files)).rows <==>
                  if PersistsNow(w, before, e)
                  then forall i :: 0 <= i < |e.files| ==> !FallsBackToSymbols(w, e.version, before.cache, e.files[i])
                  else before.store.rows == map[])
  {
    var before, e := AfterAll(w, episodes[..|episodes| - 1]), episodes[|episodes| - 1];
    if PersistsNow(w, before, e) {
      TheTableIsAlwaysFull(w, episodes);
    } else {
      InvAlways(w, episodes[..|episodes| - 1]);
      NoSymbolsNoRows(w, e.resolve, e.version, before.cache, e.files);
      TableOfFullParseIff(w, e.resolve, e.version, before.cache, e.files);
      assert AfterAll(w, episodes) == before;
      hide AfterAll, IncrementalParse, FullParse, FullIndex, FallsBackToSymbols, PersistsNow;
      forall i | 0 <= i < |e.files|
        ensures !FallsBackToSymbols(w, e.version, before.cache, e.files[i])
      {
        if FallsBackToSymbols(w, e.version, before.cache, e.files[i]) {
          FallbackRowDiffers(w, e.resolve, e.version, before.cache, e.files, i);
        }
      }
    }
  }

  /** Both ends of the edge are in files of this walk that are classified as unchanged. */
  ghost predicate BetweenUnchanged(w: World, version: nat, prior: Cache, files: seq<FileNode>, e: Edge) {
    IsUnchanged(w, version, prior, files, e.from.file) && IsUnchanged(w, version, prior, files, e.to.file)
  }

  ghost predicate IsUnchanged(w: World, version: nat, prior: Cache, files: seq<FileNode>, p: Path) {
    exists i :: 0 <= i < |files| && files[i].path == p && BucketNow(w, version, prior, files[i]) == Unchanged
  }

  lemma CachedStaysIffUnchanged(w: World, version: nat, prior: Cache, files: seq<FileNode>, p: Path)
    requires UniquePaths(files) && p in prior
    ensures p !in DeltaNow(w, version, prior, files).removedAndChanged <==> IsUnchanged(w, version, prior, files, p)
  {
    if WalkedPath(files, p) {
      var i :| 0 <= i < |files| && files[i].path == p;
      DeltaHolds(w, version, prior, files, i);
    } else {
      DeltaElsewhere(w, version, prior, files, p);
    }
  }

  /** After a run, crashes or not, the symbol-to-symbol edges are exactly those of a full write of its symbols and
      the earlier ones between two unchanged files. */
  lemma EpisodeEdges(w: World, s: State, e: Episode)
    requires Inv(w, s) && UniquePaths(e.files) && PersistsNow(w, s, e)
    ensures AfterEpisode(w, s, e).store.edges ==
            FullIndex(e.resolve, IncrementalParse(w, e.version, s.cache, e.files)).edges +
            (set x | x in s.store.edges && BetweenUnchanged(w, e.version, s.cache, e.files, x))
  {
    var parsed, delta := IncrementalParse(w, e.version, s.cache, e.files), DeltaNow(w, e.version, s.cache, e.files);
    EpisodeIsOneWrite(w, s, e);
    EpisodeGivesFullTable(w, s, e);
    DeltaEdges(s.store, Folded(parsed), delta.removedAndChanged, delta.addedAndChanged, LinksOf(e.resolve, parsed));
    forall x | x in s.store.edges
      ensures x.from.file !in delta.removedAndChanged && x.to.file !in delta.removedAndChanged <==>
              BetweenUnchanged(w, e.version, s.cache, e.files, x)
    {
      assert Lookup(s.store.rows, x.from) == CachedRow(s.cache, x.from);
      assert Lookup(s.store.rows, x.to) == CachedRow(s.cache, x.to);
      CachedStaysIffUnchanged(w, e.version, s.cache, e.files, x.from.file);
      CachedStaysIffUnchanged(w, e.version, s.cache, e.files, x.to.file);
    }
  }

  /** The same at every point of every history. */
  lemma {:induction false} EdgesAreFullAndUnchanged(w: World, episodes: seq<Episode>)
    requires ValidEpisodes(episodes) && episodes != []
    requires PersistsNow(w, AfterAll(w, episodes[..|episodes| - 1]), episodes[|episodes| - 1])
    ensures var before, e := AfterAll(w, episodes[..|episodes| - 1]), episodes[|episodes| - 1];
            AfterAll(w, episodes).store.edges ==
            FullIndex(e.resolve, IncrementalParse(w, e.version, before.cache, e.files)).edges +
            (set x | x in before.store.edges && BetweenUnchanged(w, e.version, before.cache, e.files, x))
  {
    InvAlways(w, episodes[..|episodes| - 1]);
    EpisodeEdges(w, AfterAll(w, episodes[..|episodes| - 1]), episodes[|episodes| - 1]);
  }

  /** If no walked file falls back, those are the edges of parsing and writing everything anew, and the earlier ones
      between unchanged files; so nothing is stale if and only if each of the latter is still resolved. */
  lemma EdgesOfAFullRebuildIff(w: World, episodes: seq<Episode>)
    requires InjectiveHash(w) && ValidEpisodes(episodes) && episodes != []
    requires PersistsNow(w, AfterAll(w, episodes[..|episodes| - 1]), episodes[|episodes| - 1])
    ensures var before, e := AfterAll(w, episodes[..|episodes| - 1]), episodes[|episodes| - 1];
            var edges := AfterAll(w, episodes).store.edges;
            var full := FullIndex(e.resolve, FullParse(w, e.version, e.files)).edges;
            (forall i :: 0 <= i < |e.files| ==> !FallsBack(w, e.version, before.cache, e.files[i])) ==>
              && edges == full + (set x | x in before.store.edges
                                          && BetweenUnchanged(w, e.version, before.cache, e.files, x))
              && (edges == full <==>
                    forall x :: x in before.store.edges && BetweenUnchanged(w, e.version, before.cache, e.files, x) ==>
                      x in full)
  {
    var before, e := AfterAll(w, episodes[..|episodes| - 1]), episodes[|episodes| - 1];
    InvAlways(w, episodes[..|episodes| - 1]);
    EdgesAreFullAndUnchanged(w, episodes);
    IncrementalEqualsFull(w, e.version, before.cache, e.files);
    hide AfterAll, FullIndex, FullParse, IncrementalParse, BetweenUnchanged, FallsBack, PersistsNow;
  }
}
