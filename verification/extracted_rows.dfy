/**
 What the symbol table holds, in terms of what the extractor found in the files as they are: names, kinds, files,
 details and the property names read (runIndexingPipeline in src/application/indexing/pipeline.ts).
 */
module ExtractedRows {
  import opened Prelude
  import opened Symbols
  import opened Incremental
  import opened AccessedKeys
  import opened DeltaStore
  import opened IncrementalIndex

  type Path = Incremental.Path

  /** What the extractor finds in a walked file as it is, if it can be read and is not skipped. */
  function ExtractNow(w: World, version: nat, f: FileNode): Option<Extract> {
    match w.disk(f.path, f.mtime)
    case None => None
    case Some(content) => w.extract(version, f.path, content)
  }

  /** Two findings at the same place under the same name are one symbol. */
  predicate SamePlace(a: RawSymbol, b: RawSymbol) {
    a.name == b.name && a.line == b.line && a.column == b.column
  }

  /** A read of this property name was found inside the symbol. */
  ghost predicate ReadIn(x: Extract, r: RawSymbol, name: string) {
    && name != ""
    && exists i :: 0 <= i < |x.hints| && x.hints[i].kind == Access && x.hints[i].targetName == name
                   && x.hints[i].enclosing.Some? && SamePlace(x.hints[i].enclosing.value, r)
  }

  /** The row says of its key's file what was found there. */
  ghost predicate Tells(f: FileNode, x: Extract, r: RawSymbol, k: LogicalKey, row: Row) {
    && k.file == f.path && k.name == r.name && k.kind == r.kind
    && row.name == r.name && row.kind == r.kind && row.filePath == f.path && row.details == r.details
    && Distinct(row.accessedKeys) && forall name :: name in row.accessedKeys <==> ReadIn(x, r, name)
  }

  ghost predicate FoundIn(w: World, version: nat, f: FileNode, k: LogicalKey, row: Row) {
    var x := ExtractNow(w, version, f);
    x.Some? && exists m :: 0 <= m < |x.value.symbols| && Tells(f, x.value, x.value.symbols[m], k, row)
  }

  // ---------------------------------------------------------------- one file

  /** Every symbol of a parse is a finding, with a key of its own file, name and kind. */
  lemma ParsedFrom(path: Path, raw: seq<RawSymbol>, j: nat) returns (m: nat)
    requires j < |AssignLogicalKeys(Stamp(path, raw))|
    ensures m < |raw|
    ensures var s := AssignLogicalKeys(Stamp(path, raw))[j];
            && s.id == IdOf(path, raw[m]) && s.name == raw[m].name && s.kind == raw[m].kind && s.file == path
            && s.details == raw[m].details && s.accessedKeys == []
            && s.key.file == path && s.key.name == raw[m].name && s.key.kind == raw[m].kind
  {
    var stamped := Stamp(path, raw);
    var survivors := DedupeById(stamped);
    AssignedAt(survivors, j);
    DedupeIsFrom(stamped);
    assert survivors[j] in stamped;
    m :| 0 <= m < |stamped| && stamped[m] == survivors[j];
  }

  lemma ReadsAreFound(path: Path, x: Extract, r: RawSymbol, name: string)
    ensures ReadsName(StampHints(path, x.hints), IdOf(path, r), name) <==> ReadIn(x, r, name)
  {
    var hints := StampHints(path, x.hints);
    if ReadsName(hints, IdOf(path, r), name) {
      var i :| 0 <= i < |hints| && hints[i].kind == Access && hints[i].enclosing == Some(IdOf(path, r))
               && hints[i].targetName == name;
      assert x.hints[i].kind == Access && SamePlace(x.hints[i].enclosing.value, r);
    }
    if ReadIn(x, r, name) {
      var i :| 0 <= i < |x.hints| && x.hints[i].kind == Access && x.hints[i].targetName == name
               && x.hints[i].enclosing.Some? && SamePlace(x.hints[i].enclosing.value, r);
      assert hints[i].enclosing == Some(IdOf(path, r));
    }
  }

  lemma {:induction false} FindIs(symbols: seq<Symbol>, k: LogicalKey) returns (j: nat)
    requires Find(symbols, k).Some?
    ensures j < |symbols| && symbols[j].key == k && Find(symbols, k) == Some(symbols[j])
  {
    if symbols[|symbols| - 1].key == k {
      j := |symbols| - 1;
    } else {
      j := FindIs(symbols[..|symbols| - 1], k);
    }
  }

  lemma {:induction false} FoundIfThere(symbols: seq<Symbol>, j: nat)
    requires j < |symbols|
    ensures Find(symbols, symbols[j].key).Some?
  {
    if j < |symbols| - 1 {
      FoundIfThere(symbols[..|symbols| - 1], j);
    }
  }

  /** The row that a file's parse gives a key. */
  lemma SliceRowTells(w: World, version: nat, f: FileNode, k: LogicalKey)
    requires SliceRow(ParsedSlice(ParseNow(w, version, f)), k).Some?
    ensures FoundIn(w, version, f, k, SliceRow(ParsedSlice(ParseNow(w, version, f)), k).value)
  {
    var slice := ParsedSlice(ParseNow(w, version, f));
    var x := ExtractNow(w, version, f).value;
    var j := FindIs(slice.symbols, k);
    var m := ParsedFrom(f.path, x.symbols, j);
    var s := slice.symbols[j];
    AttachedCarries(s, slice.hints);
    forall name
      ensures ReadsName(slice.hints, s.id, name) <==> ReadIn(x, x.symbols[m], name)
    {
      ReadsAreFound(f.path, x, x.symbols[m], name);
    }
    var row := RowOf(AttachOne(s, slice.hints));
    assert Tells(f, x, x.symbols[m], k, row) by { hide ReadsName, ReadIn, AttachOne, ParseNow, Find; }
  }

  /** Each finding has a row, under the key of the symbol it belongs to. */
  lemma FindingHasARow(w: World, version: nat, f: FileNode, m: nat) returns (k: LogicalKey, n: nat)
    requires ExtractNow(w, version, f).Some? && m < |ExtractNow(w, version, f).value.symbols|
    ensures SliceRow(ParsedSlice(ParseNow(w, version, f)), k).Some? && k.file == f.path
    ensures var raw := ExtractNow(w, version, f).value.symbols;
            n < |raw| && SamePlace(raw[n], raw[m]) && k.name == raw[n].name && k.kind == raw[n].kind
  {
    var raw := ExtractNow(w, version, f).value.symbols;
    var stamped := Stamp(f.path, raw);
    var survivors := DedupeById(stamped);
    DedupeKeepsIds(stamped);
    assert HasId(stamped, stamped[m].id);
    var j :| 0 <= j < |survivors| && survivors[j].id == stamped[m].id;
    AssignedAt(survivors, j);
    n := ParsedFrom(f.path, raw, j);
    k := AssignKeys(survivors)[j].key;
    FoundIfThere(AssignKeys(survivors), j);
  }

  /** The hint is this finding of the file, in the run's own ids. */
  predicate Hints(f: FileNode, raw: RawHint, h: Hint) {
    && h.kind == raw.kind && h.sourceFile == f.path && h.targetName == raw.targetName && h.details == raw.details
    && (raw.enclosing.None? ==> h.enclosing == None)
    && (raw.enclosing.Some? ==>
          var r := raw.enclosing.value;
          h.enclosing == Some(SymbolId(f.path, r.name, r.line, r.column)))
  }

  /** How many hints the extractor finds in these files. */
  function CountHints(w: World, version: nat, files: seq<FileNode>): nat {
    if files == [] then 0
    else
      var x := ExtractNow(w, version, files[|files| - 1]);
      CountHints(w, version, files[..|files| - 1]) + (if x.Some? then |x.value.hints| else 0)
  }

  lemma HintsOfOne(w: World, version: nat, f: FileNode, h: Hint)
    ensures var hints, x := ParsedSlice(ParseNow(w, version, f)).hints, ExtractNow(w, version, f);
            && |hints| == (if x.Some? then |x.value.hints| else 0)
            && (h in hints <==> x.Some? && exists n :: 0 <= n < |x.value.hints| && Hints(f, x.value.hints[n], h))
  {
    var hints, x := ParsedSlice(ParseNow(w, version, f)).hints, ExtractNow(w, version, f);
    if x.Some? && exists n :: 0 <= n < |x.value.hints| && Hints(f, x.value.hints[n], h) {
      var n :| 0 <= n < |x.value.hints| && Hints(f, x.value.hints[n], h);
      assert hints[n] == h;
    }
  }

  /** The hints of a full parse are those found in the walked files, all of them and no others. */
  lemma {:induction false} HintsAreFound(w: World, version: nat, files: seq<FileNode>, h: Hint)
    ensures var hints := FullParse(w, version, files).hints;
            && |hints| == CountHints(w, version, files)
            && (h in hints <==> exists i :: 0 <= i < |files| && HintOf(w, version, files[i], h))
  {
    var slices := ParsedSlices(w, version, files);
    if files != [] {
      var n := |files| - 1;
      HintsAreFound(w, version, files[..n], h);
      assert slices[..n] == ParsedSlices(w, version, files[..n]);
      HintsOfOne(w, version, files[n], h);
      assert files == files[..n] + [files[n]];
      hide ParseNow, ExtractNow, Hints;
    }
  }

  ghost predicate HintOf(w: World, version: nat, f: FileNode, h: Hint) {
    var x := ExtractNow(w, version, f);
    x.Some? && exists n :: 0 <= n < |x.value.hints| && Hints(f, x.value.hints[n], h)
  }

  // ---------------------------------------------------------------- the whole table

  lemma FullRow(w: World, resolve: Resolver, version: nat, files: seq<FileNode>, i: nat, k: LogicalKey)
    requires UniquePaths(files) && i < |files| && files[i].path == k.file
    ensures Lookup(FullIndex(resolve, FullParse(w, version, files)).rows, k) ==
            SliceRow(ParsedSlice(ParseNow(w, version, files[i])), k)
  {
    EmptyCacheParsesAll(w, version, files);
    EmptyCacheIsOk(w);
    EmptyCacheParses(w, version, files[i]);
    FullParseRow(w, resolve, version, map[], files, i, k);
  }

  /** The table of a full parse: every row tells what was found in a walked file, and every finding has a row. */
  lemma FullTableTells(w: World, resolve: Resolver, version: nat, files: seq<FileNode>)
    requires UniquePaths(files)
    ensures var rows := FullIndex(resolve, FullParse(w, version, files)).rows;
            && (forall k :: k in rows ==> exists i :: 0 <= i < |files| && FoundIn(w, version, files[i], k, rows[k]))
            && (forall i, m :: 0 <= i < |files| && ExtractNow(w, version, files[i]).Some?
                               && 0 <= m < |ExtractNow(w, version, files[i]).value.symbols| ==>
                  HasRow(rows, files[i].path, ExtractNow(w, version, files[i]).value.symbols, m))
  {
    var rows := FullIndex(resolve, FullParse(w, version, files)).rows;
    forall k | k in rows
      ensures exists i :: 0 <= i < |files| && FoundIn(w, version, files[i], k, rows[k])
    {
      if WalkedPath(files, k.file) {
        var i :| 0 <= i < |files| && files[i].path == k.file;
        FullRow(w, resolve, version, files, i, k);
        SliceRowTells(w, version, files[i], k);
      } else {
        EmptyCacheParsesAll(w, version, files);
        EmptyCacheIsOk(w);
        FullParseNoRow(w, resolve, version, map[], files, k);
        assert false;
      }
    }
    forall i, m | 0 <= i < |files| && ExtractNow(w, version, files[i]).Some?
                  && 0 <= m < |ExtractNow(w, version, files[i]).value.symbols|
      ensures HasRow(rows, files[i].path, ExtractNow(w, version, files[i]).value.symbols, m)
    {
      var k, n := FindingHasARow(w, version, files[i], m);
      FullRow(w, resolve, version, files, i, k);
    }
  }

  /** There is a row for this finding, or for another at its place. */
  ghost predicate HasRow(rows: map<LogicalKey, Row>, path: Path, raw: seq<RawSymbol>, m: nat)
    requires m < |raw|
  {
    exists k, n :: k in rows && 0 <= n < |raw| && SamePlace(raw[n], raw[m]) && k.file == path && k.name == raw[n].name
                   && k.kind == raw[n].kind
  }

  /** After every run that persists, of any history of edits, upgrades, crashes and reruns, in which no walked file
      falls back to symbols: the table tells what the extractor finds in the tree, all of it and nothing else. */
  lemma TheTableTells(w: World, episodes: seq<Episode>)
    requires InjectiveHash(w) && ValidEpisodes(episodes) && episodes != []
    requires PersistsNow(w, AfterAll(w, episodes[..|episodes| - 1]), episodes[|episodes| - 1])
    ensures var before, e := AfterAll(w, episodes[..|episodes| - 1]), episodes[|episodes| - 1];
            var rows := AfterAll(w, episodes).store.rows;
            (forall i :: 0 <= i < |e.files| ==> !FallsBackToSymbols(w, e.version, before.cache, e.files[i])) ==>
              && (forall k :: k in rows ==>
                    exists i :: 0 <= i < |e.files| && FoundIn(w, e.version, e.files[i], k, rows[k]))
              && (forall i, m :: 0 <= i < |e.files| && ExtractNow(w, e.version, e.files[i]).Some?
                                 && 0 <= m < |ExtractNow(w, e.version, e.files[i]).value.symbols| ==>
                    HasRow(rows, e.files[i].path, ExtractNow(w, e.version, e.files[i]).value.symbols, m))
  {
    var e := episodes[|episodes| - 1];
    hide *;
    EpisodesAreUnique(episodes);
    TheTableIsAlwaysFull(w, episodes);
    FullTableTells(w, e.resolve, e.version, e.files);
  }

  lemma EpisodesAreUnique(episodes: seq<Episode>)
    requires ValidEpisodes(episodes) && episodes != []
    ensures UniquePaths(episodes[|episodes| - 1].files)
  {
  }
}
