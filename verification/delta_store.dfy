/**
 The graph store under a delta write: symbol rows by logical key and the edges between them (the persist
 part of runIndexingPipeline in src/application/indexing/pipeline.ts over createNodes, createRelationships
 and deleteSymbolsByFilePaths of src/infrastructure/persistence/ladybug-graph-adapter.ts).

 A persist phase is a list of writes; a crash leaves what a prefix of them did.  Nothing here depends on the
 order of the edge writes, so `links` stands for the relationships in whatever order they are grouped.
 */
module DeltaStore {
  import opened Prelude
  import opened Symbols
  import Incremental

  type Path = Incremental.Path

  /** The persisted columns of a symbol; `details` stands for those that are only copied. */
  datatype Row = Row(name: string, kind: string, filePath: Path, details: string, accessedKeys: seq<string>)
  datatype Edge = Edge(edgeType: string, from: LogicalKey, to: LogicalKey)
  datatype Store = Store(rows: map<LogicalKey, Row>, edges: set<Edge>)

  const EMPTY := Store(map[], {})

  /** An end of an edge to write: the key of a symbol, or anything else (unresolved, external, cluster, process). */
  datatype End = Node(key: LogicalKey) | Other(name: string)
  datatype Link = Link(edgeType: string, from: End, to: End)

  datatype Write = DeleteFiles(paths: set<Path>) | Upsert(symbol: Symbol) | Connect(link: Link)

  function RowOf(s: Symbol): Row {
    Row(s.name, s.kind, s.file, s.details, s.accessedKeys)
  }

  /** The relationship tables whose two ends are both Symbol nodes. */
  predicate BetweenSymbols(edgeType: string) {
    edgeType != "CONTAINS" && edgeType != "HAS_STEP" && edgeType != "DEPENDS_ON"
  }

  /** MATCH finds both ends. */
  predicate Lands(link: Link, keys: set<LogicalKey>) {
    BetweenSymbols(link.edgeType) && link.from.Node? && link.to.Node? && link.from.key in keys && link.to.key in keys
  }

  function Gone(s: Store, paths: set<Path>): set<LogicalKey> {
    set k | k in s.rows && s.rows[k].filePath in paths
  }

  function Apply(s: Store, w: Write): Store {
    match w
    case DeleteFiles(paths) =>
      var gone := Gone(s, paths);
      Store(s.rows - gone, set e | e in s.edges && e.from !in gone && e.to !in gone)
    case Upsert(symbol) => s.(rows := s.rows[symbol.key := RowOf(symbol)])
    case Connect(link) =>
      if Lands(link, s.rows.Keys) then s.(edges := s.edges + {Edge(link.edgeType, link.from.key, link.to.key)}) else s
  }

  function ApplyAll(s: Store, ws: seq<Write>): Store {
    if ws == [] then s else Apply(ApplyAll(s, ws[..|ws| - 1]), ws[|ws| - 1])
  }

  function Upserts(symbols: seq<Symbol>): (r: seq<Write>)
    ensures |r| == |symbols|
  {
    seq(|symbols|, i requires 0 <= i < |symbols| => Upsert(symbols[i]))
  }

  function Connects(links: seq<Link>): (r: seq<Write>)
    ensures |r| == |links|
  {
    seq(|links|, i requires 0 <= i < |links| => Connect(links[i]))
  }

  /** What a delta write does: files whose rows go, rows to write, edges to write. */
  datatype Plan = Plan(paths: set<Path>, symbols: seq<Symbol>, links: seq<Link>)

  function Writes(p: Plan): (r: seq<Write>)
    ensures |r| == 1 + |p.symbols| + |p.links|
  {
    [DeleteFiles(p.paths)] + Upserts(p.symbols) + Connects(p.links)
  }

  /** A full write into an empty store. */
  function FullWrite(symbols: seq<Symbol>, links: seq<Link>): Store {
    ApplyAll(EMPTY, Upserts(symbols) + Connects(links))
  }

  ghost predicate KeyedByFile(symbols: seq<Symbol>) {
    forall i :: 0 <= i < |symbols| ==> symbols[i].key.file == symbols[i].file
  }

  /** A row's file is its key's, and an edge has both its ends. */
  ghost predicate Sound(s: Store) {
    && (forall k :: k in s.rows ==> s.rows[k].filePath == k.file)
    && (forall e :: e in s.edges ==> e.from in s.rows && e.to in s.rows)
  }

  // ---------------------------------------------------------------- lookups

  function Lookup(rows: map<LogicalKey, Row>, k: LogicalKey): Option<Row> {
    if k in rows then Some(rows[k]) else None
  }

  lemma SameLookups(a: map<LogicalKey, Row>, b: map<LogicalKey, Row>)
    requires forall k :: Lookup(a, k) == Lookup(b, k)
    ensures a == b
  {
    forall k
      ensures k in a <==> k in b
      ensures k in a && k in b ==> a[k] == b[k]
    {
      assert Lookup(a, k) == Lookup(b, k);
    }
  }

  /** The row that a list of upserts leaves under a key. */
  function RowFound(symbols: seq<Symbol>, k: LogicalKey): Option<Row> {
    if symbols == [] then None
    else if symbols[|symbols| - 1].key == k then Some(RowOf(symbols[|symbols| - 1]))
    else RowFound(symbols[..|symbols| - 1], k)
  }

  function UpsertAll(rows: map<LogicalKey, Row>, symbols: seq<Symbol>): map<LogicalKey, Row> {
    if symbols == [] then rows
    else
      var last := symbols[|symbols| - 1];
      UpsertAll(rows, symbols[..|symbols| - 1])[last.key := RowOf(last)]
  }

  lemma {:induction false} LookupUpsert(rows: map<LogicalKey, Row>, symbols: seq<Symbol>, k: LogicalKey)
    ensures Lookup(UpsertAll(rows, symbols), k) ==
            if RowFound(symbols, k).Some? then RowFound(symbols, k) else Lookup(rows, k)
  {
    if symbols != [] {
      LookupUpsert(rows, symbols[..|symbols| - 1], k);
    }
  }

  lemma {:induction false} FoundInPrefix(symbols: seq<Symbol>, j: nat, k: LogicalKey)
    requires j <= |symbols| && RowFound(symbols[..j], k).Some?
    ensures RowFound(symbols, k).Some?
    decreases |symbols| - j
  {
    if j < |symbols| {
      assert symbols[..j + 1][..j] == symbols[..j];
      FoundInPrefix(symbols, j + 1, k);
    } else {
      assert symbols[..j] == symbols;
    }
  }

  lemma {:induction false} FoundFile(symbols: seq<Symbol>, k: LogicalKey)
    requires KeyedByFile(symbols) && RowFound(symbols, k).Some?
    ensures RowFound(symbols, k).value.filePath == k.file
  {
    if symbols[|symbols| - 1].key != k {
      FoundFile(symbols[..|symbols| - 1], k);
    }
  }

  /** The edges that the links make between these keys. */
  function Landed(links: seq<Link>, keys: set<LogicalKey>): set<Edge> {
    if links == [] then {}
    else
      var last := links[|links| - 1];
      Landed(links[..|links| - 1], keys) +
      (if Lands(last, keys) then {Edge(last.edgeType, last.from.key, last.to.key)} else {})
  }

  lemma {:induction false} LandedGrows(links: seq<Link>, m: nat, few: set<LogicalKey>, many: set<LogicalKey>)
    requires m <= |links| && few <= many
    ensures Landed(links[..m], few) <= Landed(links, many)
    decreases |links|
  {
    if m < |links| {
      assert links[..m] == links[..|links| - 1][..m];
      LandedGrows(links[..|links| - 1], m, few, many);
    } else if links != [] {
      assert links[..m] == links;
      LandedGrows(links[..m - 1], m - 1, few, many);
      assert links[..m - 1][..m - 1] == links[..m - 1];
    }
  }

  lemma {:induction false} LandedEnds(links: seq<Link>, keys: set<LogicalKey>)
    ensures forall e :: e in Landed(links, keys) ==> e.from in keys && e.to in keys
  {
    if links != [] {
      LandedEnds(links[..|links| - 1], keys);
    }
  }

  // ---------------------------------------------------------------- what the writes do

  /** What the detaching delete leaves. */
  function Kept(s: Store, paths: set<Path>): Store {
    Store(map k | k in s.rows && k.file !in paths :: s.rows[k],
          set e | e in s.edges && e.from.file !in paths && e.to.file !in paths)
  }

  lemma DeleteKeeps(s: Store, paths: set<Path>)
    requires Sound(s)
    ensures Apply(s, DeleteFiles(paths)) == Kept(s, paths)
  {
    var r := Apply(s, DeleteFiles(paths));
    forall k
      ensures k in r.rows <==> k in Kept(s, paths).rows
    {
    }
    assert r.rows == Kept(s, paths).rows;
    forall e
      ensures e in r.edges <==> e in Kept(s, paths).edges
    {
    }
  }

  /** The store after j rows and m edges of a delta write. */
  function Partial(s: Store, p: Plan, j: nat, m: nat): Store
    requires j <= |p.symbols| && m <= |p.links|
  {
    var kept := Kept(s, p.paths);
    var rows := UpsertAll(kept.rows, p.symbols[..j]);
    Store(rows, kept.edges + Landed(p.links[..m], rows.Keys))
  }

  function Written(s: Store, p: Plan): Store {
    Partial(s, p, |p.symbols|, |p.links|)
  }

  lemma ApplyOneMore(s: Store, ws: seq<Write>, n: nat)
    requires n < |ws|
    ensures ApplyAll(s, ws[..n + 1]) == Apply(ApplyAll(s, ws[..n]), ws[n])
  {
    assert ws[..n + 1][..n] == ws[..n];
  }

  lemma UpsertOneMore(s: Store, p: Plan, j: nat)
    requires j < |p.symbols|
    ensures Partial(s, p, j + 1, 0) == Apply(Partial(s, p, j, 0), Upsert(p.symbols[j]))
  {
    assert p.symbols[..j + 1][..j] == p.symbols[..j] && p.links[..0] == [];
  }

  lemma ConnectOneMore(s: Store, p: Plan, m: nat)
    requires m < |p.links|
    ensures Partial(s, p, |p.symbols|, m + 1) == Apply(Partial(s, p, |p.symbols|, m), Connect(p.links[m]))
  {
    assert p.links[..m + 1][..m] == p.links[..m];
  }

  /** A crash after any number of writes leaves the store as it was, or one of the partial stores. */
  lemma {:induction false} PrefixIsPartial(s: Store, p: Plan, n: nat)
    requires Sound(s) && 1 <= n <= |Writes(p)|
    ensures var j := if n - 1 <= |p.symbols| then n - 1 else |p.symbols|;
            ApplyAll(s, Writes(p)[..n]) == Partial(s, p, j, n - 1 - j)
  {
    var ws := Writes(p);
    if n == 1 {
      DeletedIsPartial(s, p);
    } else {
      PrefixIsPartial(s, p, n - 1);
      ApplyOneMore(s, ws, n - 1);
      hide ApplyAll, Partial, Apply;
      if n - 1 <= |p.symbols| {
        assert ws[n - 1] == Upsert(p.symbols[n - 2]);
        UpsertOneMore(s, p, n - 2);
      } else {
        assert ws[n - 1] == Connect(p.links[n - 2 - |p.symbols|]);
        ConnectOneMore(s, p, n - 2 - |p.symbols|);
      }
    }
  }

  lemma DeletedIsPartial(s: Store, p: Plan)
    requires Sound(s)
    ensures ApplyAll(s, Writes(p)[..1]) == Partial(s, p, 0, 0)
  {
    var ws := Writes(p);
    assert ws[..1] == [ws[0]] && [ws[0]][..0] == [];
    DeleteKeeps(s, p.paths);
    assert p.symbols[..0] == [] && p.links[..0] == [];
  }

  lemma AllWritten(s: Store, p: Plan)
    requires Sound(s)
    ensures ApplyAll(s, Writes(p)) == Written(s, p)
  {
    PrefixIsPartial(s, p, |Writes(p)|);
    assert Writes(p)[..|Writes(p)|] == Writes(p);
  }

  lemma PartialSound(s: Store, p: Plan, j: nat, m: nat)
    requires Sound(s) && KeyedByFile(p.symbols) && j <= |p.symbols| && m <= |p.links|
    ensures Sound(Partial(s, p, j, m))
  {
    var kept, r := Kept(s, p.paths), Partial(s, p, j, m);
    var symbols := p.symbols[..j];
    LandedEnds(p.links[..m], r.rows.Keys);
    forall k
      ensures k in kept.rows ==> k in r.rows
      ensures k in r.rows ==> r.rows[k].filePath == k.file
    {
      LookupUpsert(kept.rows, symbols, k);
      if RowFound(symbols, k).Some? {
        FoundFile(symbols, k);
      }
    }
  }

  // ---------------------------------------------------------------- crash and rerun

  lemma RowsAgain(s: Store, p: Plan, j: nat, m: nat)
    requires j <= |p.symbols| && m <= |p.links|
    ensures Written(Partial(s, p, j, m), p).rows == Written(s, p).rows
  {
    var t := Partial(s, p, j, m);
    assert p.symbols[..|p.symbols|] == p.symbols;
    forall k
      ensures Lookup(Written(t, p).rows, k) == Lookup(Written(s, p).rows, k)
    {
      LookupUpsert(Kept(t, p.paths).rows, p.symbols, k);
      LookupUpsert(Kept(s, p.paths).rows, p.symbols, k);
      LookupUpsert(Kept(s, p.paths).rows, p.symbols[..j], k);
      if RowFound(p.symbols[..j], k).Some? {
        FoundInPrefix(p.symbols, j, k);
      }
    }
    SameLookups(Written(t, p).rows, Written(s, p).rows);
  }

  lemma PartialKeysGrow(s: Store, p: Plan, j: nat)
    requires j <= |p.symbols|
    ensures UpsertAll(Kept(s, p.paths).rows, p.symbols[..j]).Keys <= Written(s, p).rows.Keys
  {
    var kept := Kept(s, p.paths);
    assert p.symbols[..|p.symbols|] == p.symbols;
    forall k | k in UpsertAll(kept.rows, p.symbols[..j])
      ensures k in Written(s, p).rows
    {
      LookupUpsert(kept.rows, p.symbols[..j], k);
      LookupUpsert(kept.rows, p.symbols, k);
      if RowFound(p.symbols[..j], k).Some? {
        FoundInPrefix(p.symbols, j, k);
      }
    }
  }

  lemma EdgesAgain(s: Store, p: Plan, j: nat, m: nat)
    requires j <= |p.symbols| && m <= |p.links|
    ensures Written(Partial(s, p, j, m), p).edges == Written(s, p).edges
  {
    var t := Partial(s, p, j, m);
    RowsAgain(s, p, j, m);
    PartialKeysGrow(s, p, j);
    LandedGrows(p.links, m, t.rows.Keys, Written(s, p).rows.Keys);
    assert p.links[..|p.links|] == p.links;
  }

  /** A write that dies after any of its steps, run again whole, leaves what it would have left the first time. */
  lemma CrashThenRerun(s: Store, p: Plan, n: nat)
    requires Sound(s) && KeyedByFile(p.symbols) && n <= |Writes(p)|
    ensures var crashed := ApplyAll(s, Writes(p)[..n]);
            Sound(crashed) && ApplyAll(crashed, Writes(p)) == ApplyAll(s, Writes(p))
  {
    if n > 0 {
      var j := if n - 1 <= |p.symbols| then n - 1 else |p.symbols|;
      var m := n - 1 - j;
      PrefixIsPartial(s, p, n);
      PartialSound(s, p, j, m);
      AllWritten(s, p);
      AllWritten(Partial(s, p, j, m), p);
      RowsAgain(s, p, j, m);
      EdgesAgain(s, p, j, m);
    }
  }

  /** The store after attempts that died after these many steps. */
  function AfterCrashes(s: Store, ws: seq<Write>, crashes: seq<nat>): Store {
    if crashes == [] then s
    else
      var n := crashes[|crashes| - 1];
      ApplyAll(AfterCrashes(s, ws, crashes[..|crashes| - 1]), ws[..if n <= |ws| then n else |ws|])
  }

  lemma {:induction false} AnyCrashesThenRerun(s: Store, p: Plan, crashes: seq<nat>)
    requires Sound(s) && KeyedByFile(p.symbols)
    ensures var crashed := AfterCrashes(s, Writes(p), crashes);
            Sound(crashed) && ApplyAll(crashed, Writes(p)) == ApplyAll(s, Writes(p))
  {
    if crashes != [] {
      var init, n := crashes[..|crashes| - 1], crashes[|crashes| - 1];
      AnyCrashesThenRerun(s, p, init);
      CrashThenRerun(AfterCrashes(s, Writes(p), init), p, if n <= |Writes(p)| then n else |Writes(p)|);
    }
  }

  // ---------------------------------------------------------------- delta against full

  lemma FullWriteIs(symbols: seq<Symbol>, links: seq<Link>)
    ensures var rows := UpsertAll(map[], symbols);
            FullWrite(symbols, links) == Store(rows, Landed(links, rows.Keys))
  {
    var p := Plan({}, symbols, links);
    AllWritten(EMPTY, p);
    DropDelete(EMPTY, Upserts(symbols) + Connects(links));
    assert Writes(p) == [DeleteFiles({})] + (Upserts(symbols) + Connects(links));
    assert Kept(EMPTY, {}) == EMPTY && symbols[..|symbols|] == symbols && links[..|links|] == links;
  }

  lemma {:induction false} DropDelete(s: Store, ws: seq<Write>)
    ensures ApplyAll(s, [DeleteFiles({})] + ws) == ApplyAll(s, ws)
  {
    var all := [DeleteFiles({})] + ws;
    if ws == [] {
      assert all[..0] == [] && Gone(s, {}) == {};
      assert Apply(s, DeleteFiles({})) == s;
    } else {
      DropDelete(s, ws[..|ws| - 1]);
      assert all[..|all| - 1] == [DeleteFiles({})] + ws[..|ws| - 1];
    }
  }

  /** The symbols whose file is in scope. */
  function InScope(symbols: seq<Symbol>, scope: set<Path>): seq<Symbol> {
    if symbols == [] then []
    else
      var last := symbols[|symbols| - 1];
      InScope(symbols[..|symbols| - 1], scope) + (if last.file in scope then [last] else [])
  }

  lemma {:induction false} InScopeIsKeyed(symbols: seq<Symbol>, scope: set<Path>)
    requires KeyedByFile(symbols)
    ensures KeyedByFile(InScope(symbols, scope))
  {
    if symbols != [] {
      InScopeIsKeyed(symbols[..|symbols| - 1], scope);
    }
  }

  lemma {:induction false} FoundInScope(symbols: seq<Symbol>, scope: set<Path>, k: LogicalKey)
    requires KeyedByFile(symbols)
    ensures RowFound(InScope(symbols, scope), k) == if k.file in scope then RowFound(symbols, k) else None
  {
    if symbols != [] {
      var init, last := symbols[..|symbols| - 1], symbols[|symbols| - 1];
      FoundInScope(init, scope, k);
      assert last.key.file == last.file;
      var r, before := InScope(symbols, scope), InScope(init, scope);
      if last.file in scope {
        assert r == before + [last];
        FoundSnoc(before, last, k);
      } else {
        assert r == before;
      }
    }
  }

  lemma FoundSnoc(symbols: seq<Symbol>, s: Symbol, k: LogicalKey)
    ensures RowFound(symbols + [s], k) == if s.key == k then Some(RowOf(s)) else RowFound(symbols, k)
  {
    assert (symbols + [s])[..|symbols|] == symbols;
  }

  /** What a delta write needs of the rows it finds.  Of a file that is neither deleted nor written: just the
      rows to be.  Of a file that is written but not deleted (added): no row that is not written. */
  ghost predicate Fits(rows: map<LogicalKey, Row>, symbols: seq<Symbol>, deleted: set<Path>, scope: set<Path>) {
    forall k: LogicalKey :: FitsAt(rows, symbols, deleted, scope, k)
  }

  ghost predicate FitsAt(rows: map<LogicalKey, Row>, symbols: seq<Symbol>, deleted: set<Path>, scope: set<Path>,
                         k: LogicalKey) {
    k.file !in deleted ==>
      if k.file in scope then k in rows ==> RowFound(symbols, k).Some?
      else Lookup(rows, k) == RowFound(symbols, k)
  }

  lemma {:induction false} DeltaAt(s: Store, symbols: seq<Symbol>, deleted: set<Path>, scope: set<Path>,
                                   links: seq<Link>, k: LogicalKey)
    requires KeyedByFile(symbols)
    ensures var rows := Written(s, Plan(deleted, InScope(symbols, scope), links)).rows;
            && (k.file in scope && RowFound(symbols, k).Some? ==> Lookup(rows, k) == RowFound(symbols, k))
            && (!(k.file in scope && RowFound(symbols, k).Some?) ==>
                  Lookup(rows, k) == if k.file in deleted then None else Lookup(s.rows, k))
  {
    var inScope := InScope(symbols, scope);
    assert inScope[..|inScope|] == inScope;
    InScopeIsKeyed(symbols, scope);
    LookupUpsert(Kept(s, deleted).rows, inScope, k);
    FoundInScope(symbols, scope, k);
  }

  /** A delta write leaves under a key what a full write does if and only if the row it finds there fits. */
  lemma DeltaIsExactAt(s: Store, symbols: seq<Symbol>, deleted: set<Path>, scope: set<Path>, links: seq<Link>,
                       k: LogicalKey)
    requires Sound(s) && KeyedByFile(symbols)
    requires k.file in deleted && k.file !in scope ==> RowFound(symbols, k).None?
    ensures Lookup(ApplyAll(s, Writes(Plan(deleted, InScope(symbols, scope), links))).rows, k) ==
            Lookup(FullWrite(symbols, links).rows, k)
            <==> FitsAt(s.rows, symbols, deleted, scope, k)
  {
    AllWritten(s, Plan(deleted, InScope(symbols, scope), links));
    FullWriteIs(symbols, links);
    hide Written, UpsertAll, ApplyAll, FullWrite, InScope;
    DeltaAt(s, symbols, deleted, scope, links, k);
    LookupUpsert(map[], symbols, k);
  }

  /** A delta write gives the rows of a full write if and only if the rows it finds fit. */
  lemma DeltaIsExactIff(s: Store, symbols: seq<Symbol>, deleted: set<Path>, scope: set<Path>, links: seq<Link>)
    requires Sound(s) && KeyedByFile(symbols)
    requires forall k: LogicalKey :: k.file in deleted && k.file !in scope ==> RowFound(symbols, k).None?
    ensures ApplyAll(s, Writes(Plan(deleted, InScope(symbols, scope), links))).rows == FullWrite(symbols, links).rows
            <==> Fits(s.rows, symbols, deleted, scope)
  {
    var delta := ApplyAll(s, Writes(Plan(deleted, InScope(symbols, scope), links))).rows;
    var full := FullWrite(symbols, links).rows;
    hide ApplyAll, Writes, FullWrite, InScope, FitsAt, Lookup, Sound;
    forall k
      ensures Lookup(delta, k) == Lookup(full, k) <==> FitsAt(s.rows, symbols, deleted, scope, k)
    {
      DeltaIsExactAt(s, symbols, deleted, scope, links, k);
    }
    if Fits(s.rows, symbols, deleted, scope) {
      forall k
        ensures Lookup(delta, k) == Lookup(full, k)
      {
        assert FitsAt(s.rows, symbols, deleted, scope, k);
      }
      SameLookups(delta, full);
    }
  }

  /** With the rows of a full write, the edges are those of a full write and the earlier ones no deleted file had an
      end of. */
  lemma DeltaEdges(s: Store, symbols: seq<Symbol>, deleted: set<Path>, scope: set<Path>, links: seq<Link>)
    requires Sound(s)
    requires ApplyAll(s, Writes(Plan(deleted, InScope(symbols, scope), links))).rows == FullWrite(symbols, links).rows
    ensures ApplyAll(s, Writes(Plan(deleted, InScope(symbols, scope), links))).edges ==
            FullWrite(symbols, links).edges + (set e | e in s.edges && e.from.file !in deleted && e.to.file !in deleted)
  {
    var p := Plan(deleted, InScope(symbols, scope), links);
    AllWritten(s, p);
    FullWriteIs(symbols, links);
    assert links[..|links|] == links;
  }

  /** So the edges are those of a full write if and only if each earlier edge away from the deleted files is still
      resolved. */
  lemma EdgesAreFullIff(s: Store, symbols: seq<Symbol>, deleted: set<Path>, scope: set<Path>, links: seq<Link>)
    requires Sound(s)
    requires ApplyAll(s, Writes(Plan(deleted, InScope(symbols, scope), links))).rows == FullWrite(symbols, links).rows
    ensures ApplyAll(s, Writes(Plan(deleted, InScope(symbols, scope), links))).edges ==
            FullWrite(symbols, links).edges <==>
            forall e :: e in s.edges && e.from.file !in deleted && e.to.file !in deleted ==>
              e in FullWrite(symbols, links).edges
  {
    DeltaEdges(s, symbols, deleted, scope, links);
    var full := FullWrite(symbols, links).edges;
    var stay := set e | e in s.edges && e.from.file !in deleted && e.to.file !in deleted;
    assert full + stay == full <==> stay <= full;
  }
}
