/**
 One indexing run as the program makes it: a parse cache and a graph store changed in place.  Every write may
 be the one that fails; the run is proved to leave what IncrementalIndex and DeltaStore say.
 */
module IndexingRun {
  import opened Prelude
  import opened Symbols
  import opened Incremental
  import opened AccessedKeys
  import D = DeltaStore
  import I = IncrementalIndex
  import C = CrashRecovery

  /** LadybugGraphAdapter, as far as the symbol table goes.  `left` is how many more writes succeed: the environment's
      choice. */
  class GraphStore {
    var rows: map<LogicalKey, D.Row>
    var edges: set<D.Edge>
    var left: nat

    constructor (left: nat)
      ensures Contents() == D.EMPTY && this.left == left
    {
      rows, edges := map[], {};
      this.left := left;
    }

    ghost function Contents(): D.Store
      reads this`rows, this`edges
    {
      D.Store(rows, edges)
    }

    /** Deletes the Symbol nodes of these files, and their edges with them. */
    method DeleteSymbolsByFilePaths(paths: set<D.Path>) returns (deleted: Option<nat>)
      modifies this
      ensures deleted.Some? <==> old(left) > 0
      ensures deleted.None? ==> Contents() == old(Contents()) && left == 0
      ensures deleted.Some? ==>
                && left == old(left) - 1
                && Contents() == D.Apply(old(Contents()), D.DeleteFiles(paths))
                && deleted.value == |old(rows)| - |rows|
    {
      if left == 0 {
        return None;
      }
      var matched := set k | k in rows && rows[k].filePath in paths;
      left := left - 1;
      ghost var before := rows;
      rows := rows - matched;
      assert rows.Keys == before.Keys - matched;
      assert |before.Keys - matched| == |before.Keys| - |matched|;
      edges := set e | e in edges && e.from !in matched && e.to !in matched;
      return Some(|matched|);
    }

    /** MERGE on the key, SET of all columns. */
    method CreateNode(s: Symbol) returns (ok: bool)
      modifies this
      ensures ok <==> old(left) > 0
      ensures left == if ok then old(left) - 1 else 0
      ensures Contents() == if ok then D.Apply(old(Contents()), D.Upsert(s)) else old(Contents())
    {
      if left == 0 {
        return false;
      }
      left := left - 1;
      rows := rows[s.key := D.RowOf(s)];
      return true;
    }

    /** MATCH both ends, MERGE the edge: nothing happens when an end is missing. */
    method CreateRelationship(link: D.Link) returns (ok: bool)
      modifies this
      ensures ok <==> old(left) > 0
      ensures left == if ok then old(left) - 1 else 0
      ensures Contents() == if ok then D.Apply(old(Contents()), D.Connect(link)) else old(Contents())
    {
      if left == 0 {
        return false;
      }
      left := left - 1;
      if D.BetweenSymbols(link.edgeType) && link.from.Node? && link.to.Node? && link.from.key in rows
         && link.to.key in rows {
        edges := edges + {D.Edge(link.edgeType, link.from.key, link.to.key)};
      }
      return true;
    }
  }

  /** FileIndexCache: one manifest, replaced whole, or not at all when the save fails: the environment's choice. */
  class IndexCache {
    var entries: Cache
    var failing: bool

    constructor (failing: bool)
      ensures entries == map[] && this.failing == failing
    {
      entries := map[];
      this.failing := failing;
    }

    method Save(next: Cache) returns (ok: bool)
      modifies this`entries
      ensures ok <==> !failing
      ensures entries == if ok then next else old(entries)
    {
      if failing {
        return false;
      }
      entries := next;
      return true;
    }
  }

  ghost predicate NodesAt(ws: seq<D.Write>, at: nat, symbols: seq<Symbol>) {
    at + |symbols| <= |ws| && forall i :: at <= i < at + |symbols| ==> ws[i] == D.Upsert(symbols[i - at])
  }

  ghost predicate LinksAt(ws: seq<D.Write>, at: nat, links: seq<D.Link>) {
    at + |links| <= |ws| && forall i :: at <= i < at + |links| ==> ws[i] == D.Connect(links[i - at])
  }

  /** The symbol rows: the writes of `ws` from `at` on, up to the first that fails. */
  method CreateNodes(store: GraphStore, symbols: seq<Symbol>, ghost before: D.Store, ghost ws: seq<D.Write>,
                     ghost at: nat)
    returns (ok: bool)
    requires at + |symbols| <= |ws| && NodesAt(ws, at, symbols)
    requires store.Contents() == D.ApplyAll(before, ws[..at])
    modifies store
    ensures ok <==> old(store.left) >= |symbols|
    ensures store.left == if ok then old(store.left) - |symbols| else 0
    ensures store.Contents() == D.ApplyAll(before, ws[..at + if ok then |symbols| else old(store.left)])
  {
    hide D.ApplyAll, D.Apply, D.Lands, D.BetweenSymbols;
    var i := 0;
    while i < |symbols|
      invariant 0 <= i <= |symbols| && old(store.left) == store.left + i
      invariant store.Contents() == D.ApplyAll(before, ws[..at + i])
    {
      D.ApplyOneMore(before, ws, at + i);
      var created := store.CreateNode(symbols[i]);
      if !created {
        return false;
      }
      i := i + 1;
    }
    return true;
  }

  method CreateRelationships(store: GraphStore, links: seq<D.Link>, ghost before: D.Store, ghost ws: seq<D.Write>,
                             ghost at: nat)
    returns (ok: bool)
    requires at + |links| <= |ws| && LinksAt(ws, at, links)
    requires store.Contents() == D.ApplyAll(before, ws[..at])
    modifies store
    ensures ok <==> old(store.left) >= |links|
    ensures store.left == if ok then old(store.left) - |links| else 0
    ensures store.Contents() == D.ApplyAll(before, ws[..at + if ok then |links| else old(store.left)])
  {
    hide D.ApplyAll, D.Apply, D.Lands, D.BetweenSymbols;
    var i := 0;
    while i < |links|
      invariant 0 <= i <= |links| && old(store.left) == store.left + i
      invariant store.Contents() == D.ApplyAll(before, ws[..at + i])
    {
      D.ApplyOneMore(before, ws, at + i);
      var created := store.CreateRelationship(links[i]);
      if !created {
        return false;
      }
      i := i + 1;
    }
    return true;
  }

  /** What follows the delete: the rows, then the edges. */
  method StoreInDatabases(store: GraphStore, symbols: seq<Symbol>, links: seq<D.Link>, ghost before: D.Store,
                          ghost ws: seq<D.Write>)
    returns (ok: bool)
    requires |ws| == 1 + |symbols| + |links| && NodesAt(ws, 1, symbols) && LinksAt(ws, 1 + |symbols|, links)
    requires store.Contents() == D.ApplyAll(before, ws[..1])
    modifies store
    ensures ok <==> old(store.left) + 1 >= |ws|
    ensures store.Contents() == D.ApplyAll(before, ws[..if ok then |ws| else old(store.left) + 1])
  {
    hide *;
    ok := CreateNodes(store, symbols, before, ws, 1);
    if !ok {
      return false;
    }
    ok := CreateRelationships(store, links, before, ws, 1 + |symbols|);
  }

  /** The persist phase: deletes, rows, edges, in that order, up to the first write that fails. */
  method Persist(store: GraphStore, plan: D.Plan) returns (ok: bool)
    modifies store
    ensures ok <==> old(store.left) >= |D.Writes(plan)|
    ensures store.Contents() ==
            D.ApplyAll(old(store.Contents()), D.Writes(plan)[..if ok then |D.Writes(plan)| else old(store.left)])
  {
    ghost var ws := D.Writes(plan);
    ghost var before := store.Contents();
    hide *;
    var deleted := store.DeleteSymbolsByFilePaths(plan.paths);
    if deleted.None? {
      return false;
    }
    ok := StoreInDatabases(store, plan.symbols, plan.links, before, ws);
  }

  /** The map from intra-run ids to persisted keys. */
  method MapIdsToKeys(symbols: seq<Symbol>) returns (idToKey: map<SymbolId, LogicalKey>)
    ensures forall id :: I.KeyOfId(symbols, id) == if id in idToKey then Some(idToKey[id]) else None
  {
    idToKey := map[];
    var i := 0;
    while i < |symbols|
      invariant 0 <= i <= |symbols|
      invariant forall id :: I.KeyOfId(symbols[..i], id) == if id in idToKey then Some(idToKey[id]) else None
    {
      assert symbols[..i + 1][..i] == symbols[..i];
      idToKey := idToKey[symbols[i].id := symbols[i].key];
      i := i + 1;
    }
    assert symbols[..i] == symbols;
  }

  function EndOf(idToKey: map<SymbolId, LogicalKey>, r: I.Ref): D.End {
    match r
    case Synthetic(name) => D.Other(name)
    case SymbolRef(id) => if id in idToKey then D.Node(idToKey[id]) else D.Other(id.name)
  }

  method KeyLinks(symbols: seq<Symbol>, rels: seq<I.Relationship>) returns (links: seq<D.Link>)
    ensures links == I.Keyed(symbols, rels)
  {
    var idToKey := MapIdsToKeys(symbols);
    assert forall r :: EndOf(idToKey, r) == I.KeyOf(symbols, r);
    links := seq(|rels|, i requires 0 <= i < |rels| =>
      D.Link(rels[i].edgeType, EndOf(idToKey, rels[i].source), EndOf(idToKey, rels[i].target)));
  }

  datatype Outcome = NothingToDo | Threw | Done(symbols: seq<Symbol>)

  /** An incremental run.  The cache is saved only after the persist phase has succeeded; a failed save is not an
      error. */
  method RunIndexingPipeline(w: World, resolve: I.Resolver, version: nat, files: seq<FileNode>, cache: IndexCache,
                             store: GraphStore)
    returns (outcome: Outcome)
    requires UniquePaths(files)
    modifies cache, store
    ensures var parsed := IncrementalParse(w, version, old(cache.entries), files);
            var writes := D.Writes(I.PlanOf(w, resolve, version, old(cache.entries), files));
            if files == [] || parsed.symbols == [] then
              outcome == NothingToDo && cache.entries == old(cache.entries) && store.Contents() == old(store.Contents())
            else if old(store.left) < |writes| then
              outcome == Threw && cache.entries == old(cache.entries)
              && store.Contents() == D.ApplyAll(old(store.Contents()), writes[..old(store.left)])
            else
              && outcome == Done(I.Folded(parsed))
              && cache.entries == (if cache.failing then old(cache.entries)
                                   else NextCache(w, version, old(cache.entries), files))
              && store.Contents() == D.ApplyAll(old(store.Contents()), writes)
    ensures cache.failing == old(cache.failing)
  {
    if |files| == 0 {
      return NothingToDo;
    }
    var parsed, nextCache, delta := RunPhase2(w, version, cache.entries, files);
    var symbols := AttachAccessedKeys(parsed.symbols, parsed.hints);
    if |symbols| == 0 {
      return NothingToDo;
    }
    var rels := resolve(symbols, parsed.hints);
    var links := KeyLinks(symbols, rels);
    var symbolsToInsert := D.InScope(symbols, delta.addedAndChanged);
    var plan := D.Plan(delta.removedAndChanged, symbolsToInsert, links);
    assert plan == I.PlanOf(w, resolve, version, cache.entries, files);
    var persisted := Persist(store, plan);
    if !persisted {
      return Threw;
    }
    ghost var writes := D.Writes(plan);
    assert writes[..|writes|] == writes;
    var _ := cache.Save(nextCache);
    return Done(symbols);
  }

  /** Two runs over the same tree, of which the first may die anywhere and the second completes and saves its cache:
      together, one run that does. */
  method RunAgainAfterCrash(w: World, resolve: I.Resolver, version: nat, files: seq<FileNode>, cache: IndexCache,
                            store: GraphStore, again: nat)
    returns (first: Outcome, second: Outcome)
    requires UniquePaths(files) && I.Inv(w, I.State(cache.entries, store.Contents()))
    modifies cache, store
    ensures first == Threw && second.Done? && !cache.failing ==>
              && cache.entries == NextCache(w, version, old(cache.entries), files)
              && store.Contents() ==
                   D.ApplyAll(old(store.Contents()), D.Writes(I.PlanOf(w, resolve, version, old(cache.entries), files)))
              && store.rows == I.FullIndex(resolve, IncrementalParse(w, version, old(cache.entries), files)).rows
              && I.Inv(w, I.State(cache.entries, store.Contents()))
  {
    ghost var s := I.State(cache.entries, store.Contents());
    ghost var n := store.left;
    first := RunIndexingPipeline(w, resolve, version, files, cache, store);
    store.left := again;
    second := RunIndexingPipeline(w, resolve, version, files, cache, store);
    if first == Threw && second.Done? && !cache.failing {
      ghost var e := I.Episode(version, files, resolve, [n]);
      ghost var writes := D.Writes(I.PlanOf(w, resolve, version, s.cache, files));
      assert [n][..0] == [] && D.AfterCrashes(s.store, writes, [n]) == D.ApplyAll(s.store, writes[..n]);
      I.EpisodeIsOneWrite(w, s, e);
      I.EpisodeGivesFullTable(w, s, e);
      I.EpisodeKeepsInv(w, s, e);
    }
  }

  /** A run that dies anywhere, and a second one over any tree that ends well, with nothing to do or with its writes
      done: the store is the one of the crash theorems, and full exactly when they say so. */
  method RunElsewhereAfterCrash(w: World, died: C.Attempt, next: C.Attempt, cache: IndexCache, store: GraphStore,
                                again: nat)
    returns (first: Outcome, second: Outcome)
    requires UniquePaths(died.files) && UniquePaths(next.files)
    requires I.Inv(w, I.State(cache.entries, store.Contents()))
    modifies cache, store
    ensures first == Threw ==>
              var entries, n := old(cache.entries), old(store.left);
              && n < |C.WritesOf(w, entries, died)|
              && (second != Threw ==>
                    && store.Contents() ==
                         C.Completed(w, entries, C.Died(w, entries, old(store.Contents()), died, n), next)
                    && (store.rows == C.FullTable(w, entries, next) <==>
                          forall k :: C.ServesAfter(w, entries, [C.Death(died, n)], next, k)))
  {
    ghost var s := I.State(cache.entries, store.Contents());
    ghost var n := store.left;
    first := RunIndexingPipeline(w, died.resolve, died.version, died.files, cache, store);
    ghost var between := store.Contents();
    store.left := again;
    second := RunIndexingPipeline(w, next.resolve, next.version, next.files, cache, store);
    if first == Threw {
      C.OneDeath(w, s.cache, s.store, died, n);
      assert between == C.Died(w, s.cache, s.store, died, n);
      if second != Threw {
        assert store.Contents() == C.Completed(w, s.cache, between, next);
        hide *;
        C.CrashesThenOtherTreeIff(w, s, [C.Death(died, n)], next);
      }
    }
  }
}
