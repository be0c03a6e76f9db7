/**
 Folding the property reads of a tree into the symbols that do the reading (attachAccessedKeys in
 src/application/indexing/pipeline.ts).
 */
module AccessedKeys {
  import opened Prelude
  import opened Symbols
  import opened Incremental

  predicate Reads(h: Hint, id: SymbolId) {
    h.kind == Access && h.enclosing == Some(id) && h.targetName != ""
  }

  /** The names read inside one symbol, each once, in the order first seen. */
  function KeysRead(hints: seq<Hint>, id: SymbolId): seq<string> {
    if hints == [] then []
    else
      var r, last := KeysRead(hints[..|hints| - 1], id), hints[|hints| - 1];
      if Reads(last, id) && last.targetName !in r then r + [last.targetName] else r
  }

  function AttachOne(s: Symbol, hints: seq<Hint>): Symbol {
    var keys := KeysRead(hints, s.id);
    if keys != [] then s.(accessedKeys := keys) else s
  }

  function Attach(symbols: seq<Symbol>, hints: seq<Hint>): (r: seq<Symbol>)
    ensures |r| == |symbols|
  {
    seq(|symbols|, i requires 0 <= i < |symbols| => AttachOne(symbols[i], hints))
  }

  lemma {:induction false} KeysReadAre(hints: seq<Hint>, id: SymbolId)
    ensures Distinct(KeysRead(hints, id))
    ensures forall k :: k in KeysRead(hints, id) <==> ReadsName(hints, id, k)
  {
    if hints != [] {
      var init, last := hints[..|hints| - 1], hints[|hints| - 1];
      KeysReadAre(init, id);
      forall k
        ensures ReadsName(hints, id, k) <==> ReadsName(init, id, k) || (Reads(last, id) && last.targetName == k)
      {
        if ReadsName(init, id, k) {
          var i :| 0 <= i < |init| && init[i].kind == Access && init[i].enclosing == Some(id)
                   && init[i].targetName == k;
          assert hints[i] == init[i];
        }
        assert Reads(last, id) && last.targetName == k ==> Reads(hints[|init|], id) && hints[|init|].targetName == k;
        assert forall i :: 0 <= i < |init| ==> hints[i] == init[i];
      }
    }
  }

  /** Some property read of this name sits in the symbol. */
  ghost predicate ReadsName(hints: seq<Hint>, id: SymbolId, name: string) {
    && name != ""
    && exists i :: 0 <= i < |hints| && hints[i].kind == Access && hints[i].enclosing == Some(id)
                   && hints[i].targetName == name
  }

  /** First-seen order: more hints only add names at the end. */
  lemma {:induction false} KeysReadGrow(hints: seq<Hint>, more: seq<Hint>, id: SymbolId)
    ensures KeysRead(hints, id) <= KeysRead(hints + more, id)
  {
    if more == [] {
      assert hints + more == hints;
    } else {
      assert (hints + more)[..|hints + more| - 1] == hints + more[..|more| - 1];
      KeysReadGrow(hints, more[..|more| - 1], id);
    }
  }

  /** At some point of the list the one name has been read, and the other has not. */
  ghost predicate ReadBefore(hints: seq<Hint>, id: SymbolId, a: string, b: string) {
    exists n :: 0 <= n <= |hints| && ReadsName(hints[..n], id, a) && !ReadsName(hints[..n], id, b)
  }

  /** Of two names, the one listed first is the one first read. */
  lemma {:induction false} KeysAreFirstSeen(hints: seq<Hint>, id: SymbolId, x: nat, y: nat)
    requires x < y < |KeysRead(hints, id)|
    ensures ReadBefore(hints, id, KeysRead(hints, id)[x], KeysRead(hints, id)[y])
  {
    var init := hints[..|hints| - 1];
    var before, keys := KeysRead(init, id), KeysRead(hints, id);
    if y < |before| {
      KeysAreFirstSeen(init, id, x, y);
      var n :| 0 <= n <= |init| && ReadsName(init[..n], id, before[x]) && !ReadsName(init[..n], id, before[y]);
      assert init[..n] == hints[..n];
    } else {
      KeysReadAre(init, id);
      KeysReadAre(hints, id);
      assert keys[x] == before[x] && keys[y] !in before;
      assert hints[..|hints| - 1] == init;
    }
  }

  /** What folding makes of a symbol: nothing but its keys may change, and those are the names read in it, each once,
      in the order first read. */
  ghost predicate Carries(r: Symbol, s: Symbol, hints: seq<Hint>) {
    && r == s.(accessedKeys := r.accessedKeys)
    && (if exists name :: ReadsName(hints, s.id, name) then
          && Distinct(r.accessedKeys)
          && (forall name :: name in r.accessedKeys <==> ReadsName(hints, s.id, name))
          && (forall x, y :: 0 <= x < y < |r.accessedKeys| ==>
                ReadBefore(hints, s.id, r.accessedKeys[x], r.accessedKeys[y]))
        else r == s)
  }

  /** The keys collected reach the symbol. */
  lemma AttachedCarries(s: Symbol, hints: seq<Hint>)
    ensures Carries(AttachOne(s, hints), s, hints)
    ensures (exists name :: ReadsName(hints, s.id, name)) ==> AttachOne(s, hints).accessedKeys == KeysRead(hints, s.id)
  {
    var keys := KeysRead(hints, s.id);
    KeysReadAre(hints, s.id);
    if keys != [] {
      assert keys[0] in keys;
    }
    forall x, y | 0 <= x < y < |keys|
      ensures ReadBefore(hints, s.id, keys[x], keys[y])
    {
      KeysAreFirstSeen(hints, s.id, x, y);
    }
    hide KeysRead, ReadsName, ReadBefore;
  }

  // ---------------------------------------------------------------- the loop

  /** The two maps of the loop, after these hints. */
  ghost predicate Tracks(keysById: map<SymbolId, seq<string>>, seenById: map<SymbolId, set<string>>, hints: seq<Hint>) {
    && keysById.Keys == seenById.Keys
    && (forall id :: KeysRead(hints, id) == if id in keysById then keysById[id] else [])
    && (forall id :: id in keysById ==> forall k :: k in seenById[id] <==> k in keysById[id])
  }

  method AttachAccessedKeys(symbols: seq<Symbol>, hints: seq<Hint>) returns (r: seq<Symbol>)
    ensures r == Attach(symbols, hints)
    ensures |r| == |symbols| && forall j :: 0 <= j < |r| ==> Carries(r[j], symbols[j], hints)
  {
    var keysById: map<SymbolId, seq<string>> := map[];
    var seenById: map<SymbolId, set<string>> := map[];
    var i := 0;
    while i < |hints|
      invariant 0 <= i <= |hints| && Tracks(keysById, seenById, hints[..i])
    {
      var hint := hints[i];
      assert hints[..i + 1] == hints[..i] + [hint];
      i := i + 1;
      if hint.kind != Access || hint.enclosing.None? || hint.targetName == "" {
        continue;
      }
      var ownerId, key := hint.enclosing.value, hint.targetName;
      if ownerId !in seenById {
        seenById := seenById[ownerId := {}];
        keysById := keysById[ownerId := []];
      }
      if key !in seenById[ownerId] {
        seenById := seenById[ownerId := seenById[ownerId] + {key}];
        keysById := keysById[ownerId := keysById[ownerId] + [key]];
      } else {
        assert seenById[ownerId] + {key} == seenById[ownerId];
      }
    }
    assert hints[..i] == hints;
    r := seq(|symbols|, j requires 0 <= j < |symbols| =>
      var s := symbols[j];
      if s.id in keysById && |keysById[s.id]| > 0 then s.(accessedKeys := keysById[s.id]) else s);
    assert r == Attach(symbols, hints);
    forall j | 0 <= j < |r|
      ensures Carries(r[j], symbols[j], hints)
    {
      AttachedCarries(symbols[j], hints);
    }
  }

  // ---------------------------------------------------------------- reads stay in their file

  lemma {:induction false} OtherFilesReadNothing(before: seq<Hint>, hints: seq<Hint>, path: Path, id: SymbolId)
    requires HintsOfFile(hints, path) && id.file != path
    ensures KeysRead(before + hints, id) == KeysRead(before, id)
  {
    if hints == [] {
      assert before + hints == before;
    } else {
      assert (before + hints)[..|before + hints| - 1] == before + hints[..|hints| - 1];
      OtherFilesReadNothing(before, hints[..|hints| - 1], path, id);
    }
  }

  lemma {:induction false} NothingBefore(before: seq<Hint>, hints: seq<Hint>, id: SymbolId)
    requires KeysRead(before, id) == []
    ensures KeysRead(before + hints, id) == KeysRead(hints, id)
  {
    if hints == [] {
      assert before + hints == before;
    } else {
      assert (before + hints)[..|before + hints| - 1] == before + hints[..|hints| - 1];
      NothingBefore(before, hints[..|hints| - 1], id);
    }
  }

  lemma {:induction false} NoReadsElsewhere(slices: seq<Slice>, files: seq<FileNode>, id: SymbolId)
    requires SlicesOfFiles(slices, files)
    requires forall i :: 0 <= i < |files| ==> files[i].path != id.file
    ensures KeysRead(AllHints(slices), id) == []
  {
    if slices != [] {
      var n := |slices| - 1;
      NoReadsElsewhere(slices[..n], files[..n], id);
      OtherFilesReadNothing(AllHints(slices[..n]), slices[n].hints, files[n].path, id);
    }
  }

  /** What a symbol reads, over all hints of the tree, is what it reads over the hints of its own file. */
  lemma {:induction false} ReadsAreLocal(slices: seq<Slice>, files: seq<FileNode>, i: nat, id: SymbolId)
    requires SlicesOfFiles(slices, files) && UniquePaths(files) && i < |files| && files[i].path == id.file
    ensures KeysRead(AllHints(slices), id) == KeysRead(slices[i].hints, id)
  {
    var n := |slices| - 1;
    if i < n {
      ReadsAreLocal(slices[..n], files[..n], i, id);
      OtherFilesReadNothing(AllHints(slices[..n]), slices[n].hints, files[n].path, id);
    } else {
      NoReadsElsewhere(slices[..n], files[..n], id);
      NothingBefore(AllHints(slices[..n]), slices[n].hints, id);
    }
  }
}
