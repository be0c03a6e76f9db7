/**
 The embedding cache (src/infrastructure/cache/embedding-cache.ts): an insertion-ordered map in which
 a write moves its key to the end, bounded by evicting from the front once per batch.
 */
module EmbeddingCache {
  import opened Prelude

  datatype Embedding = Embedding(dimensions: int, vector: seq<real>)

  /** An entry of the insertion-ordered map, and also one write of setMany. */
  datatype Entry = Entry(textHash: string, embedding: Embedding)

  datatype Op = SetMany(incoming: seq<Entry>) | Prune(live: set<string>)

  // ---------------------------------------------------------------- the operations on the entry order

  predicate Has(entries: seq<Entry>, h: string) {
    exists k :: 0 <= k < |entries| && entries[k].textHash == h
  }

  function Without(entries: seq<Entry>, h: string): (r: seq<Entry>)
    ensures |r| <= |entries|
  {
    if entries == [] then []
    else Without(entries[..|entries| - 1], h) +
         (if entries[|entries| - 1].textHash == h then [] else [entries[|entries| - 1]])
  }

  function Put(entries: seq<Entry>, w: Entry): seq<Entry> {
    Without(entries, w.textHash) + [w]
  }

  function PutAll(entries: seq<Entry>, ws: seq<Entry>): seq<Entry> {
    if ws == [] then entries else Put(PutAll(entries, ws[..|ws| - 1]), ws[|ws| - 1])
  }

  /** The last `cap` entries. */
  function Newest(entries: seq<Entry>, cap: nat): (r: seq<Entry>)
    ensures |r| <= cap && |r| <= |entries|
  {
    if |entries| <= cap then entries else entries[|entries| - cap..]
  }

  function Kept(entries: seq<Entry>, live: set<string>): (r: seq<Entry>)
    ensures |r| <= |entries|
  {
    if entries == [] then []
    else Kept(entries[..|entries| - 1], live) +
         (if entries[|entries| - 1].textHash in live then [entries[|entries| - 1]] else [])
  }

  function Apply(entries: seq<Entry>, op: Op, cap: nat): seq<Entry> {
    match op
    case SetMany(incoming) => Newest(PutAll(entries, incoming), cap)
    case Prune(live) => Kept(entries, live)
  }

  function Run(entries: seq<Entry>, ops: seq<Op>, cap: nat): seq<Entry> {
    if ops == [] then entries else Apply(Run(entries, ops[..|ops| - 1], cap), ops[|ops| - 1], cap)
  }

  function Lookup(entries: seq<Entry>, h: string): Option<Embedding> {
    if entries == [] then None
    else if entries[|entries| - 1].textHash == h then Some(entries[|entries| - 1].embedding)
    else Lookup(entries[..|entries| - 1], h)
  }

  function Get(entries: seq<Entry>, h: string, dims: int): Option<Embedding> {
    var hit := Lookup(entries, h);
    if hit.None? || hit.value.dimensions != dims then None else hit
  }

  ghost predicate Unique(entries: seq<Entry>) {
    forall i, j :: 0 <= i < j < |entries| ==> entries[i].textHash != entries[j].textHash
  }

  // ---------------------------------------------------------------- evicting once per batch

  lemma {:induction false} WithoutConcat(a: seq<Entry>, b: seq<Entry>, h: string)
    ensures Without(a + b, h) == Without(a, h) + Without(b, h)
  {
    if b == [] {
      assert a + b == a;
    } else {
      assert (a + b)[..|a + b| - 1] == a + b[..|b| - 1];
      WithoutConcat(a, b[..|b| - 1], h);
    }
  }

  /** Every entry of the shorter list is one of the longer, and not under the removed hash. */
  lemma {:induction false} WithoutIsPart(entries: seq<Entry>, h: string)
    ensures forall g :: Has(Without(entries, h), g) <==> Has(entries, g) && g != h
  {
    if entries != [] {
      var init, last := entries[..|entries| - 1], entries[|entries| - 1];
      WithoutIsPart(init, h);
      HasSnoc(init, last);
      assert entries == init + [last];
      HasSnoc(Without(init, h), last);
      assert Without(init, h) + [] == Without(init, h);
    }
  }

  lemma UniqueSnoc(entries: seq<Entry>, e: Entry)
    requires Unique(entries) && !Has(entries, e.textHash)
    ensures Unique(entries + [e])
  {
  }

  lemma {:induction false} WithoutMembers(entries: seq<Entry>, h: string)
    requires Unique(entries)
    ensures Unique(Without(entries, h)) && !Has(Without(entries, h), h)
    ensures |Without(entries, h)| == |entries| - (if Has(entries, h) then 1 else 0)
    ensures !Has(entries, h) ==> Without(entries, h) == entries
  {
    WithoutIsPart(entries, h);
    if entries != [] {
      var init, last := entries[..|entries| - 1], entries[|entries| - 1];
      WithoutMembers(init, h);
      WithoutIsPart(init, h);
      HasSnoc(init, last);
      assert entries == init + [last] && !Has(init, last.textHash);
      if last.textHash != h {
        UniqueSnoc(Without(init, h), last);
      }
    }
  }

  lemma HasSnoc(entries: seq<Entry>, e: Entry)
    ensures forall g :: Has(entries + [e], g) <==> Has(entries, g) || g == e.textHash
  {
    var r := entries + [e];
    forall g
      ensures Has(r, g) <==> Has(entries, g) || g == e.textHash
    {
      if Has(entries, g) {
        var k :| 0 <= k < |entries| && entries[k].textHash == g;
        assert r[k].textHash == g;
      }
      if g == e.textHash {
        assert r[|entries|].textHash == g;
      }
    }
  }

  lemma PutUnique(entries: seq<Entry>, w: Entry)
    requires Unique(entries)
    ensures Unique(Put(entries, w))
  {
    WithoutMembers(entries, w.textHash);
  }

  lemma NewestUnique(entries: seq<Entry>, cap: nat)
    requires Unique(entries)
    ensures Unique(Newest(entries, cap))
  {
  }

  lemma {:induction false} PutAllUnique(entries: seq<Entry>, ws: seq<Entry>)
    requires Unique(entries)
    ensures Unique(PutAll(entries, ws))
  {
    if ws != [] {
      PutAllUnique(entries, ws[..|ws| - 1]);
      PutUnique(PutAll(entries, ws[..|ws| - 1]), ws[|ws| - 1]);
    }
  }

  lemma NewestOfConcat(front: seq<Entry>, back: seq<Entry>, cap: nat)
    requires |back| >= cap
    ensures Newest(front + back, cap) == Newest(back, cap)
  {
  }

  /** Evicting before a write as well as after it makes no difference. */
  lemma EvictBeforeWrite(entries: seq<Entry>, w: Entry, cap: nat)
    requires Unique(entries) && cap >= 1
    ensures Newest(Put(Newest(entries, cap), w), cap) == Newest(Put(entries, w), cap)
  {
    if |entries| > cap {
      var front, kept := entries[..|entries| - cap], Newest(entries, cap);
      assert entries == front + kept;
      WithoutConcat(front, kept, w.textHash);
      NewestUnique(entries, cap);
      WithoutMembers(kept, w.textHash);
      assert |kept| == cap && |Put(kept, w)| >= cap && Newest(kept, cap) == kept;
      hide Without, Newest, Unique, Has;
      assert Put(entries, w) == Without(front, w.textHash) + Put(kept, w);
      hide Put;
      NewestOfConcat(Without(front, w.textHash), Put(kept, w), cap);
    }
  }

  /** One write at a time, with an eviction after each. */
  function PutEach(entries: seq<Entry>, ws: seq<Entry>, cap: nat): seq<Entry> {
    if ws == [] then Newest(entries, cap)
    else Newest(Put(PutEach(entries, ws[..|ws| - 1], cap), ws[|ws| - 1]), cap)
  }

  /** Evicting once at the end of a batch leaves the same entries in the same order as evicting after every write. */
  lemma {:induction false} EvictingOncePerBatch(entries: seq<Entry>, ws: seq<Entry>, cap: nat)
    requires Unique(entries) && cap >= 1
    ensures Newest(PutAll(entries, ws), cap) == PutEach(entries, ws, cap)
  {
    if ws != [] {
      var init, w := ws[..|ws| - 1], ws[|ws| - 1];
      EvictingOncePerBatch(entries, init, cap);
      PutAllUnique(entries, init);
      EvictBeforeWrite(PutAll(entries, init), w, cap);
    }
  }

  // ---------------------------------------------------------------- write recency

  /** The entries that are not overwritten later in the list, in order. */
  function Recent(writes: seq<Entry>): seq<Entry> {
    if writes == [] then []
    else if Has(writes[1..], writes[0].textHash) then Recent(writes[1..])
    else [writes[0]] + Recent(writes[1..])
  }

  lemma {:induction false} RecentSnoc(writes: seq<Entry>, w: Entry)
    ensures Recent(writes + [w]) == Put(Recent(writes), w)
  {
    if writes == [] {
      assert writes + [w] == [w] && Recent([w]) == [w];
    } else {
      var rest := writes[1..];
      assert (writes + [w])[1..] == rest + [w] && (writes + [w])[0] == writes[0];
      RecentSnoc(rest, w);
      HasSnoc(rest, w);
      if !Has(rest, writes[0].textHash) {
        WithoutConcat([writes[0]], Recent(rest), w.textHash);
        assert Without([writes[0]], w.textHash) == if writes[0].textHash == w.textHash then [] else [writes[0]] by {
          assert [writes[0]][..0] == [];
        }
      }
    }
  }

  lemma {:induction false} RecentOfUnique(entries: seq<Entry>)
    requires Unique(entries)
    ensures Recent(entries) == entries
  {
    if entries != [] {
      RecentOfUnique(entries[1..]);
      assert !Has(entries[1..], entries[0].textHash);
    }
  }

  lemma {:induction false} PutAllIsRecent(entries: seq<Entry>, ws: seq<Entry>)
    requires Unique(entries)
    ensures PutAll(entries, ws) == Recent(entries + ws)
  {
    if ws == [] {
      assert entries + ws == entries;
      RecentOfUnique(entries);
    } else {
      var init, w := ws[..|ws| - 1], ws[|ws| - 1];
      PutAllIsRecent(entries, init);
      RecentSnoc(entries + init, w);
      assert entries + ws == (entries + init) + [w];
    }
  }

  /** After a setMany the cache holds the most recently written keys, up to the cap, in order of their last write. */
  lemma {:induction false} SetManyKeepsTheMostRecent(entries: seq<Entry>, incoming: seq<Entry>, cap: nat)
    requires Unique(entries)
    ensures Apply(entries, SetMany(incoming), cap) == Newest(Recent(entries + incoming), cap)
    ensures |Apply(entries, SetMany(incoming), cap)| <= cap
  {
    PutAllIsRecent(entries, incoming);
  }

  /** Two batches in a row are one: an eviction in between loses nothing that the second would have kept. */
  lemma BatchesCompose(entries: seq<Entry>, first: seq<Entry>, second: seq<Entry>, cap: nat)
    requires Unique(entries) && cap >= 1
    ensures Apply(Apply(entries, SetMany(first), cap), SetMany(second), cap) ==
            Apply(entries, SetMany(first + second), cap)
  {
    PutAllUnique(entries, first);
    var mid := PutAll(entries, first);
    NewestUnique(mid, cap);
    EvictingOncePerBatch(Newest(mid, cap), second, cap);
    EvictingOncePerBatch(mid, second, cap);
    PutEachOfNewest(mid, second, cap);
    PutAllConcat(entries, first, second);
  }

  lemma {:induction false} PutEachOfNewest(entries: seq<Entry>, ws: seq<Entry>, cap: nat)
    ensures PutEach(Newest(entries, cap), ws, cap) == PutEach(entries, ws, cap)
  {
    if ws != [] {
      PutEachOfNewest(entries, ws[..|ws| - 1], cap);
    }
  }

  lemma PutAllSnoc(entries: seq<Entry>, ws: seq<Entry>, i: nat)
    requires i < |ws|
    ensures PutAll(entries, ws[..i + 1]) == Without(PutAll(entries, ws[..i]), ws[i].textHash) + [ws[i]]
  {
    assert ws[..i + 1][..i] == ws[..i];
  }

  lemma {:induction false} PutAllConcat(entries: seq<Entry>, first: seq<Entry>, second: seq<Entry>)
    ensures PutAll(PutAll(entries, first), second) == PutAll(entries, first + second)
  {
    if second == [] {
      assert first + second == first;
    } else {
      PutAllConcat(entries, first, second[..|second| - 1]);
      assert (first + second)[..|first + second| - 1] == first + second[..|second| - 1];
    }
  }

  // ---------------------------------------------------------------- what a hit returns

  /** The last embedding that a setMany of the history stored for this hash, or else the loaded one. */
  function LastStored(loaded: seq<Entry>, ops: seq<Op>, h: string): Option<Embedding> {
    if ops == [] then Lookup(loaded, h)
    else
      var op := ops[|ops| - 1];
      if op.SetMany? && Has(op.incoming, h) then Lookup(op.incoming, h) else LastStored(loaded, ops[..|ops| - 1], h)
  }

  lemma {:induction false} LookupWithout(entries: seq<Entry>, h: string, g: string)
    ensures Lookup(Without(entries, h), g) == if g == h then None else Lookup(entries, g)
  {
    if entries != [] {
      var init, last := entries[..|entries| - 1], entries[|entries| - 1];
      LookupWithout(init, h, g);
      var r := Without(entries, h);
      assert if last.textHash == h then r == Without(init, h) else r[..|r| - 1] == Without(init, h);
    }
  }

  lemma {:induction false} LookupPutAll(entries: seq<Entry>, ws: seq<Entry>, h: string)
    ensures Lookup(PutAll(entries, ws), h) == if Has(ws, h) then Lookup(ws, h) else Lookup(entries, h)
  {
    if ws != [] {
      var init, w := ws[..|ws| - 1], ws[|ws| - 1];
      var before := PutAll(entries, init);
      LookupPutAll(entries, init, h);
      LookupWithout(before, w.textHash, h);
      assert Put(before, w)[..|Put(before, w)| - 1] == Without(before, w.textHash);
      HasSnoc(init, w);
      assert ws == init + [w];
    }
  }

  lemma {:induction false} LookupIsHeld(entries: seq<Entry>, h: string)
    requires Unique(entries)
    ensures Lookup(entries, h).Some? <==> Has(entries, h)
    ensures forall k :: 0 <= k < |entries| && entries[k].textHash == h ==>
              Lookup(entries, h) == Some(entries[k].embedding)
  {
    if entries != [] {
      var init, last := entries[..|entries| - 1], entries[|entries| - 1];
      LookupIsHeld(init, h);
      HasSnoc(init, last);
      assert entries == init + [last];
    }
  }

  /** What evicting and pruning leave is what was there: a smaller cache never changes an answer. */
  lemma LookupNewest(entries: seq<Entry>, cap: nat, h: string)
    requires Unique(entries) && Lookup(Newest(entries, cap), h).Some?
    ensures Lookup(entries, h) == Lookup(Newest(entries, cap), h)
  {
    var r := Newest(entries, cap);
    NewestUnique(entries, cap);
    LookupIsHeld(r, h);
    LookupIsHeld(entries, h);
    var k :| 0 <= k < |r| && r[k].textHash == h;
    assert entries[|entries| - |r| + k] == r[k];
  }

  lemma {:induction false} LookupKept(entries: seq<Entry>, live: set<string>, h: string)
    ensures Lookup(Kept(entries, live), h) == if h in live then Lookup(entries, h) else None
  {
    if entries != [] {
      var init, last := entries[..|entries| - 1], entries[|entries| - 1];
      LookupKept(init, live, h);
      var r := Kept(entries, live);
      assert if last.textHash in live then r[..|r| - 1] == Kept(init, live) else r == Kept(init, live);
    }
  }

  lemma {:induction false} KeptUnique(entries: seq<Entry>, live: set<string>)
    requires Unique(entries)
    ensures Unique(Kept(entries, live))
    ensures forall g :: Has(Kept(entries, live), g) ==> Has(entries, g)
  {
    if entries != [] {
      var init, last := entries[..|entries| - 1], entries[|entries| - 1];
      KeptUnique(init, live);
      assert !Has(init, last.textHash);
      HasSnoc(init, last);
      assert entries == init + [last];
      HasSnoc(Kept(init, live), last);
    }
  }

  lemma {:induction false} RunUnique(loaded: seq<Entry>, ops: seq<Op>, cap: nat)
    requires Unique(loaded)
    ensures Unique(Run(loaded, ops, cap))
  {
    if ops != [] {
      var before, op := Run(loaded, ops[..|ops| - 1], cap), ops[|ops| - 1];
      RunUnique(loaded, ops[..|ops| - 1], cap);
      match op
      case SetMany(incoming) =>
        PutAllUnique(before, incoming);
        NewestUnique(PutAll(before, incoming), cap);
      case Prune(live) =>
        KeptUnique(before, live);
    }
  }

  /** Over any history of writes and prunes of a loaded cache, a hit returns the last embedding stored for the hash,
      in the history or else in the file, with the requested dimension. */
  lemma {:induction false} HitsAreTheLastStored(loaded: seq<Entry>, ops: seq<Op>, cap: nat, h: string, dims: int)
    requires Unique(loaded)
    ensures var hit := Get(Run(loaded, ops, cap), h, dims);
            hit.Some? ==> hit.value.dimensions == dims && LastStored(loaded, ops, h) == hit
  {
    LookupIsLastStored(loaded, ops, cap, h);
  }

  lemma {:induction false} LookupIsLastStored(loaded: seq<Entry>, ops: seq<Op>, cap: nat, h: string)
    requires Unique(loaded)
    ensures Lookup(Run(loaded, ops, cap), h).Some? ==> Lookup(Run(loaded, ops, cap), h) == LastStored(loaded, ops, h)
  {
    if ops != [] {
      var before, op := Run(loaded, ops[..|ops| - 1], cap), ops[|ops| - 1];
      LookupIsLastStored(loaded, ops[..|ops| - 1], cap, h);
      RunUnique(loaded, ops[..|ops| - 1], cap);
      match op
      case SetMany(incoming) =>
        if Lookup(Run(loaded, ops, cap), h).Some? {
          PutAllUnique(before, incoming);
          LookupNewest(PutAll(before, incoming), cap, h);
          LookupPutAll(before, incoming, h);
        }
      case Prune(live) =>
        LookupKept(before, live, h);
    }
  }

  /** A get answers with an embedding if and only if that is the entry's under the hash, with the requested
      dimension. */
  lemma GetIff(entries: seq<Entry>, h: string, e: Embedding, dims: int)
    requires Unique(entries)
    ensures Get(entries, h, dims) == Some(e) <==> Entry(h, e) in entries && e.dimensions == dims
  {
    LookupIsHeld(entries, h);
    if Has(entries, h) {
      var k :| 0 <= k < |entries| && entries[k].textHash == h;
      assert entries[k] == Entry(h, entries[k].embedding);
    }
  }

  // ---------------------------------------------------------------- what stays in the cache

  /** The hashes of the entries after the one under h. */
  function KeysAfter(entries: seq<Entry>, h: string): set<string> {
    if entries == [] || entries[|entries| - 1].textHash == h then {}
    else KeysAfter(entries[..|entries| - 1], h) + {entries[|entries| - 1].textHash}
  }

  function Keys(entries: seq<Entry>): set<string> {
    set e | e in entries :: e.textHash
  }

  lemma KeysAfterSnoc(entries: seq<Entry>, e: Entry, h: string)
    ensures KeysAfter(entries + [e], h) == if e.textHash == h then {} else KeysAfter(entries, h) + {e.textHash}
  {
    assert (entries + [e])[..|entries|] == entries;
  }

  lemma {:induction false} KeysAfterWithout(entries: seq<Entry>, g: string, h: string)
    requires g != h
    ensures KeysAfter(Without(entries, g), h) <= KeysAfter(entries, h)
  {
    if entries != [] {
      var init, last := entries[..|entries| - 1], entries[|entries| - 1];
      assert Without(entries, g) == if last.textHash == g then Without(init, g) else Without(init, g) + [last] by {
        assert Without(init, g) + [] == Without(init, g);
      }
      assert KeysAfter(entries, h) == if last.textHash == h then {} else KeysAfter(init, h) + {last.textHash};
      KeysAfterSnoc(Without(init, g), last, h);
      hide Without, KeysAfter;
      KeysAfterWithout(init, g, h);
    }
  }

  lemma {:induction false} KeysAfterKept(entries: seq<Entry>, live: set<string>, h: string)
    requires h in live
    ensures KeysAfter(Kept(entries, live), h) <= KeysAfter(entries, h)
  {
    if entries != [] {
      var init, last := entries[..|entries| - 1], entries[|entries| - 1];
      KeysAfterKept(init, live, h);
      KeysAfterSnoc(Kept(init, live), last, h);
      assert Kept(init, live) + [] == Kept(init, live);
    }
  }

  lemma {:induction false} KeysAfterPutAll(entries: seq<Entry>, ws: seq<Entry>, h: string)
    ensures KeysAfter(PutAll(entries, ws), h) <=
            if Has(ws, h) then KeysAfter(ws, h) else KeysAfter(entries, h) + Keys(ws)
  {
    if ws != [] {
      var init, w := ws[..|ws| - 1], ws[|ws| - 1];
      var before := PutAll(entries, init);
      KeysAfterPutAll(entries, init, h);
      KeysAfterSnoc(Without(before, w.textHash), w, h);
      if w.textHash != h {
        KeysAfterWithout(before, w.textHash, h);
      }
      HasSnoc(init, w);
      assert ws == init + [w];
      hide PutAll, Without, Has;
      assert Keys(ws) == Keys(init) + {w.textHash};
    }
  }

  /** Of unique entries, those after h are as many as their hashes. */
  lemma {:induction false} SizeAfter(entries: seq<Entry>, h: string, k: nat)
    requires Unique(entries) && k < |entries| && entries[k].textHash == h
    ensures |KeysAfter(entries, h)| == |entries| - 1 - k
    ensures forall g :: g in KeysAfter(entries, h) ==> Has(entries, g)
  {
    hide *;
    if k < |entries| - 1 {
      LastComesAfter(entries, h, k);
      SizeAfter(entries[..|entries| - 1], h, k);
    } else {
      NothingAfterLast(entries, h);
    }
  }

  lemma NothingAfterLast(entries: seq<Entry>, h: string)
    requires entries != [] && entries[|entries| - 1].textHash == h
    ensures KeysAfter(entries, h) == {}
  {
  }

  lemma LastComesAfter(entries: seq<Entry>, h: string, k: nat)
    requires Unique(entries) && k < |entries| - 1 && entries[k].textHash == h
    ensures var init, last := entries[..|entries| - 1], entries[|entries| - 1].textHash;
            && Unique(init) && init[k].textHash == h && !Has(init, last)
            && KeysAfter(entries, h) == KeysAfter(init, h) + {last}
            && forall g :: Has(entries, g) <==> Has(init, g) || g == last
  {
    var init, last := entries[..|entries| - 1], entries[|entries| - 1];
    HasSnoc(init, last);
    KeysAfterSnoc(init, last, h);
    assert entries == init + [last];
    hide KeysAfter;
    assert last.textHash != entries[k].textHash;
  }

  /** Evicting keeps an entry if and only if fewer than `cap` come after it. */
  lemma NewestKeepsIff(entries: seq<Entry>, cap: nat, h: string)
    requires Unique(entries) && Has(entries, h)
    ensures Has(Newest(entries, cap), h) <==> |KeysAfter(entries, h)| < cap
  {
    var k :| 0 <= k < |entries| && entries[k].textHash == h;
    SizeAfter(entries, h, k);
    hide KeysAfter;
    HasInSuffix(entries, if |entries| <= cap then 0 else |entries| - cap, h, k);
    assert entries[0..] == entries;
  }

  lemma HasInSuffix(entries: seq<Entry>, n: nat, h: string, k: nat)
    requires Unique(entries) && k < |entries| && entries[k].textHash == h && n <= |entries|
    ensures Has(entries[n..], h) <==> n <= k
  {
    var r := entries[n..];
    if n <= k {
      assert r[k - n].textHash == h;
    } else {
      forall i | 0 <= i < |r|
        ensures r[i].textHash != h
      {
        assert r[i] == entries[n + i];
      }
    }
  }

  lemma KeysAfterNewest(entries: seq<Entry>, cap: nat, h: string)
    ensures KeysAfter(Newest(entries, cap), h) <= KeysAfter(entries, h)
  {
    if |entries| > cap {
      KeysAfterSuffix(entries, |entries| - cap, h);
    }
  }

  lemma {:induction false} KeysAfterSuffix(entries: seq<Entry>, n: nat, h: string)
    requires n <= |entries|
    ensures KeysAfter(entries[n..], h) <= KeysAfter(entries, h)
    decreases |entries|
  {
    if n < |entries| {
      var init := entries[..|entries| - 1];
      assert entries[n..][..|entries[n..]| - 1] == init[n..];
      KeysAfterSuffix(init, n, h);
    }
  }

  /** The keys written after the last write of h, if h was written (or loaded) and is live in every later prune. */
  function WrittenSince(loaded: seq<Entry>, ops: seq<Op>, h: string): Option<set<string>> {
    if ops == [] then if Has(loaded, h) then Some(KeysAfter(loaded, h)) else None
    else
      var before := WrittenSince(loaded, ops[..|ops| - 1], h);
      match ops[|ops| - 1]
      case SetMany(incoming) =>
        if Has(incoming, h) then Some(KeysAfter(incoming, h))
        else if before.Some? then Some(before.value + Keys(incoming))
        else None
      case Prune(live) => if h in live then before else None
  }

  lemma SetManyHolds(entries: seq<Entry>, incoming: seq<Entry>, cap: nat, h: string, since: set<string>)
    requires Unique(entries) && |since| < cap
    requires if Has(incoming, h) then since == KeysAfter(incoming, h)
             else Has(entries, h) && KeysAfter(entries, h) + Keys(incoming) <= since
    ensures var r := Apply(entries, SetMany(incoming), cap); Has(r, h) && KeysAfter(r, h) <= since
  {
    var all := PutAll(entries, incoming);
    PutAllUnique(entries, incoming);
    LookupPutAll(entries, incoming, h);
    LookupIsHeld(all, h);
    LookupIsHeld(entries, h);
    LastIsThere(incoming, h);
    KeysAfterPutAll(entries, incoming, h);
    SubsetSize(KeysAfter(all, h), since);
    NewestKeepsIff(all, cap, h);
    KeysAfterNewest(all, cap, h);
  }

  lemma {:induction false} LastIsThere(entries: seq<Entry>, h: string)
    ensures Lookup(entries, h).Some? <==> Has(entries, h)
  {
    if entries != [] {
      LastIsThere(entries[..|entries| - 1], h);
      HasSnoc(entries[..|entries| - 1], entries[|entries| - 1]);
      assert entries == entries[..|entries| - 1] + [entries[|entries| - 1]];
    }
  }

  lemma {:induction false} SubsetSize(a: set<string>, b: set<string>)
    requires a <= b
    ensures |a| <= |b|
  {
    if a != {} {
      var x :| x in a;
      SubsetSize(a - {x}, b - {x});
    }
  }

  lemma {:induction false} RecentlyWrittenIsHeld(loaded: seq<Entry>, ops: seq<Op>, cap: nat, h: string)
    requires Unique(loaded)
    requires WrittenSince(loaded, ops, h).Some? && |WrittenSince(loaded, ops, h).value| < cap
    ensures var r := Run(loaded, ops, cap); Has(r, h) && KeysAfter(r, h) <= WrittenSince(loaded, ops, h).value
  {
    if ops != [] {
      var init, op := ops[..|ops| - 1], ops[|ops| - 1];
      var before, since := Run(loaded, init, cap), WrittenSince(loaded, ops, h).value;
      RunUnique(loaded, init, cap);
      match op
      case SetMany(incoming) =>
        if !Has(incoming, h) {
          SubsetSize(WrittenSince(loaded, init, h).value, since);
          RecentlyWrittenIsHeld(loaded, init, cap, h);
        }
        SetManyHolds(before, incoming, cap, h, since);
      case Prune(live) =>
        RecentlyWrittenIsHeld(loaded, init, cap, h);
        LookupKept(before, live, h);
        KeptUnique(before, live);
        LookupIsHeld(before, h);
        LookupIsHeld(Kept(before, live), h);
        KeysAfterKept(before, live, h);
    }
  }

  /** Over any history, a hash with fewer than `cap` other keys written since its own last write, and live in every
      prune since, is a hit: for its own dimension, with the last embedding stored for it. */
  lemma {:induction false} RecentWritesAreHits(loaded: seq<Entry>, ops: seq<Op>, cap: nat, h: string)
    requires Unique(loaded)
    requires WrittenSince(loaded, ops, h).Some? && |WrittenSince(loaded, ops, h).value| < cap
    ensures var last := LastStored(loaded, ops, h);
            last.Some? && Get(Run(loaded, ops, cap), h, last.value.dimensions) == last
  {
    RecentlyWrittenIsHeld(loaded, ops, cap, h);
    RunUnique(loaded, ops, cap);
    LookupIsHeld(Run(loaded, ops, cap), h);
    LookupIsLastStored(loaded, ops, cap, h);
  }

  // ---------------------------------------------------------------- the class

  class FileEmbeddingCache {
    const maxEntries: nat
    var entries: seq<Entry>

    ghost predicate Valid()
      reads this
    {
      Unique(entries) && maxEntries >= 1
    }

    /** A cache over the entries of a manifest; the cap is at least one. */
    constructor (loaded: seq<Entry>, maxEntries: real)
      requires Unique(loaded)
      ensures Valid() && entries == loaded
      ensures this.maxEntries == if maxEntries.Floor < 1 then 1 else maxEntries.Floor
    {
      this.maxEntries := if maxEntries.Floor < 1 then 1 else maxEntries.Floor;
      entries := loaded;
    }

    method GetEmbedding(textHash: string, dims: int) returns (e: Option<Embedding>)
      requires Valid()
      ensures e == Get(entries, textHash, dims)
    {
      var i := |entries|;
      assert entries[..i] == entries;
      while i > 0
        invariant 0 <= i <= |entries|
        invariant Lookup(entries, textHash) == Lookup(entries[..i], textHash)
      {
        i := i - 1;
        assert entries[..i + 1][..i] == entries[..i];
        if entries[i].textHash == textHash {
          var hit := entries[i].embedding;
          return if hit.dimensions != dims then None else Some(hit);
        }
      }
      return None;
    }

    /** `entries.delete(textHash)`. */
    method Delete(textHash: string)
      requires Valid()
      modifies this
      ensures Valid() && entries == Without(old(entries), textHash)
    {
      WithoutMembers(entries, textHash);
      var kept: seq<Entry> := [];
      var i := 0;
      while i < |entries|
        invariant 0 <= i <= |entries| && entries == old(entries)
        invariant kept == Without(entries[..i], textHash)
      {
        assert entries[..i + 1][..i] == entries[..i];
        if entries[i].textHash != textHash {
          kept := kept + [entries[i]];
        }
        i := i + 1;
      }
      assert entries[..i] == entries;
      entries := kept;
    }

    method SetManyEntries(incoming: seq<Entry>)
      requires Valid()
      modifies this
      ensures Valid() && entries == Apply(old(entries), SetMany(incoming), maxEntries)
    {
      var i := 0;
      while i < |incoming|
        invariant 0 <= i <= |incoming| && Valid()
        invariant entries == PutAll(old(entries), incoming[..i])
      {
        PutAllSnoc(old(entries), incoming, i);
        PutUnique(entries, incoming[i]);
        hide PutAll, Without, Unique;
        Delete(incoming[i].textHash);
        entries := entries + [incoming[i]];
        i := i + 1;
      }
      assert incoming[..i] == incoming;
      EvictToCap();
    }

    /** Drop entries from the front until the cap is met. */
    method EvictToCap()
      requires Valid()
      modifies this
      ensures Valid() && entries == Newest(old(entries), maxEntries)
    {
      if |entries| <= maxEntries {
        return;
      }
      var overflow := |entries| - maxEntries;
      var dropped := 0;
      while dropped < overflow
        invariant 0 <= dropped <= overflow && Unique(entries)
        invariant entries == old(entries)[dropped..]
      {
        entries := entries[1..];
        dropped := dropped + 1;
      }
    }

    method PruneTo(live: set<string>)
      requires Valid()
      modifies this
      ensures Valid() && entries == Apply(old(entries), Prune(live), maxEntries)
    {
      KeptUnique(entries, live);
      var kept: seq<Entry> := [];
      var i := 0;
      while i < |entries|
        invariant 0 <= i <= |entries| && entries == old(entries)
        invariant kept == Kept(entries[..i], live)
      {
        assert entries[..i + 1][..i] == entries[..i];
        if entries[i].textHash in live {
          kept := kept + [entries[i]];
        }
        i := i + 1;
      }
      assert entries[..i] == entries;
      entries := kept;
    }
  }
}
