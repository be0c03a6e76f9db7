/**
 Splitting rows into batches by count and serialized size
 (chunkByBudget in src/application/indexing/persistence-helpers.ts).
 */
module Chunking {

  const JSON_ARRAY_OVERHEAD_BYTES := 2
  const JSON_ARRAY_SEPARATOR_BYTES := 1

  datatype Options<!T> = Options(maxBytes: int, maxCount: int, sizeOf: T -> real)

  datatype ChunkError = BadMaxBytes | BadMaxCount | BadSize

  function Ceil(x: real): int {
    -((-x).Floor)
  }

  function Bytes<T>(o: Options<T>, item: T): int {
    Ceil(o.sizeOf(item))
  }

  predicate Oversized<T>(o: Options<T>, item: T) {
    JSON_ARRAY_OVERHEAD_BYTES + Bytes(o, item) > o.maxBytes
  }

  function Sum<T>(o: Options<T>, items: seq<T>): int {
    if items == [] then 0 else Sum(o, items[..|items| - 1]) + Bytes(o, items[|items| - 1])
  }

  /** The length of the JSON array of these items: brackets, items and the commas between them. */
  function Payload<T>(o: Options<T>, items: seq<T>): int {
    JSON_ARRAY_OVERHEAD_BYTES + Sum(o, items) + (if items == [] then 0 else (|items| - 1) * JSON_ARRAY_SEPARATOR_BYTES)
  }

  ghost predicate Sizes<T>(o: Options<T>, items: seq<T>) {
    o.maxBytes > JSON_ARRAY_OVERHEAD_BYTES && o.maxCount > 0 && forall k :: 0 <= k < |items| ==> Bytes(o, items[k]) >= 0
  }

  /** The rule for one batch: within both budgets, or a single row that exceeds the byte budget by itself. */
  ghost predicate ChunkOk<T>(o: Options<T>, c: seq<T>) {
    && c != []
    && ((|c| <= o.maxCount && Payload(o, c) <= o.maxBytes) || (|c| == 1 && Oversized(o, c[0])))
  }

  function Flatten<T>(chunks: seq<seq<T>>): seq<T> {
    if chunks == [] then [] else Flatten(chunks[..|chunks| - 1]) + chunks[|chunks| - 1]
  }

  /** An order-preserving split of the items that obeys the rule. */
  ghost predicate Split<T>(o: Options<T>, chunks: seq<seq<T>>, items: seq<T>) {
    Flatten(chunks) == items && forall k :: 0 <= k < |chunks| ==> ChunkOk(o, chunks[k])
  }

  // ---------------------------------------------------------------- the greedy split

  predicate Fits<T>(o: Options<T>, c: seq<T>, x: T) {
    |c| < o.maxCount && Payload(o, c + [x]) <= o.maxBytes
  }

  function Extend<T>(o: Options<T>, chunks: seq<seq<T>>, x: T): (r: seq<seq<T>>) {
    if chunks != [] && Fits(o, chunks[|chunks| - 1], x)
    then chunks[..|chunks| - 1] + [chunks[|chunks| - 1] + [x]]
    else chunks + [[x]]
  }

  /** Each item joins the last batch if it fits, and opens a new one if not. */
  function Greedy<T>(o: Options<T>, items: seq<T>): (r: seq<seq<T>>) {
    if items == [] then [] else Extend(o, Greedy(o, items[..|items| - 1]), items[|items| - 1])
  }

  lemma PayloadSnoc<T>(o: Options<T>, c: seq<T>, x: T)
    ensures Payload(o, c + [x]) == Payload(o, c) + (if c == [] then 0 else 1) + Bytes(o, x)
  {
    assert (c + [x])[..|c|] == c;
  }

  lemma ExtendSplits<T>(o: Options<T>, g: seq<seq<T>>, init: seq<T>, x: T)
    requires Split(o, g, init) && Sizes(o, init + [x])
    ensures Split(o, Extend(o, g, x), init + [x])
  {
    PayloadSnoc(o, [], x);
    assert [] + [x] == [x] && (init + [x])[|init|] == x;
    assert ChunkOk(o, [x]);
    if g != [] && Fits(o, g[|g| - 1], x) {
      var front, last := g[..|g| - 1], g[|g| - 1];
      assert g == front + [last];
      assert ChunkOk(o, last + [x]);
      hide ChunkOk, Flatten, Fits;
    } else {
      hide ChunkOk, Flatten, Fits;
    }
  }

  lemma {:induction false} GreedySplits<T>(o: Options<T>, items: seq<T>)
    requires Sizes(o, items)
    ensures Split(o, Greedy(o, items), items)
  {
    if items != [] {
      var init, x := items[..|items| - 1], items[|items| - 1];
      GreedySplits(o, init);
      assert items == init + [x];
      ExtendSplits(o, Greedy(o, init), init, x);
    }
  }

  /** Dropping items from the front never makes a batch larger. */
  lemma {:induction false} SuffixIsSmaller<T>(o: Options<T>, c: seq<T>, k: nat)
    requires k < |c| && forall i :: 0 <= i < |c| ==> Bytes(o, c[i]) >= 0
    ensures Payload(o, c[k..]) <= Payload(o, c)
  {
    var init, x := c[..|c| - 1], c[|c| - 1];
    PayloadSnoc(o, init, x);
    assert c == init + [x];
    if k < |init| {
      SuffixIsSmaller(o, init, k);
      PayloadSnoc(o, init[k..], x);
      assert c[k..] == init[k..] + [x];
    } else {
      SumNonNegative(o, init);
      assert c[k..] == [] + [x];
      PayloadSnoc(o, [], x);
    }
  }

  lemma {:induction false} SumNonNegative<T>(o: Options<T>, c: seq<T>)
    requires forall i :: 0 <= i < |c| ==> Bytes(o, c[i]) >= 0
    ensures Sum(o, c) >= 0
  {
    if c != [] {
      SumNonNegative(o, c[..|c| - 1]);
    }
  }

  ghost predicate NoWorse<T>(g: seq<seq<T>>, q: seq<seq<T>>) {
    || |g| < |q|
    || (|g| == |q| && (g == [] || |g[|g| - 1]| <= |q[|q| - 1]|))
  }

  /** A split without the last item: that item's batch loses it, or goes if it held nothing else. */
  lemma WithoutLast<T>(o: Options<T>, q: seq<seq<T>>, init: seq<T>, x: T) returns (front: seq<seq<T>>, rest: seq<T>)
    requires Sizes(o, init + [x]) && Split(o, q, init + [x])
    ensures Sizes(o, init) && q == front + [rest + [x]] && init == Flatten(front) + rest
    ensures rest == [] ==> Split(o, front, init)
    ensures rest != [] ==>
              Split(o, front + [rest], init) && |rest| + 1 <= o.maxCount && Payload(o, rest + [x]) <= o.maxBytes
  {
    var last := q[|q| - 1];
    front, rest := q[..|q| - 1], last[..|last| - 1];
    assert ChunkOk(o, last);
    assert Flatten(front) + last == init + [x];
    hide *;
    EndsWith(o, last, Flatten(front), init, x);
    SizesOfParts(o, init, x, Flatten(front), rest);
    ShorterSplit(o, q, front, rest, x, init);
  }

  lemma EndsWith<T>(o: Options<T>, last: seq<T>, before: seq<T>, init: seq<T>, x: T)
    requires ChunkOk(o, last) && before + last == init + [x]
    ensures last == last[..|last| - 1] + [x] && init == before + last[..|last| - 1]
  {
    assert last != [] && (before + last)[|init|] == x;
    hide *;
    SplitSnoc(init, x, before, last[..|last| - 1]);
  }

  lemma ShorterSplit<T>(o: Options<T>, q: seq<seq<T>>, front: seq<seq<T>>, rest: seq<T>, x: T, init: seq<T>)
    requires q == front + [rest + [x]] && init == Flatten(front) + rest && Bytes(o, x) >= 0
    requires forall k :: 0 <= k < |q| ==> ChunkOk(o, q[k])
    ensures rest == [] ==> Split(o, front, init)
    ensures rest != [] ==>
              Split(o, front + [rest], init) && |rest| + 1 <= o.maxCount && Payload(o, rest + [x]) <= o.maxBytes
  {
    assert forall k :: 0 <= k < |front| ==> front[k] == q[k];
    assert ChunkOk(o, q[|front|]);
    if rest != [] {
      PayloadSnoc(o, rest, x);
      assert (front + [rest])[..|front|] == front;
      hide Payload, Bytes;
      assert ChunkOk(o, rest);
    }
  }

  lemma SplitSnoc<T>(init: seq<T>, x: T, a: seq<T>, b: seq<T>)
    requires init + [x] == a + (b + [x])
    ensures init == a + b
  {
    assert (init + [x])[..|init|] == init && (a + (b + [x]))[..|a + b|] == a + b;
  }

  /** The greedy split stays ahead of every other: it never has more batches, nor as many with a longer last one. */
  lemma {:induction false} GreedyStaysAhead<T>(o: Options<T>, items: seq<T>, q: seq<seq<T>>)
    requires Sizes(o, items) && Split(o, q, items)
    ensures NoWorse(Greedy(o, items), q)
    decreases |items|
  {
    if items == [] {
    } else {
      var init, x := items[..|items| - 1], items[|items| - 1];
      var g := Greedy(o, init);
      assert Greedy(o, items) == Extend(o, g, x) && items == init + [x];
      hide *;
      var front, rest := WithoutLast(o, q, init, x);
      if rest == [] {
        GreedyStaysAhead(o, init, front);
        StartsNoMore(o, g, front, x);
        assert [] + [x] == [x];
      } else {
        GreedyStaysAhead(o, init, front + [rest]);
        AlsoFits(o, init, x, front, rest);
        GrowsAlong(o, g, front, rest, x);
      }
    }
  }

  lemma AlsoFits<T>(o: Options<T>, init: seq<T>, x: T, front: seq<seq<T>>, rest: seq<T>)
    requires Sizes(o, init + [x]) && init == Flatten(front) + rest && rest != []
    requires |rest| + 1 <= o.maxCount && Payload(o, rest + [x]) <= o.maxBytes
    requires NoWorse(Greedy(o, init), front + [rest])
    ensures var g := Greedy(o, init); |g| == |front| + 1 ==> Fits(o, g[|g| - 1], x)
  {
    hide Greedy, Sizes, Flatten, Payload, Fits;
    if |Greedy(o, init)| == |front| + 1 {
      LastBatchFits(o, init, x, front, rest);
    }
  }

  /** Where the other split starts a batch with x, the greedy one starts no more than one. */
  lemma StartsNoMore<T>(o: Options<T>, g: seq<seq<T>>, front: seq<seq<T>>, x: T)
    requires NoWorse(g, front)
    ensures NoWorse(Extend(o, g, x), front + [[x]])
  {
    hide Fits;
  }

  /** Where the other split adds x to its last batch, the greedy one that is level with it does so, too. */
  lemma GrowsAlong<T>(o: Options<T>, g: seq<seq<T>>, front: seq<seq<T>>, rest: seq<T>, x: T)
    requires NoWorse(g, front + [rest]) && (|g| == |front| + 1 ==> Fits(o, g[|g| - 1], x))
    ensures NoWorse(Extend(o, g, x), front + [rest + [x]])
  {
    hide Fits;
  }

  /** If the last greedy batch is no longer than `rest`, which takes x, then it takes x as well. */
  lemma LastBatchFits<T>(o: Options<T>, init: seq<T>, x: T, front: seq<seq<T>>, rest: seq<T>)
    requires Sizes(o, init + [x]) && init == Flatten(front) + rest && rest != []
    requires |rest| + 1 <= o.maxCount && Payload(o, rest + [x]) <= o.maxBytes
    requires var g := Greedy(o, init); g != [] && |g[|g| - 1]| <= |rest|
    ensures var g := Greedy(o, init); Fits(o, g[|g| - 1], x)
  {
    hide *;
    var g := Greedy(o, init);
    var tail := g[|g| - 1];
    SizesOfParts(o, init, x, Flatten(front), rest);
    GreedyEnds(o, init);
    CommonSuffix(Flatten(g[..|g| - 1]), tail, Flatten(front), rest);
    SuffixFits(o, rest, tail, x);
  }

  lemma GreedyEnds<T>(o: Options<T>, init: seq<T>)
    requires Sizes(o, init) && Greedy(o, init) != []
    ensures var g := Greedy(o, init); Flatten(g[..|g| - 1]) + g[|g| - 1] == init
  {
    GreedySplits(o, init);
  }

  lemma SuffixFits<T>(o: Options<T>, rest: seq<T>, tail: seq<T>, x: T)
    requires |tail| <= |rest| && tail == rest[|rest| - |tail|..]
    requires |rest| + 1 <= o.maxCount && Payload(o, rest + [x]) <= o.maxBytes
    requires forall i :: 0 <= i < |rest + [x]| ==> Bytes(o, (rest + [x])[i]) >= 0
    ensures Fits(o, tail, x)
  {
    hide Bytes, Payload;
    var k := |rest| - |tail|;
    assert tail + [x] == (rest + [x])[k..];
    SuffixIsSmaller(o, rest + [x], k);
  }

  lemma SizesOfParts<T>(o: Options<T>, init: seq<T>, x: T, front: seq<T>, rest: seq<T>)
    requires Sizes(o, init + [x]) && init == front + rest
    ensures Sizes(o, init) && forall i :: 0 <= i < |rest + [x]| ==> Bytes(o, (rest + [x])[i]) >= 0
    ensures Bytes(o, x) >= 0
  {
    assert (init + [x])[|init|] == x;
    forall i | 0 <= i < |init|
      ensures Bytes(o, init[i]) >= 0
    {
      assert (init + [x])[i] == init[i];
    }
    forall i | 0 <= i < |rest + [x]|
      ensures Bytes(o, (rest + [x])[i]) >= 0
    {
      assert (init + [x])[|front| + i] == (rest + [x])[i];
    }
  }

  lemma CommonSuffix<T>(a: seq<T>, tail: seq<T>, b: seq<T>, rest: seq<T>)
    requires a + tail == b + rest && |tail| <= |rest|
    ensures tail == rest[|rest| - |tail|..]
  {
    assert tail == (a + tail)[|a|..];
    assert rest == (b + rest)[|b|..];
  }

  /** No order-preserving split that obeys the rule uses fewer batches than the greedy one. */
  lemma GreedyUsesFewestChunks<T>(o: Options<T>, items: seq<T>, q: seq<seq<T>>)
    requires Sizes(o, items) && Split(o, q, items)
    ensures |Greedy(o, items)| <= |q|
  {
    GreedyStaysAhead(o, items, q);
  }

  /** No batch has room, by count and by bytes, for the row that opens the next. */
  ghost predicate NoRoomLeft<T>(o: Options<T>, chunks: seq<seq<T>>) {
    forall k :: 0 <= k < |chunks| - 1 && chunks[k + 1] != [] ==>
      |chunks[k]| >= o.maxCount || Payload(o, chunks[k] + [chunks[k + 1][0]]) > o.maxBytes
  }

  lemma {:induction false} GreedyLeavesNoRoom<T>(o: Options<T>, items: seq<T>)
    ensures NoRoomLeft(o, Greedy(o, items)) && forall k :: 0 <= k < |Greedy(o, items)| ==> Greedy(o, items)[k] != []
  {
    if items != [] {
      var init, x := items[..|items| - 1], items[|items| - 1];
      GreedyLeavesNoRoom(o, init);
      ExtendLeavesNoRoom(o, Greedy(o, init), x);
    }
  }

  lemma ExtendLeavesNoRoom<T>(o: Options<T>, g: seq<seq<T>>, x: T)
    requires NoRoomLeft(o, g) && forall k :: 0 <= k < |g| ==> g[k] != []
    ensures var r := Extend(o, g, x); NoRoomLeft(o, r) && forall k :: 0 <= k < |r| ==> r[k] != []
  {
    var r := Extend(o, g, x);
    hide Payload;
    forall k | 0 <= k < |r| - 1 && r[k + 1] != []
      ensures |r[k]| >= o.maxCount || Payload(o, r[k] + [r[k + 1][0]]) > o.maxBytes
    {
      if k + 1 < |g| {
        assert r[k] == g[k] && r[k + 1][0] == g[k + 1][0];
      }
    }
  }

  /** The greedy split is the only one that obeys the rule and leaves no room. */
  lemma {:induction false} TheOnlySplitWithNoRoom<T>(o: Options<T>, items: seq<T>, q: seq<seq<T>>)
    requires Sizes(o, items) && Split(o, q, items) && NoRoomLeft(o, q)
    ensures q == Greedy(o, items)
    decreases |items|
  {
    if items == [] {
      NothingToSplit(o, q);
    } else {
      var init, x := items[..|items| - 1], items[|items| - 1];
      assert Greedy(o, items) == Extend(o, Greedy(o, init), x) && items == init + [x];
      hide *;
      var front, rest := WithoutLast(o, q, init, x);
      if rest == [] {
        StillNoRoom(o, front, [], x);
        TheOnlySplitWithNoRoom(o, init, front);
        OpensOne(o, front, x);
        assert [] + [x] == [x];
      } else {
        StillNoRoom(o, front, rest, x);
        TheOnlySplitWithNoRoom(o, init, front + [rest]);
        JoinsLast(o, front, rest, x);
      }
    }
  }

  lemma NothingToSplit<T>(o: Options<T>, q: seq<seq<T>>)
    requires Split(o, q, [])
    ensures q == Greedy(o, [])
  {
    assert |Flatten(q)| == 0;
    if q != [] {
      assert false;
    }
  }

  lemma StillNoRoom<T>(o: Options<T>, front: seq<seq<T>>, rest: seq<T>, x: T)
    requires NoRoomLeft(o, front + [rest + [x]])
    ensures NoRoomLeft(o, front) && (rest != [] ==> NoRoomLeft(o, front + [rest]))
  {
    var q := front + [rest + [x]];
    hide Payload;
    forall k | 0 <= k < |front| - 1 && front[k + 1] != []
      ensures |front[k]| >= o.maxCount || Payload(o, front[k] + [front[k + 1][0]]) > o.maxBytes
    {
      assert q[k] == front[k] && q[k + 1] == front[k + 1];
    }
    var r := front + [rest];
    forall k | rest != [] && 0 <= k < |r| - 1 && r[k + 1] != []
      ensures |r[k]| >= o.maxCount || Payload(o, r[k] + [r[k + 1][0]]) > o.maxBytes
    {
      assert q[k] == r[k] && q[k + 1][0] == r[k + 1][0];
    }
  }

  lemma OpensOne<T>(o: Options<T>, front: seq<seq<T>>, x: T)
    requires NoRoomLeft(o, front + [[] + [x]])
    ensures Extend(o, front, x) == front + [[x]]
  {
    hide Payload;
    assert [] + [x] == [x];
    if front != [] {
      var q := front + [[x]];
      assert q[|front| - 1] == front[|front| - 1] && q[|front| - 1 + 1][0] == x;
    }
  }

  lemma JoinsLast<T>(o: Options<T>, front: seq<seq<T>>, rest: seq<T>, x: T)
    requires |rest| + 1 <= o.maxCount && Payload(o, rest + [x]) <= o.maxBytes
    ensures Extend(o, front + [rest], x) == front + [rest + [x]]
  {
    hide Payload;
  }

  // ---------------------------------------------------------------- the sizes

  function Joined(parts: seq<string>): string {
    if parts == [] then [] else if |parts| == 1 then parts[0]
    else Joined(parts[..|parts| - 1]) + "," + parts[|parts| - 1]
  }

  /** If the sizes are the lengths of the serialized rows, the payload of a batch is the length of the JSON array. */
  lemma {:induction false} PayloadIsJsonLength<T>(o: Options<T>, items: seq<T>, json: seq<string>)
    requires |json| == |items| && forall k :: 0 <= k < |items| ==> Bytes(o, items[k]) == |json[k]|
    ensures Payload(o, items) == |"[" + Joined(json) + "]"|
  {
    if |items| > 1 {
      PayloadIsJsonLength(o, items[..|items| - 1], json[..|json| - 1]);
    } else if |items| == 1 {
      assert Sum(o, items[..0]) == 0;
    }
  }

  /** A size is rounded up to the next whole byte. */
  lemma BytesRoundUp<T>(o: Options<T>, item: T)
    ensures (Bytes(o, item) - 1) as real < o.sizeOf(item) <= Bytes(o, item) as real
  {
  }

  /** Where the rows are that exceed the budget by themselves. */
  function OversizedAt<T>(o: Options<T>, items: seq<T>): set<nat> {
    set k: nat | k < |items| && 2 + Bytes(o, items[k]) > o.maxBytes
  }

  lemma {:induction false} CountOversizedCounts<T>(o: Options<T>, items: seq<T>)
    ensures CountOversized(o, items) == |OversizedAt(o, items)|
  {
    if items != [] {
      var init, n := items[..|items| - 1], |items| - 1;
      CountOversizedCounts(o, init);
      assert forall k: nat :: k < n ==> init[k] == items[k];
      assert OversizedAt(o, items) ==
             if Oversized(o, items[n]) then OversizedAt(o, init) + {n} else OversizedAt(o, init);
    }
  }

  // ---------------------------------------------------------------- the loop

  function CountOversized<T>(o: Options<T>, items: seq<T>): nat {
    if items == [] then 0
    else CountOversized(o, items[..|items| - 1]) + (if Oversized(o, items[|items| - 1]) then 1 else 0)
  }

  datatype Chunks<T> = Chunks(chunks: seq<seq<T>>, oversized: nat) | Invalid(error: ChunkError)

  /** The batches of the two mutable variables of the loop. */
  function Batches<T>(out: seq<seq<T>>, current: seq<T>): seq<seq<T>> {
    if current == [] then out else out + [current]
  }

  /** The loop's variables agree with each other: the byte count is exact, and only a lone oversized row leaves
      `current` empty. */
  ghost predicate LoopOk<T>(o: Options<T>, out: seq<seq<T>>, current: seq<T>, currentBytes: int) {
    && currentBytes == Payload(o, current)
    && (forall k :: 0 <= k < |current| ==> Bytes(o, current[k]) >= 0)
    && (current == [] && out != [] ==> Payload(o, out[|out| - 1]) > o.maxBytes)
  }

  /** One turn of the loop, for an item with a valid size. */
  method AddItem<T>(o: Options<T>, out: seq<seq<T>>, current: seq<T>, currentBytes: int, item: T)
    returns (out': seq<seq<T>>, current': seq<T>, currentBytes': int, oversized: bool)
    requires o.maxCount > 0 && Bytes(o, item) >= 0 && LoopOk(o, out, current, currentBytes)
    ensures LoopOk(o, out', current', currentBytes') && oversized == Oversized(o, item)
    ensures Batches(out', current') == Extend(o, Batches(out, current), item)
  {
    var itemBytes := Ceil(o.sizeOf(item));
    NextItem(o, out, current, item);
    out', current', currentBytes' := out, current, currentBytes;
    oversized := JSON_ARRAY_OVERHEAD_BYTES + itemBytes > o.maxBytes;
    if oversized {
      out', current', currentBytes' := Flush(o, out', current');
      out' := out' + [[item]];
      return;
    }
    var separatorBytes := if current' == [] then 0 else JSON_ARRAY_SEPARATOR_BYTES;
    if currentBytes' + separatorBytes + itemBytes > o.maxBytes || |current'| >= o.maxCount {
      out', current', currentBytes' := Flush(o, out', current');
    }
    PayloadSnoc(o, current', item);
    currentBytes' := currentBytes' + (if current' == [] then 0 else JSON_ARRAY_SEPARATOR_BYTES) + itemBytes;
    current' := current' + [item];
  }

  method Flush<T>(o: Options<T>, out: seq<seq<T>>, current: seq<T>)
    returns (out': seq<seq<T>>, current': seq<T>, currentBytes': int)
    ensures out' == Batches(out, current) && current' == [] && currentBytes' == JSON_ARRAY_OVERHEAD_BYTES
  {
    out', current', currentBytes' := out, [], JSON_ARRAY_OVERHEAD_BYTES;
    if current != [] {
      out' := out + [current];
    }
  }

  method ChunkByBudget<T>(items: seq<T>, o: Options<T>) returns (r: Chunks<T>)
    ensures r.Invalid? <==> !Sizes(o, items)
    ensures r.Invalid? ==> r.error == if o.maxBytes <= JSON_ARRAY_OVERHEAD_BYTES then BadMaxBytes
                                      else if o.maxCount <= 0 then BadMaxCount else BadSize
    ensures r.Chunks? ==> Split(o, r.chunks, items) && r.oversized == CountOversized(o, items)
    ensures r.Chunks? ==> r.chunks == Greedy(o, items) && r.oversized == |OversizedAt(o, items)|
  {
    if o.maxBytes <= JSON_ARRAY_OVERHEAD_BYTES {
      return Invalid(BadMaxBytes);
    }
    if o.maxCount <= 0 {
      return Invalid(BadMaxCount);
    }
    var out: seq<seq<T>>, current: seq<T>, currentBytes := [], [], JSON_ARRAY_OVERHEAD_BYTES;
    var oversized := 0;
    var i := 0;
    while i < |items|
      invariant 0 <= i <= |items| && oversized == CountOversized(o, items[..i])
      invariant forall k :: 0 <= k < i ==> Bytes(o, items[k]) >= 0
      invariant LoopOk(o, out, current, currentBytes) && Batches(out, current) == Greedy(o, items[..i])
    {
      if Ceil(o.sizeOf(items[i])) < 0 {
        assert Bytes(o, items[i]) < 0;
        return Invalid(BadSize);
      }
      assert items[..i + 1][..i] == items[..i];
      var alone;
      out, current, currentBytes, alone := AddItem(o, out, current, currentBytes, items[i]);
      if alone {
        oversized := oversized + 1;
      }
      i := i + 1;
    }
    assert items[..i] == items;
    GreedySplits(o, items);
    CountOversizedCounts(o, items);
    out, current, currentBytes := Flush(o, out, current);
    r := Chunks(out, oversized);
  }

  /** The two tests of the loop are the greedy rule. */
  lemma NextItem<T>(o: Options<T>, out: seq<seq<T>>, current: seq<T>, item: T)
    requires Bytes(o, item) >= 0 && o.maxCount > 0
    requires current == [] && out != [] ==> Payload(o, out[|out| - 1]) > o.maxBytes
    requires forall k :: 0 <= k < |current| ==> Bytes(o, current[k]) >= 0
    ensures var fits := Payload(o, current) + (if current == [] then 0 else 1) + Bytes(o, item) <= o.maxBytes
                        && |current| < o.maxCount;
            Extend(o, Batches(out, current), item) ==
            if fits && current != [] then out + [current + [item]] else Batches(out, current) + [[item]]
    ensures Payload(o, [item]) == JSON_ARRAY_OVERHEAD_BYTES + Bytes(o, item)
    ensures Oversized(o, item) && current != [] ==> Payload(o, current) + 1 + Bytes(o, item) > o.maxBytes
  {
    PayloadSnoc(o, [], item);
    assert [] + [item] == [item];
    SumNonNegative(o, current);
    PayloadSnoc(o, current, item);
    if current == [] && out != [] {
      PayloadSnoc(o, out[|out| - 1], item);
    }
  }
}
