/**
 Batch writes that are halved when the server rejects them for size
 (writeWithAdaptiveSplit and the write-group helpers in src/application/indexing/persistence-helpers.ts).
 */
module AdaptiveWrite {
  import opened Prelude
  import Chunking

  /** What the server answers to one write call; a rejected batch is not written at all. */
  datatype Reply = Accepted | ResourceExhausted | OtherError

  /** The server's answer to its n-th call, for the batch it is given. */
  type Behaviour<!T> = (nat, seq<T>) -> Reply

  datatype Failure = SingleRowTooLarge | Rethrown | BadOptions

  /** Everything that one call of writeWithAdaptiveSplit did. */
  datatype Effect<T> = Effect(failure: Option<Failure>, written: seq<T>, attempts: nat, splits: nat)

  function WriteWithAdaptiveSplit<T>(server: Behaviour<T>, call: nat, items: seq<T>): (e: Effect<T>)
    decreases |items|
  {
    match server(call, items)
    case Accepted => Effect(None, items, 1, 0)
    case OtherError => Effect(Some(Rethrown), [], 1, 0)
    case ResourceExhausted =>
      if |items| <= 1 then Effect(Some(SingleRowTooLarge), [], 1, 0)
      else
        var left := WriteWithAdaptiveSplit(server, call + 1, FirstHalf(items));
        if left.failure.Some? then Retry(left)
        else Both(left, WriteWithAdaptiveSplit(server, call + 1 + left.attempts, SecondHalf(items)))
  }

  function FirstHalf<T>(items: seq<T>): (r: seq<T>)
    ensures |items| > 1 ==> 0 < |r| < |items|
    ensures r + SecondHalf(items) == items
  {
    items[..|items| / 2]
  }

  function SecondHalf<T>(items: seq<T>): (r: seq<T>)
    ensures |items| > 1 ==> 0 < |r| < |items|
  {
    items[|items| / 2..]
  }

  /** A rejected call and the retry of the first half. */
  function Retry<T>(left: Effect<T>): Effect<T> {
    Effect(left.failure, left.written, 1 + left.attempts, 1 + left.splits)
  }

  /** A rejected call and the retries of both halves. */
  function Both<T>(left: Effect<T>, right: Effect<T>): Effect<T> {
    Effect(right.failure, left.written + right.written,
           1 + left.attempts + right.attempts, 1 + left.splits + right.splits)
  }

  /** Every row once, in order, with 2*splits + 1 calls, and at most 2n - 1 of them for n rows. */
  ghost predicate Complete<T>(e: Effect<T>, items: seq<T>) {
    && e.written == items && e.attempts == 2 * e.splits + 1
    && (|items| > 0 ==> e.attempts <= 2 * |items| - 1)
  }

  /** Only rows in front, and not all of them. */
  ghost predicate Partial<T>(e: Effect<T>, items: seq<T>) {
    e.written <= items && (items != [] ==> |e.written| < |items|)
  }

  ghost predicate Sound<T>(e: Effect<T>, items: seq<T>) {
    && (e.failure.None? ==> Complete(e, items))
    && (e.failure.Some? ==> Partial(e, items) && e.failure != Some(BadOptions))
  }

  lemma SoundHalves<T>(left: Effect<T>, right: Effect<T>, a: seq<T>, b: seq<T>)
    requires Sound(left, a) && Sound(right, b) && a != [] && b != []
    ensures left.failure.None? ==> Sound(Both(left, right), a + b)
    ensures left.failure.Some? ==> Sound(Retry(left), a + b)
  {
  }

  lemma SoundLeaf<T>(server: Behaviour<T>, call: nat, items: seq<T>)
    requires server(call, items) != ResourceExhausted || |items| <= 1
    ensures Sound(WriteWithAdaptiveSplit(server, call, items), items)
  {
  }

  lemma SplitStep<T>(server: Behaviour<T>, call: nat, items: seq<T>)
    requires server(call, items) == ResourceExhausted && |items| > 1
    ensures var left := WriteWithAdaptiveSplit(server, call + 1, FirstHalf(items));
            WriteWithAdaptiveSplit(server, call, items) ==
            if left.failure.Some? then Retry(left)
            else Both(left, WriteWithAdaptiveSplit(server, call + 1 + left.attempts, SecondHalf(items)))
  {
  }

  /** Whatever the server answers, success means that every row was written, and failure that a proper prefix was. */
  lemma {:induction false} WritesAllOrAPrefix<T>(server: Behaviour<T>, call: nat, items: seq<T>)
    ensures Sound(WriteWithAdaptiveSplit(server, call, items), items)
    decreases |items|
  {
    hide *;
    if server(call, items) == ResourceExhausted && |items| > 1 {
      var a, b := FirstHalf(items), SecondHalf(items);
      var left := WriteWithAdaptiveSplit(server, call + 1, a);
      var right := WriteWithAdaptiveSplit(server, call + 1 + left.attempts, b);
      SplitStep(server, call, items);
      WritesAllOrAPrefix(server, call + 1, a);
      WritesAllOrAPrefix(server, call + 1 + left.attempts, b);
      SoundHalves(left, right, a, b);
    } else {
      SoundLeaf(server, call, items);
    }
  }

  /** The batches tried, in order. */
  function Tried<T>(server: Behaviour<T>, call: nat, items: seq<T>): (batches: seq<seq<T>>)
    decreases |items|
  {
    if server(call, items) != ResourceExhausted || |items| <= 1 then [items]
    else
      var left := Tried(server, call + 1, FirstHalf(items));
      if Stops(server, call + 1, left) then [items] + left
      else [items] + left + Tried(server, call + 1 + |left|, SecondHalf(items))
  }

  /** The last of these tries ended the write: with an error that is not about size, or with a single row that is
      too large. */
  predicate Stops<T>(server: Behaviour<T>, call: nat, batches: seq<seq<T>>) {
    batches != [] &&
      var last := batches[|batches| - 1];
      match server(call + |batches| - 1, last)
      case Accepted => false
      case OtherError => true
      case ResourceExhausted => |last| <= 1
  }

  /** The failure that a last try means. */
  function FailureOf<T>(server: Behaviour<T>, call: nat, batches: seq<seq<T>>): Option<Failure> {
    if !Stops(server, call, batches) then None
    else if server(call + |batches| - 1, batches[|batches| - 1]) == OtherError then Some(Rethrown)
    else Some(SingleRowTooLarge)
  }

  /** No try but the last ended the write. */
  ghost predicate GoesOn<T>(server: Behaviour<T>, call: nat, batches: seq<seq<T>>) {
    forall k :: 0 <= k < |batches| - 1 ==>
      server(call + k, batches[k]) != OtherError
      && (server(call + k, batches[k]) == ResourceExhausted ==> |batches[k]| > 1)
  }

  lemma GoesOnConcat<T>(server: Behaviour<T>, call: nat, items: seq<T>, left: seq<seq<T>>, right: seq<seq<T>>)
    requires server(call, items) == ResourceExhausted && |items| > 1
    requires left != [] && GoesOn(server, call + 1, left)
    requires right != [] ==> GoesOn(server, call + 1 + |left|, right) && !Stops(server, call + 1, left)
    ensures var all := [items] + left + right;
            && GoesOn(server, call, all)
            && FailureOf(server, call, all) ==
               if right == [] then FailureOf(server, call + 1, left) else FailureOf(server, call + 1 + |left|, right)
  {
    var all := [items] + left + right;
    forall k | 0 <= k < |all| - 1
      ensures server(call + k, all[k]) != OtherError
      ensures server(call + k, all[k]) == ResourceExhausted ==> |all[k]| > 1
    {
      if 1 <= k <= |left| {
        assert all[k] == left[k - 1] && server(call + k, all[k]) == server(call + 1 + (k - 1), left[k - 1]);
      } else if k > |left| {
        var n := k - 1 - |left|;
        assert all[k] == right[n] && server(call + k, all[k]) == server(call + 1 + |left| + n, right[n]);
      }
    }
  }

  /** The write fails exactly as its last try did, and no try before that was one to fail on: an error that is not
      about size is thrown at once, without a split. */
  lemma {:induction false} FailureIsTheLastTry<T>(server: Behaviour<T>, call: nat, items: seq<T>)
    ensures var e, batches := WriteWithAdaptiveSplit(server, call, items), Tried(server, call, items);
            && batches != [] && batches[0] == items && |batches| == e.attempts
            && GoesOn(server, call, batches) && e.failure == FailureOf(server, call, batches)
    decreases |items|
  {
    hide *;
    if server(call, items) == ResourceExhausted && |items| > 1 {
      var a, b := FirstHalf(items), SecondHalf(items);
      var left, e := Tried(server, call + 1, a), WriteWithAdaptiveSplit(server, call + 1, a);
      SplitStep(server, call, items);
      TriedSplits(server, call, items);
      FailureIsTheLastTry(server, call + 1, a);
      StopsIffFails(server, call + 1, left);
      if Stops(server, call + 1, left) {
        GoesOnConcat(server, call, items, left, []);
        HalvesTell(e, e);
        assert [items] + left + [] == [items] + left;
      } else {
        var right := Tried(server, call + 1 + |left|, b);
        FailureIsTheLastTry(server, call + 1 + |left|, b);
        GoesOnConcat(server, call, items, left, right);
        HalvesTell(e, WriteWithAdaptiveSplit(server, call + 1 + |left|, b));
      }
    } else {
      OneTry(server, call, items);
    }
  }

  lemma OneTry<T>(server: Behaviour<T>, call: nat, items: seq<T>)
    requires server(call, items) != ResourceExhausted || |items| <= 1
    ensures var e, batches := WriteWithAdaptiveSplit(server, call, items), Tried(server, call, items);
            && batches == [items] && e.attempts == 1
            && GoesOn(server, call, batches) && e.failure == FailureOf(server, call, batches)
  {
  }

  lemma HalvesTell<T>(left: Effect<T>, right: Effect<T>)
    ensures Retry(left).failure == left.failure && Retry(left).attempts == 1 + left.attempts
    ensures Both(left, right).failure == right.failure
    ensures Both(left, right).attempts == 1 + left.attempts + right.attempts
  {
  }

  lemma StopsIffFails<T>(server: Behaviour<T>, call: nat, batches: seq<seq<T>>)
    ensures Stops(server, call, batches) <==> FailureOf(server, call, batches).Some?
  {
  }

  lemma TriedSplits<T>(server: Behaviour<T>, call: nat, items: seq<T>)
    requires server(call, items) == ResourceExhausted && |items| > 1
    ensures var left := Tried(server, call + 1, FirstHalf(items));
            Tried(server, call, items) ==
            if Stops(server, call + 1, left) then [items] + left
            else [items] + left + Tried(server, call + 1 + |left|, SecondHalf(items))
  {
  }

  /** The halves are as even as can be, the first not the larger. */
  lemma HalvesAreEven<T>(items: seq<T>)
    ensures FirstHalf(items) + SecondHalf(items) == items
    ensures |SecondHalf(items)| - 1 <= |FirstHalf(items)| <= |SecondHalf(items)|
  {
  }

  // ---------------------------------------------------------------- a server with a message limit

  /** A server that rejects exactly the batches that do not fit. */
  ghost predicate HasLimit<T(!new)>(server: Behaviour<T>, fits: seq<T> -> bool) {
    && (forall call, batch :: server(call, batch) == if fits(batch) then Accepted else ResourceExhausted)
    && (forall batch, k :: fits(batch) && 0 <= k < |batch| ==> fits([batch[k]]))
  }

  /** The rows before the first one that does not fit alone. */
  function FittingPrefix<T>(items: seq<T>, fits: seq<T> -> bool): (r: seq<T>)
    ensures r <= items
  {
    if items == [] || !fits([items[0]]) then [] else [items[0]] + FittingPrefix(items[1..], fits)
  }

  lemma {:induction false} FittingPrefixConcat<T>(a: seq<T>, b: seq<T>, fits: seq<T> -> bool)
    ensures FittingPrefix(a + b, fits) ==
            if FittingPrefix(a, fits) == a then a + FittingPrefix(b, fits) else FittingPrefix(a, fits)
  {
    if a == [] {
      assert a + b == b;
    } else {
      assert (a + b)[1..] == a[1..] + b;
      FittingPrefixConcat(a[1..], b, fits);
      assert a == [a[0]] + a[1..];
    }
  }

  lemma {:induction false} AllFit<T>(items: seq<T>, fits: seq<T> -> bool)
    ensures FittingPrefix(items, fits) == items <==> forall k :: 0 <= k < |items| ==> fits([items[k]])
  {
    if items != [] {
      assert items == [items[0]] + items[1..];
      AllFit(items[1..], fits);
      if fits([items[0]]) {
        assert FittingPrefix(items, fits) == items <==> FittingPrefix(items[1..], fits) == items[1..];
        assert (forall k :: 0 <= k < |items[1..]| ==> fits([items[1..][k]])) <==>
               (forall k :: 1 <= k < |items| ==> fits([items[k]])) by {
          if forall k :: 0 <= k < |items[1..]| ==> fits([items[1..][k]]) {
            forall k | 1 <= k < |items| ensures fits([items[k]]) { assert items[k] == items[1..][k - 1]; }
          }
        }
      }
    }
  }

  /** The effect against a server with a limit: the fitting prefix, and failure exactly if that is not everything. */
  ghost predicate Fitting<T>(e: Effect<T>, items: seq<T>, fits: seq<T> -> bool) {
    && e.written == FittingPrefix(items, fits)
    && e.failure == if e.written == items then None else Some(SingleRowTooLarge)
  }

  lemma FittingHalves<T>(left: Effect<T>, right: Effect<T>, a: seq<T>, b: seq<T>, fits: seq<T> -> bool)
    requires Fitting(left, a, fits) && Fitting(right, b, fits) && a != []
    ensures left.failure.None? ==> Fitting(Both(left, right), a + b, fits)
    ensures left.failure.Some? ==> Fitting(Retry(left), a + b, fits)
  {
    FittingPrefixConcat(a, b, fits);
    if left.failure.Some? {
      assert |left.written| < |a + b|;
    }
  }

  lemma {:induction false} WritesTheFittingPrefix<T(!new)>(server: Behaviour<T>, call: nat, items: seq<T>,
                                                           fits: seq<T> -> bool)
    requires HasLimit(server, fits) && items != []
    ensures Fitting(WriteWithAdaptiveSplit(server, call, items), items, fits)
    decreases |items|
  {
    hide *;
    if fits(items) || |items| == 1 {
      FitsOrStops(server, call, items, fits);
    } else {
      var a, b := FirstHalf(items), SecondHalf(items);
      var left := WriteWithAdaptiveSplit(server, call + 1, a);
      var right := WriteWithAdaptiveSplit(server, call + 1 + left.attempts, b);
      TooLargeSplits(server, call, items, fits);
      assert a + b == items;
      WritesTheFittingPrefix(server, call + 1, a, fits);
      WritesTheFittingPrefix(server, call + 1 + left.attempts, b, fits);
      FittingHalves(left, right, a, b, fits);
    }
  }

  lemma FitsOrStops<T(!new)>(server: Behaviour<T>, call: nat, items: seq<T>, fits: seq<T> -> bool)
    requires HasLimit(server, fits) && items != [] && (fits(items) || |items| == 1)
    ensures Fitting(WriteWithAdaptiveSplit(server, call, items), items, fits)
  {
    if fits(items) {
      AllFit(items, fits);
    } else {
      assert items == [items[0]];
    }
  }

  lemma TooLargeSplits<T(!new)>(server: Behaviour<T>, call: nat, items: seq<T>, fits: seq<T> -> bool)
    requires HasLimit(server, fits) && !fits(items) && |items| > 1
    ensures var left := WriteWithAdaptiveSplit(server, call + 1, FirstHalf(items));
            WriteWithAdaptiveSplit(server, call, items) ==
            if left.failure.Some? then Retry(left)
            else Both(left, WriteWithAdaptiveSplit(server, call + 1 + left.attempts, SecondHalf(items)))
  {
  }

  /**
   Against a server with a message limit the write succeeds if and only if every row fits alone, and
   otherwise exactly the rows before the first unfit one have been written.
   */
  lemma LimitServerExact<T(!new)>(server: Behaviour<T>, call: nat, items: seq<T>, fits: seq<T> -> bool)
    requires HasLimit(server, fits) && items != []
    ensures var e := WriteWithAdaptiveSplit(server, call, items);
            && e.written == FittingPrefix(items, fits)
            && (e.failure.None? <==> forall k :: 0 <= k < |items| ==> fits([items[k]]))
            && (e.failure.Some? ==> e.failure.value == SingleRowTooLarge)
  {
    WritesTheFittingPrefix(server, call, items, fits);
    AllFit(items, fits);
  }

  // ---------------------------------------------------------------- batch after batch

  /** One effect after another that succeeded. */
  function Then<T>(e: Effect<T>, f: Effect<T>): Effect<T> {
    Effect(f.failure, e.written + f.written, e.attempts + f.attempts, e.splits + f.splits)
  }

  /** What writing one batch after the other does, up to the first that fails. */
  function WriteChunks<T>(server: Behaviour<T>, call: nat, chunks: seq<seq<T>>): Effect<T> {
    if chunks == [] then Effect(None, [], 0, 0)
    else
      var e := WriteChunks(server, call, chunks[..|chunks| - 1]);
      if e.failure.Some? then e
      else
        Then(e, WriteWithAdaptiveSplit(server, call + e.attempts, chunks[|chunks| - 1]))
  }

  lemma OneMoreChunk<T>(server: Behaviour<T>, call: nat, chunks: seq<seq<T>>, i: nat)
    requires i < |chunks|
    ensures var e := WriteChunks(server, call, chunks[..i]);
            WriteChunks(server, call, chunks[..i + 1]) ==
            if e.failure.Some? then e else Then(e, WriteWithAdaptiveSplit(server, call + e.attempts, chunks[i]))
  {
    hide WriteWithAdaptiveSplit, Then;
    assert chunks[..i + 1][..i] == chunks[..i];
  }

  /** Nothing is written after a failure. */
  lemma {:induction false} FailureStays<T>(server: Behaviour<T>, call: nat, chunks: seq<seq<T>>, i: nat)
    requires i <= |chunks| && WriteChunks(server, call, chunks[..i]).failure.Some?
    ensures WriteChunks(server, call, chunks) == WriteChunks(server, call, chunks[..i])
    decreases |chunks| - i
  {
    if i < |chunks| {
      OneMoreChunk(server, call, chunks, i);
      FailureStays(server, call, chunks, i + 1);
    } else {
      assert chunks[..i] == chunks;
    }
  }

  /** All of the chunks in order, or a proper prefix of their rows. */
  lemma {:induction false} ChunksAllOrAPrefix<T>(server: Behaviour<T>, call: nat, chunks: seq<seq<T>>)
    requires forall k :: 0 <= k < |chunks| ==> chunks[k] != []
    ensures var e, rows := WriteChunks(server, call, chunks), Chunking.Flatten(chunks);
            && (e.failure.None? ==> e.written == rows)
            && (e.failure.Some? ==> e.written <= rows && |e.written| < |rows| && e.failure != Some(BadOptions))
  {
    if chunks != [] {
      var init, last := chunks[..|chunks| - 1], chunks[|chunks| - 1];
      ChunksAllOrAPrefix(server, call, init);
      WritesAllOrAPrefix(server, call + WriteChunks(server, call, init).attempts, last);
      hide WriteWithAdaptiveSplit;
    }
  }

  lemma FittingStays<T>(e: Effect<T>, a: seq<T>, b: seq<T>, fits: seq<T> -> bool)
    requires Fitting(e, a, fits) && e.failure.Some?
    ensures Fitting(e, a + b, fits)
  {
    FittingPrefixConcat(a, b, fits);
    assert |e.written| < |a + b|;
  }

  lemma FittingThen<T>(e: Effect<T>, f: Effect<T>, a: seq<T>, b: seq<T>, fits: seq<T> -> bool)
    requires Fitting(e, a, fits) && e.failure.None? && Fitting(f, b, fits)
    ensures Fitting(Then(e, f), a + b, fits)
  {
    FittingPrefixConcat(a, b, fits);
    assert a + f.written == a + b <==> f.written == b by {
      assert (a + f.written)[|a|..] == f.written && (a + b)[|a|..] == b;
    }
  }

  lemma {:induction false} ChunksWriteTheFittingPrefix<T(!new)>(server: Behaviour<T>, call: nat, chunks: seq<seq<T>>,
                                                                fits: seq<T> -> bool)
    requires HasLimit(server, fits) && forall k :: 0 <= k < |chunks| ==> chunks[k] != []
    ensures Fitting(WriteChunks(server, call, chunks), Chunking.Flatten(chunks), fits)
  {
    hide *;
    if chunks == [] {
      NothingToFit(server, call, fits);
    } else {
      var init, last := chunks[..|chunks| - 1], chunks[|chunks| - 1];
      var e := WriteChunks(server, call, init);
      var f := WriteWithAdaptiveSplit(server, call + e.attempts, last);
      LastChunk(server, call, chunks);
      ChunksWriteTheFittingPrefix(server, call, init, fits);
      WritesTheFittingPrefix(server, call + e.attempts, last, fits);
      if e.failure.Some? {
        FittingStays(e, Chunking.Flatten(init), last, fits);
      } else {
        FittingThen(e, f, Chunking.Flatten(init), last, fits);
      }
    }
  }

  lemma NothingToFit<T(!new)>(server: Behaviour<T>, call: nat, fits: seq<T> -> bool)
    ensures Fitting(WriteChunks(server, call, []), Chunking.Flatten([]), fits)
  {
  }

  lemma LastChunk<T>(server: Behaviour<T>, call: nat, chunks: seq<seq<T>>)
    requires chunks != []
    ensures var init, last := chunks[..|chunks| - 1], chunks[|chunks| - 1];
            var e := WriteChunks(server, call, init);
            && Chunking.Flatten(chunks) == Chunking.Flatten(init) + last
            && WriteChunks(server, call, chunks) ==
               if e.failure.Some? then e else Then(e, WriteWithAdaptiveSplit(server, call + e.attempts, last))
  {
    hide WriteWithAdaptiveSplit, Then;
  }

  /** A whole group in greedy chunks, against a server with a message limit: it succeeds if and only if every row
      fits alone, and otherwise exactly the rows before the first unfit one have been written. */
  lemma {:induction false} LimitServerExactForGroups<T(!new)>(server: Behaviour<T>, call: nat, rows: seq<T>,
                                                              o: Chunking.Options<T>, fits: seq<T> -> bool)
    requires HasLimit(server, fits) && Chunking.Sizes(o, rows)
    ensures var e := WriteChunks(server, call, Chunking.Greedy(o, rows));
            && e.written == FittingPrefix(rows, fits)
            && (e.failure.None? <==> forall k :: 0 <= k < |rows| ==> fits([rows[k]]))
            && (e.failure.Some? ==> e.failure.value == SingleRowTooLarge)
  {
    var chunks := Chunking.Greedy(o, rows);
    Chunking.GreedySplits(o, rows);
    forall k | 0 <= k < |chunks|
      ensures chunks[k] != []
    {
      assert Chunking.ChunkOk(o, chunks[k]);
    }
    ChunksWriteTheFittingPrefix(server, call, chunks, fits);
    AllFit(rows, fits);
  }

  // ---------------------------------------------------------------- the methods

  class Server<!T> {
    const behaviour: Behaviour<T>
    var calls: nat
    var written: seq<T>

    constructor (behaviour: Behaviour<T>)
      ensures this.behaviour == behaviour && calls == 0 && written == []
    {
      this.behaviour, calls, written := behaviour, 0, [];
    }

    method Write(batch: seq<T>) returns (reply: Reply)
      modifies this
      ensures reply == behaviour(old(calls), batch) && calls == old(calls) + 1
      ensures written == if reply == Accepted then old(written) + batch else old(written)
    {
      reply := behaviour(calls, batch);
      calls := calls + 1;
      if reply == Accepted {
        written := written + batch;
      }
    }
  }

  lemma LeafEffect<T>(server: Behaviour<T>, call: nat, items: seq<T>)
    ensures var e, reply := WriteWithAdaptiveSplit(server, call, items), server(call, items);
            && (reply == Accepted ==> e == Effect(None, items, 1, 0))
            && (reply == OtherError ==> e == Effect(Some(Rethrown), [], 1, 0))
            && (reply == ResourceExhausted && |items| <= 1 ==> e == Effect(Some(SingleRowTooLarge), [], 1, 0))
  {
  }

  method WriteSplitting<T>(server: Server<T>, items: seq<T>) returns (failure: Option<Failure>, splits: nat)
    modifies server
    ensures var e := WriteWithAdaptiveSplit(server.behaviour, old(server.calls), items);
            && failure == e.failure && splits == e.splits
            && server.calls == old(server.calls) + e.attempts
            && server.written == old(server.written) + e.written
    decreases |items|
  {
    hide *;
    LeafEffect(server.behaviour, server.calls, items);
    ghost var call := server.calls;
    var reply := server.Write(items);
    if reply != ResourceExhausted {
      failure := if reply == Accepted then None else Some(Rethrown);
      return failure, 0;
    }
    if |items| <= 1 {
      return Some(SingleRowTooLarge), 0;
    }
    SplitStep(server.behaviour, call, items);
    failure, splits := WriteHalves(server, items);
  }

  /** The retries of the two halves of a rejected batch. */
  method WriteHalves<T>(server: Server<T>, items: seq<T>) returns (failure: Option<Failure>, splits: nat)
    requires |items| > 1
    modifies server
    ensures var call := old(server.calls);
            var left := WriteWithAdaptiveSplit(server.behaviour, call, FirstHalf(items));
            var right := WriteWithAdaptiveSplit(server.behaviour, call + left.attempts, SecondHalf(items));
            var e := if left.failure.Some? then Retry(left) else Both(left, right);
            && failure == e.failure && splits == e.splits
            && server.calls + 1 == call + e.attempts
            && server.written == old(server.written) + e.written
    decreases |items|, 0
  {
    hide WriteWithAdaptiveSplit;
    failure, splits := WriteSplitting(server, FirstHalf(items));
    splits := splits + 1;
    if failure.Some? {
      return;
    }
    var more;
    failure, more := WriteSplitting(server, SecondHalf(items));
    splits := splits + more;
  }

  /** What a write-group helper reports: rows through onRows, batch calls, and oversized rows. */
  datatype Report = Report(failure: Option<Failure>, rows: nat, batches: nat, oversized: nat)

  /** A proper prefix of the rows was appended, and no more rows reported than that. */
  ghost predicate WroteSome<T>(before: seq<T>, rows: seq<T>, after: seq<T>, reported: nat) {
    var n := |after| - |before|;
    reported <= n < |rows| && after == before + rows[..n]
  }

  /**
   writeNodeGroup, writeRelationshipGroup and writeVectorEntries: batch by batch if the adapter takes
   batches, else row by row. On success every row is written once, in order, and reported once; on
   failure a proper prefix is written, and no row is reported that was not written.
   */
  method WriteGroup<T>(server: Server<T>, rows: seq<T>, o: Chunking.Options<T>, batched: bool) returns (r: Report)
    modifies server
    ensures r.failure.None? ==> server.written == old(server.written) + rows && r.rows == |rows|
    ensures r.failure.Some? ==> WroteSome(old(server.written), rows, server.written, r.rows)
    ensures r.failure == Some(BadOptions) <==> batched && rows != [] && !Chunking.Sizes(o, rows)
    ensures batched && rows != [] && Chunking.Sizes(o, rows) ==>
              var e := WriteChunks(server.behaviour, old(server.calls), Chunking.Greedy(o, rows));
              r.failure == e.failure && server.written == old(server.written) + e.written
  {
    if rows == [] {
      assert server.written == old(server.written) + rows;
      return Report(None, 0, 0, 0);
    }
    if batched {
      r := WriteBatches(server, rows, o);
    } else {
      r := WriteRows(server, rows);
    }
  }

  method WriteRows<T>(server: Server<T>, rows: seq<T>) returns (r: Report)
    modifies server
    ensures r.failure.None? ==> server.written == old(server.written) + rows && r.rows == |rows|
    ensures r.failure.Some? ==> WroteSome(old(server.written), rows, server.written, r.rows)
    ensures r.failure != Some(BadOptions)
  {
    var i := 0;
    while i < |rows|
      invariant 0 <= i <= |rows| && server.written == old(server.written) + rows[..i]
    {
      var reply := server.Write([rows[i]]);
      if reply != Accepted {
        return Report(Some(Rethrown), i, 0, 0);
      }
      assert rows[..i + 1] == rows[..i] + [rows[i]];
      i := i + 1;
    }
    assert rows[..i] == rows;
    r := Report(None, |rows|, 0, 0);
  }

  lemma AcceptedWhole<T>(server: Behaviour<T>, call: nat, items: seq<T>)
    ensures var e := WriteWithAdaptiveSplit(server, call, items); e.failure.None? ==> e.written == items
  {
    WritesAllOrAPrefix(server, call, items);
  }

  lemma WroteThisMuch<T>(before: seq<T>, rows: seq<T>, written: seq<T>, reported: nat)
    requires written <= rows && reported <= |written| < |rows|
    ensures WroteSome(before, rows, before + written, reported)
  {
    assert written == rows[..|written|];
  }

  /** The variables of the loop below, when the first i parts are written. */
  ghost predicate SoFar<T>(server: Behaviour<T>, call: nat, chunks: seq<seq<T>>, before: seq<T>,
                           i: nat, written: seq<T>, calls: nat, reported: nat)
    requires i <= |chunks|
  {
    var e := WriteChunks(server, call, chunks[..i]);
    e.failure.None? && reported == |e.written| && written == before + e.written && calls == call + e.attempts
  }

  lemma OneMorePart<T>(server: Behaviour<T>, call: nat, chunks: seq<seq<T>>, before: seq<T>,
                       i: nat, written: seq<T>, calls: nat, reported: nat)
    requires i < |chunks| && SoFar(server, call, chunks, before, i, written, calls, reported)
    requires WriteWithAdaptiveSplit(server, calls, chunks[i]).failure.None?
    ensures var f := WriteWithAdaptiveSplit(server, calls, chunks[i]);
            SoFar(server, call, chunks, before, i + 1, written + f.written, calls + f.attempts, reported + |chunks[i]|)
  {
    hide WriteChunks, WriteWithAdaptiveSplit;
    var e, f := WriteChunks(server, call, chunks[..i]), WriteWithAdaptiveSplit(server, calls, chunks[i]);
    OneMoreChunk(server, call, chunks, i);
    AcceptedWhole(server, calls, chunks[i]);
    ThenWrites(before, e, f);
  }

  lemma LastPart<T>(server: Behaviour<T>, call: nat, chunks: seq<seq<T>>, before: seq<T>,
                    i: nat, written: seq<T>, calls: nat, reported: nat)
    requires i < |chunks| && SoFar(server, call, chunks, before, i, written, calls, reported)
    requires WriteWithAdaptiveSplit(server, calls, chunks[i]).failure.Some?
    ensures var e, f := WriteChunks(server, call, chunks), WriteWithAdaptiveSplit(server, calls, chunks[i]);
            e.failure == f.failure && written + f.written == before + e.written && reported <= |e.written|
  {
    hide WriteChunks, WriteWithAdaptiveSplit;
    var e, f := WriteChunks(server, call, chunks[..i]), WriteWithAdaptiveSplit(server, calls, chunks[i]);
    OneMoreChunk(server, call, chunks, i);
    ThenWrites(before, e, f);
    FailureStays(server, call, chunks, i + 1);
  }

  lemma ThenWrites<T>(before: seq<T>, e: Effect<T>, f: Effect<T>)
    ensures (before + e.written) + f.written == before + Then(e, f).written
  {
  }

  method WriteParts<T>(server: Server<T>, chunks: seq<seq<T>>)
    returns (failure: Option<Failure>, reported: nat, batches: nat)
    modifies server
    ensures var e := WriteChunks(server.behaviour, old(server.calls), chunks);
            && failure == e.failure && server.written == old(server.written) + e.written && reported <= |e.written|
            && (failure.None? ==> reported == |e.written| && batches == |chunks|)
  {
    failure, reported, batches := None, 0, 0;
    ghost var before, call := server.written, server.calls;
    assert chunks[..0] == [];
    while batches < |chunks|
      invariant batches <= |chunks| && failure.None?
      invariant SoFar(server.behaviour, call, chunks, before, batches, server.written, server.calls, reported)
    {
      hide *;
      var part := chunks[batches];
      if WriteWithAdaptiveSplit(server.behaviour, server.calls, part).failure.Some? {
        LastPart(server.behaviour, call, chunks, before, batches, server.written, server.calls, reported);
      } else {
        OneMorePart(server.behaviour, call, chunks, before, batches, server.written, server.calls, reported);
      }
      batches := batches + 1;
      var splits;
      failure, splits := WriteSplitting(server, part);
      if failure.Some? {
        return;
      }
      reported := reported + |part|;
    }
    assert chunks[..batches] == chunks;
  }

  method WriteBatches<T>(server: Server<T>, rows: seq<T>, o: Chunking.Options<T>) returns (r: Report)
    requires rows != []
    modifies server
    ensures r.failure.None? ==> server.written == old(server.written) + rows && r.rows == |rows|
    ensures r.failure.Some? ==> WroteSome(old(server.written), rows, server.written, r.rows)
    ensures r.failure == Some(BadOptions) <==> !Chunking.Sizes(o, rows)
    ensures Chunking.Sizes(o, rows) ==>
              var e := WriteChunks(server.behaviour, old(server.calls), Chunking.Greedy(o, rows));
              r.failure == e.failure && server.written == old(server.written) + e.written
  {
    var chunked := Chunking.ChunkByBudget(rows, o);
    if chunked.Invalid? {
      return Report(Some(BadOptions), 0, 0, 0);
    }
    ghost var before, e := server.written, WriteChunks(server.behaviour, server.calls, chunked.chunks);
    assert forall k :: 0 <= k < |chunked.chunks| ==> Chunking.ChunkOk(o, chunked.chunks[k]);
    ChunksAllOrAPrefix(server.behaviour, server.calls, chunked.chunks);
    hide *;
    var failure, reported, batches := WriteParts(server, chunked.chunks);
    if failure.Some? {
      WroteThisMuch(before, rows, e.written, reported);
    }
    r := Report(failure, reported, batches, chunked.oversized);
  }
}
