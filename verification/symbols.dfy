/**
 Symbols, their identities, and the two passes over one file's or one tree's symbols that give them
 (src/infrastructure/parsing/logical-key.ts, assignLogicalKeys in extract-symbols.ts and dedupeById in
 src/application/indexing/pipeline.ts).
 */
module Symbols {

  /** The intra-run id: a position. The string that joins these parts is taken to be injective. */
  datatype SymbolId = SymbolId(file: string, name: string, line: nat, column: nat)

  /** The persisted identity. The hash of these parts is taken to be injective. */
  datatype LogicalKey = LogicalKey(file: string, name: string, kind: string, ordinal: nat)

  datatype Symbol = Symbol(
    id: SymbolId,
    key: LogicalKey,
    name: string,
    kind: string,
    file: string,
    details: string,
    accessedKeys: seq<string>
  )

  // ---------------------------------------------------------------- dedup by id

  predicate HasId(symbols: seq<Symbol>, id: SymbolId) {
    exists k :: 0 <= k < |symbols| && symbols[k].id == id
  }

  /** The first symbol of each id, in order. */
  function DedupeById(symbols: seq<Symbol>): seq<Symbol> {
    if symbols == [] then []
    else
      var r, last := DedupeById(symbols[..|symbols| - 1]), symbols[|symbols| - 1];
      if HasId(r, last.id) then r else r + [last]
  }

  lemma HasIdSnoc(symbols: seq<Symbol>, s: Symbol)
    ensures forall id :: HasId(symbols + [s], id) <==> HasId(symbols, id) || id == s.id
  {
    var r := symbols + [s];
    forall id
      ensures HasId(r, id) <==> HasId(symbols, id) || id == s.id
    {
      if HasId(symbols, id) {
        var k :| 0 <= k < |symbols| && symbols[k].id == id;
        assert r[k].id == id;
      }
      if id == s.id {
        assert r[|symbols|].id == id;
      }
    }
  }

  lemma {:induction false} DedupeKeepsIds(symbols: seq<Symbol>)
    ensures forall id :: HasId(DedupeById(symbols), id) <==> HasId(symbols, id)
  {
    if symbols != [] {
      var init, last := symbols[..|symbols| - 1], symbols[|symbols| - 1];
      DedupeKeepsIds(init);
      HasIdSnoc(init, last);
      HasIdSnoc(DedupeById(init), last);
      assert symbols == init + [last];
    }
  }

  ghost predicate DistinctIds(symbols: seq<Symbol>) {
    forall i, j :: 0 <= i < j < |symbols| ==> symbols[i].id != symbols[j].id
  }

  lemma {:induction false} DedupeIsDistinct(symbols: seq<Symbol>)
    ensures DistinctIds(DedupeById(symbols))
  {
    if symbols != [] {
      DedupeIsDistinct(symbols[..|symbols| - 1]);
    }
  }

  lemma {:induction false} DedupeIsFrom(symbols: seq<Symbol>)
    ensures forall s :: s in DedupeById(symbols) ==> s in symbols
  {
    if symbols != [] {
      DedupeIsFrom(symbols[..|symbols| - 1]);
    }
  }

  /** What is kept of an id is its first symbol, and the kept ones stay in order. */
  lemma {:induction false} DedupeKeepsTheFirst(symbols: seq<Symbol>, i: nat)
    requires i < |symbols| && forall j :: 0 <= j < i ==> symbols[j].id != symbols[i].id
    ensures symbols[i] in DedupeById(symbols)
    ensures DedupeById(symbols[..i]) + [symbols[i]] <= DedupeById(symbols)
  {
    DedupeKeepsIds(symbols[..i]);
    DedupeAt(symbols, i);
    DedupeGrows(symbols, i + 1);
    var r := DedupeById(symbols[..i]) + [symbols[i]];
    assert r[|r| - 1] == symbols[i];
  }

  lemma {:induction false} DedupeGrows(symbols: seq<Symbol>, n: nat)
    requires n <= |symbols|
    ensures DedupeById(symbols[..n]) <= DedupeById(symbols)
    decreases |symbols|
  {
    if n == |symbols| {
      assert symbols[..n] == symbols;
    } else {
      var init := symbols[..|symbols| - 1];
      DedupeGrows(init, n);
      assert init[..n] == symbols[..n];
    }
  }

  lemma {:induction false} DedupeOfDistinct(symbols: seq<Symbol>)
    requires DistinctIds(symbols)
    ensures DedupeById(symbols) == symbols
  {
    if symbols != [] {
      var init, last := symbols[..|symbols| - 1], symbols[|symbols| - 1];
      DedupeOfDistinct(init);
      assert !HasId(init, last.id);
      assert symbols == init + [last];
    }
  }

  lemma DedupeAt(symbols: seq<Symbol>, i: nat)
    requires i < |symbols|
    ensures var r := DedupeById(symbols[..i]);
            DedupeById(symbols[..i + 1]) == if HasId(r, symbols[i].id) then r else r + [symbols[i]]
  {
    assert symbols[..i + 1][..i] == symbols[..i];
  }

  lemma {:induction false} DedupeFront(a: seq<Symbol>, b: seq<Symbol>)
    ensures DedupeById(DedupeById(a) + b) == DedupeById(a + b)
  {
    if b == [] {
      DedupeIsDistinct(a);
      DedupeOfDistinct(DedupeById(a));
      assert DedupeById(a) + b == DedupeById(a) && a + b == a;
    } else {
      hide DedupeById;
      var init, last := b[..|b| - 1], b[|b| - 1];
      DedupeFront(a, init);
      assert DedupeById(a) + b == (DedupeById(a) + init) + [last] && a + b == (a + init) + [last];
    }
  }

  lemma {:induction false} DedupeBack(a: seq<Symbol>, b: seq<Symbol>)
    ensures DedupeById(a + DedupeById(b)) == DedupeById(a + b)
  {
    if b != [] {
      var init, last := b[..|b| - 1], b[|b| - 1];
      hide DedupeById;
      DedupeBack(a, init);
      assert b == init + [last] && a + b == (a + init) + [last];
      if HasId(DedupeById(init), last.id) {
        DedupeKeepsIds(init);
        DedupeKeepsIds(a + init);
        InConcat(a, init, last.id);
      } else {
        assert a + DedupeById(b) == (a + DedupeById(init)) + [last];
      }
    } else {
      assert DedupeById(b) == b;
    }
  }

  lemma InConcat(a: seq<Symbol>, b: seq<Symbol>, id: SymbolId)
    requires HasId(b, id)
    ensures HasId(a + b, id)
  {
    var k :| 0 <= k < |b| && b[k].id == id;
    assert (a + b)[|a| + k].id == id;
  }

  /** Deduplicating each part first makes no difference to deduplicating the whole. */
  lemma DedupeOfConcat(a: seq<Symbol>, b: seq<Symbol>)
    ensures DedupeById(DedupeById(a) + DedupeById(b)) == DedupeById(a + b)
  {
    DedupeFront(a, DedupeById(b));
    DedupeBack(a, b);
  }

  function Flat(lists: seq<seq<Symbol>>): seq<Symbol> {
    if lists == [] then [] else Flat(lists[..|lists| - 1]) + lists[|lists| - 1]
  }

  function DedupeEach(lists: seq<seq<Symbol>>): (r: seq<seq<Symbol>>)
    ensures |r| == |lists|
  {
    seq(|lists|, i requires 0 <= i < |lists| => DedupeById(lists[i]))
  }

  /** The same over a list per file: a parse that drops repeats file by file, then in the whole, drops what one pass
      would. */
  lemma {:induction false} DedupeOfFlat(lists: seq<seq<Symbol>>)
    ensures DedupeById(Flat(DedupeEach(lists))) == DedupeById(Flat(lists))
  {
    if lists != [] {
      var init, last := lists[..|lists| - 1], lists[|lists| - 1];
      DedupeOfFlat(init);
      var each := DedupeEach(lists);
      assert each[..|each| - 1] == DedupeEach(init);
      DedupeFront(Flat(DedupeEach(init)), DedupeById(last));
      DedupeOfConcat(Flat(init), last);
      DedupeFront(Flat(init), DedupeById(last));
    }
  }

  method DedupeByIdLoop(symbols: seq<Symbol>) returns (result: seq<Symbol>)
    ensures result == DedupeById(symbols)
  {
    var seen: set<SymbolId> := {};
    result := [];
    var i := 0;
    assert symbols[..0] == [];
    while i < |symbols|
      invariant 0 <= i <= |symbols| && result == DedupeById(symbols[..i])
      invariant forall id :: id in seen <==> HasId(result, id)
    {
      hide DedupeById, HasId;
      var sym := symbols[i];
      DedupeAt(symbols, i);
      HasIdSnoc(result, sym);
      if sym.id !in seen {
        seen := seen + {sym.id};
        result := result + [sym];
      }
      i := i + 1;
    }
    assert symbols[..i] == symbols;
  }

  // ---------------------------------------------------------------- logical keys

  predicate Collides(s: Symbol, name: string, kind: string) {
    s.name == name && s.kind == kind
  }

  /** How many of the symbols have this name and kind. */
  function Count(symbols: seq<Symbol>, name: string, kind: string): nat {
    if symbols == [] then 0
    else Count(symbols[..|symbols| - 1], name, kind) + (if Collides(symbols[|symbols| - 1], name, kind) then 1 else 0)
  }

  /** Each symbol gets the number of earlier symbols with its name and kind as its ordinal. */
  function AssignKeys(survivors: seq<Symbol>): (r: seq<Symbol>)
    ensures |r| == |survivors|
  {
    if survivors == [] then []
    else
      var init, s := survivors[..|survivors| - 1], survivors[|survivors| - 1];
      AssignKeys(init) + [s.(key := LogicalKey(s.file, s.name, s.kind, Count(init, s.name, s.kind)))]
  }

  function AssignLogicalKeys(symbols: seq<Symbol>): (r: seq<Symbol>) {
    AssignKeys(DedupeById(symbols))
  }

  /** The counters of an allocator that has numbered these symbols. */
  ghost predicate Tallies(counts: map<(string, string), nat>, symbols: seq<Symbol>) {
    forall name, kind :: Tally(counts, name, kind) == Count(symbols, name, kind)
  }

  function Tally(counts: map<(string, string), nat>, name: string, kind: string): nat {
    if (name, kind) in counts then counts[(name, kind)] else 0
  }

  lemma TalliesSnoc(counts: map<(string, string), nat>, symbols: seq<Symbol>, s: Symbol)
    requires Tallies(counts, symbols)
    ensures Tally(counts, s.name, s.kind) == Count(symbols, s.name, s.kind)
    ensures Tallies(counts[(s.name, s.kind) := Tally(counts, s.name, s.kind) + 1], symbols + [s])
  {
    assert (symbols + [s])[..|symbols|] == symbols;
    var after := counts[(s.name, s.kind) := Tally(counts, s.name, s.kind) + 1];
    forall name, kind
      ensures Tally(after, name, kind) == Count(symbols + [s], name, kind)
    {
      assert Tally(counts, name, kind) == Count(symbols, name, kind);
    }
  }

  /** How often a pair occurs. */
  function Occurrences(pairs: seq<(string, string)>, p: (string, string)): nat {
    if pairs == [] then 0 else Occurrences(pairs[..|pairs| - 1], p) + (if pairs[|pairs| - 1] == p then 1 else 0)
  }

  class OrdinalAllocator {
    var counts: map<(string, string), nat>
    ghost var calls: seq<(string, string)>

    /** The counters count the calls made so far. */
    ghost predicate Valid()
      reads this
    {
      forall name, kind :: Tally(counts, name, kind) == Occurrences(calls, (name, kind))
    }

    constructor ()
      ensures Valid() && counts == map[] && calls == []
    {
      counts, calls := map[], [];
    }

    /** The number of earlier calls with this pair. */
    method Next(qualifiedName: string, kind: string) returns (n: nat)
      requires Valid()
      modifies this
      ensures Valid() && calls == old(calls) + [(qualifiedName, kind)]
      ensures n == Occurrences(old(calls), (qualifiedName, kind))
      ensures n == Tally(old(counts), qualifiedName, kind)
      ensures counts == old(counts)[(qualifiedName, kind) := n + 1]
    {
      assert Tally(counts, qualifiedName, kind) == Occurrences(calls, (qualifiedName, kind));
      assert (calls + [(qualifiedName, kind)])[..|calls|] == calls;
      calls := calls + [(qualifiedName, kind)];
      n := if (qualifiedName, kind) in counts then counts[(qualifiedName, kind)] else 0;
      counts := counts[(qualifiedName, kind) := n + 1];
    }
  }

  /** The variables of the loop below, when it has passed the first i symbols. */
  ghost predicate Passed(symbols: seq<Symbol>, i: nat, seen: set<SymbolId>, counts: map<(string, string), nat>,
                         out: seq<Symbol>)
    requires i <= |symbols|
  {
    var survivors := DedupeById(symbols[..i]);
    out == AssignKeys(survivors) && Tallies(counts, survivors) && forall id :: id in seen <==> HasId(survivors, id)
  }

  lemma PassedRepeat(symbols: seq<Symbol>, i: nat, seen: set<SymbolId>, counts: map<(string, string), nat>,
                     out: seq<Symbol>)
    requires i < |symbols| && Passed(symbols, i, seen, counts, out) && symbols[i].id in seen
    ensures Passed(symbols, i + 1, seen, counts, out)
  {
    DedupeAt(symbols, i);
  }

  lemma PassedNew(symbols: seq<Symbol>, i: nat, seen: set<SymbolId>, counts: map<(string, string), nat>,
                  out: seq<Symbol>)
    requires i < |symbols| && Passed(symbols, i, seen, counts, out) && symbols[i].id !in seen
    ensures var s := symbols[i];
            var n := Tally(counts, s.name, s.kind);
            Passed(symbols, i + 1, seen + {s.id}, counts[(s.name, s.kind) := n + 1],
                   out + [s.(key := LogicalKey(s.file, s.name, s.kind, n))])
  {
    var s, survivors := symbols[i], DedupeById(symbols[..i]);
    DedupeAt(symbols, i);
    hide DedupeById, AssignKeys, Count, HasId, Tallies, Tally;
    var after := DedupeById(symbols[..i + 1]);
    assert after == survivors + [s];
    HasIdSnoc(survivors, s);
    TalliesSnoc(counts, survivors, s);
  }

  method AssignLogicalKeysLoop(symbols: seq<Symbol>) returns (out: seq<Symbol>)
    ensures out == AssignLogicalKeys(symbols)
  {
    var ordinals := new OrdinalAllocator();
    var seen: set<SymbolId> := {};
    out := [];
    var i := 0;
    assert symbols[..0] == [];
    while i < |symbols|
      invariant 0 <= i <= |symbols| && ordinals.Valid() && Passed(symbols, i, seen, ordinals.counts, out)
    {
      hide Passed;
      var sym := symbols[i];
      if sym.id in seen {
        PassedRepeat(symbols, i, seen, ordinals.counts, out);
        i := i + 1;
        continue;
      }
      PassedNew(symbols, i, seen, ordinals.counts, out);
      i := i + 1;
      seen := seen + {sym.id};
      var n := ordinals.Next(sym.name, sym.kind);
      out := out + [sym.(key := LogicalKey(sym.file, sym.name, sym.kind, n))];
    }
    assert symbols[..i] == symbols;
  }

  lemma {:induction false} AssignedAt(survivors: seq<Symbol>, i: nat)
    requires i < |survivors|
    ensures AssignKeys(survivors)[i] ==
            survivors[i].(key := LogicalKey(survivors[i].file, survivors[i].name, survivors[i].kind,
                                            Count(survivors[..i], survivors[i].name, survivors[i].kind)))
  {
    var init := survivors[..|survivors| - 1];
    if i < |init| {
      AssignedAt(init, i);
      assert init[..i] == survivors[..i];
    }
  }

  lemma {:induction false} CountGrows(symbols: seq<Symbol>, i: nat, j: nat)
    requires i < j <= |symbols|
    ensures Count(symbols[..i], symbols[i].name, symbols[i].kind)
            < Count(symbols[..j], symbols[i].name, symbols[i].kind)
    decreases j
  {
    assert symbols[..j][..j - 1] == symbols[..j - 1];
    if i < j - 1 {
      CountGrows(symbols, i, j - 1);
    }
  }

  /** Every logical key in a file is unique, and its ordinal is the number of earlier survivors with its name and
      kind. */
  lemma KeysAreUniqueOrdinals(symbols: seq<Symbol>)
    ensures var out := AssignLogicalKeys(symbols);
            && (forall i, j :: 0 <= i < j < |out| ==> out[i].key != out[j].key)
            && (forall i :: 0 <= i < |out| ==>
                  out[i].key == LogicalKey(out[i].file, out[i].name, out[i].kind,
                                           Count(DedupeById(symbols)[..i], out[i].name, out[i].kind)))
  {
    var survivors := DedupeById(symbols);
    var out := AssignKeys(survivors);
    forall i | 0 <= i < |out|
      ensures out[i].key ==
              LogicalKey(out[i].file, out[i].name, out[i].kind, Count(survivors[..i], out[i].name, out[i].kind))
    {
      AssignedAt(survivors, i);
    }
    forall i, j | 0 <= i < j < |out|
      ensures out[i].key != out[j].key
    {
      AssignedAt(survivors, i);
      AssignedAt(survivors, j);
      CountGrows(survivors, i, j);
    }
  }

  /** The keys of the symbols with this name and kind, in file order. */
  function KeysOf(symbols: seq<Symbol>, name: string, kind: string): seq<LogicalKey> {
    if symbols == [] then []
    else
      var last := symbols[|symbols| - 1];
      KeysOf(symbols[..|symbols| - 1], name, kind) + (if Collides(last, name, kind) then [last.key] else [])
  }

  function Numbered(file: string, name: string, kind: string, n: nat): seq<LogicalKey> {
    seq(n, j requires 0 <= j < n => LogicalKey(file, name, kind, j))
  }

  /** Symbols of one name and kind get the ordinals 0, 1, 2, ... in file order, wherever they stand. */
  lemma {:induction false} KeysOfNameAndKind(survivors: seq<Symbol>, file: string, name: string, kind: string)
    requires forall k :: 0 <= k < |survivors| ==> survivors[k].file == file
    ensures KeysOf(AssignKeys(survivors), name, kind) ==
            Numbered(file, name, kind, Count(survivors, name, kind))
  {
    if survivors != [] {
      var init := survivors[..|survivors| - 1];
      KeysOfNameAndKind(init, file, name, kind);
      var r := AssignKeys(survivors);
      assert r[..|r| - 1] == AssignKeys(init);
    }
  }

  /** Moving symbols, or editing, adding or removing symbols of other names, never changes the keys of a name and
      kind. */
  lemma {:induction false} KeysSurviveEdits(before: seq<Symbol>, after: seq<Symbol>, file: string, name: string,
                                            kind: string)
    requires forall k :: 0 <= k < |before| ==> before[k].file == file
    requires forall k :: 0 <= k < |after| ==> after[k].file == file
    ensures Count(DedupeById(before), name, kind) == Count(DedupeById(after), name, kind) ==>
              KeysOf(AssignLogicalKeys(before), name, kind) == KeysOf(AssignLogicalKeys(after), name, kind)
  {
    DedupeKeepsFile(before, file);
    DedupeKeepsFile(after, file);
    KeysOfNameAndKind(DedupeById(before), file, name, kind);
    KeysOfNameAndKind(DedupeById(after), file, name, kind);
  }

  lemma {:induction false} DedupeKeepsFile(symbols: seq<Symbol>, file: string)
    requires forall k :: 0 <= k < |symbols| ==> symbols[k].file == file
    ensures forall k :: 0 <= k < |DedupeById(symbols)| ==> DedupeById(symbols)[k].file == file
  {
    if symbols != [] {
      DedupeKeepsFile(symbols[..|symbols| - 1], file);
    }
  }

  /** Symbols appended at the end of a file leave the keys of all earlier ones as they were. */
  lemma {:induction false} AppendingKeepsKeys(symbols: seq<Symbol>, more: seq<Symbol>)
    ensures AssignLogicalKeys(symbols) <= AssignLogicalKeys(symbols + more)
  {
    if more == [] {
      assert symbols + more == symbols;
    } else {
      var init := more[..|more| - 1];
      AppendingKeepsKeys(symbols, init);
      var all := symbols + more;
      assert all[..|all| - 1] == symbols + init;
      var d := DedupeById(all);
      assert d == DedupeById(symbols + init) || d[..|d| - 1] == DedupeById(symbols + init);
    }
  }
}
