/**
 The edit distance of two strings (src/application/querying/levenshtein.ts): the two-row table is proved
 to hold the length of a shortest script of insertions, deletions and substitutions.
 */
module Levenshtein {

  // ---------------------------------------------------------------- edit scripts: what the distance means

  /** One edit of a string at a position. */
  datatype Edit<T> =
    | Insert(at: nat, with: T)
    | Delete(at: nat)
    | Substitute(at: nat, with: T)

  predicate Applicable<T>(s: seq<T>, e: Edit<T>) {
    match e
    case Insert(at, _) => at <= |s|
    case Delete(at) => at < |s|
    case Substitute(at, _) => at < |s|
  }

  function Apply<T>(s: seq<T>, e: Edit<T>): (r: seq<T>)
    requires Applicable(s, e)
  {
    match e
    case Insert(at, c) => s[..at] + [c] + s[at..]
    case Delete(at) => s[..at] + s[at + 1..]
    case Substitute(at, c) => s[..at] + [c] + s[at + 1..]
  }

  /** The script can be run on `a`, one edit after the other, and ends in `b`. */
  predicate Transforms<T(==)>(a: seq<T>, script: seq<Edit<T>>, b: seq<T>)
    decreases |script|
  {
    if script == [] then a == b
    else Applicable(a, script[0]) && Transforms(Apply(a, script[0]), script[1..], b)
  }

  lemma HeadOfConcat<X>(s: seq<X>, t: seq<X>)
    requires s != []
    ensures s + t == [s[0]] + (s[1..] + t)
  {
  }

  lemma {:induction false} TransformsConcat<T>(a: seq<T>, s: seq<Edit<T>>, b: seq<T>, t: seq<Edit<T>>, c: seq<T>)
    requires Transforms(a, s, b) && Transforms(b, t, c)
    ensures Transforms(a, s + t, c)
    decreases |s|
  {
    if s == [] {
      assert s + t == t;
    } else {
      var e, rest, mid := s[0], s[1..], Apply(a, s[0]);
      hide Apply, Applicable;
      TransformsConcat(mid, rest, b, t, c);
      hide Transforms;
      HeadOfConcat(s, t);
    }
  }

  // ---------------------------------------------------------------- the recurrence

  function Min3(x: nat, y: nat, z: nat): nat {
    if x <= y && x <= z then x else if y <= z then y else z
  }

  /** The recurrence of the table, on the last elements of the two prefixes. */
  function Distance<T(==)>(a: seq<T>, b: seq<T>): (d: nat)
    decreases |a| + |b|
  {
    if a == [] then |b|
    else if b == [] then |a|
    else
      var a', b' := a[..|a| - 1], b[..|b| - 1];
      var cost := if a[|a| - 1] == b[|b| - 1] then 0 else 1;
      Min3(Distance(a', b) + 1, Distance(a, b') + 1, Distance(a', b') + cost)
  }

  // ---------------------------------------------------------------- a script of that length exists

  /** An edit of a prefix is an edit of the whole. */
  lemma {:induction false} TransformsPrefix<T>(a: seq<T>, script: seq<Edit<T>>, b: seq<T>, tail: seq<T>)
    requires Transforms(a, script, b)
    ensures Transforms(a + tail, script, b + tail)
    decreases |script|
  {
    if script != [] {
      ApplyPrefix(a, script[0], tail);
      TransformsPrefix(Apply(a, script[0]), script[1..], b, tail);
    }
  }

  lemma ApplyPrefix<T>(a: seq<T>, e: Edit<T>, tail: seq<T>)
    requires Applicable(a, e)
    ensures Applicable(a + tail, e) && Apply(a + tail, e) == Apply(a, e) + tail
  {
    var at := e.at;
    assert (a + tail)[..at] == a[..at];
    match e
    case Insert(_, c) =>
      assert (a + tail)[at..] == a[at..] + tail;
    case Delete(_) =>
      assert (a + tail)[at + 1..] == a[at + 1..] + tail;
    case Substitute(_, c) =>
      assert (a + tail)[at + 1..] == a[at + 1..] + tail;
  }

  lemma {:induction false} DeleteAll<T>(a: seq<T>) returns (script: seq<Edit<T>>)
    ensures Transforms(a, script, []) && |script| == |a|
  {
    if a == [] {
      script := [];
    } else {
      var rest := DeleteAll(a[1..]);
      script := [Delete(0)] + rest;
      assert Apply(a, script[0]) == a[1..] && script[1..] == rest;
    }
  }

  lemma {:induction false} InsertAll<T>(b: seq<T>) returns (script: seq<Edit<T>>)
    ensures Transforms([], script, b) && |script| == |b|
  {
    if b == [] {
      script := [];
    } else {
      var b', last := b[..|b| - 1], b[|b| - 1];
      var rest := InsertAll(b');
      script := Then(rest, [], b', Insert(|b'|, last), b);
    }
  }

  /** A script followed by one more edit. */
  lemma {:induction false} Then<T>(s: seq<Edit<T>>, a: seq<T>, b: seq<T>, e: Edit<T>, c: seq<T>)
    returns (script: seq<Edit<T>>)
    requires Transforms(a, s, b) && Applicable(b, e) && Apply(b, e) == c
    ensures Transforms(a, script, c) && |script| == |s| + 1
  {
    assert [e][1..] == [];
    assert Transforms(b, [e], c);
    TransformsConcat(a, s, b, [e], c);
    script := s + [e];
  }

  /** The recurrence is attained by a script. */
  lemma {:induction false} ScriptOfDistance<T>(a: seq<T>, b: seq<T>) returns (script: seq<Edit<T>>)
    ensures Transforms(a, script, b) && |script| == Distance(a, b)
    decreases |a| + |b|
  {
    if a == [] {
      script := InsertAll(b);
    } else if b == [] {
      script := DeleteAll(a);
    } else {
      var a', x := a[..|a| - 1], a[|a| - 1];
      var b', y := b[..|b| - 1], b[|b| - 1];
      assert a == a' + [x] && b == b' + [y];
      var cost := if x == y then 0 else 1;
      if Distance(a, b) == Distance(a', b) + 1 {
        var s := ScriptOfDistance(a', b);
        TransformsPrefix(a', s, b, [x]);
        script := Then(s, a, b + [x], Delete(|b|), b);
      } else if Distance(a, b) == Distance(a, b') + 1 {
        var s := ScriptOfDistance(a, b');
        script := Then(s, a, b', Insert(|b'|, y), b);
      } else {
        var s := ScriptOfDistance(a', b');
        TransformsPrefix(a', s, b', [x]);
        if x == y {
          script := s;
        } else {
          script := Then(s, a, b' + [x], Substitute(|b'|, y), b);
        }
      }
    }
  }

  // ---------------------------------------------------------------- no script is shorter

  /** Dropping the last element of either string changes the distance by at most one. */
  lemma {:induction false} LastStep<T>(a: seq<T>, x: T, b: seq<T>)
    ensures Distance(a, b) <= Distance(a + [x], b) + 1
    ensures Distance(a + [x], b) <= Distance(a, b) + 1
    decreases |a| + |b|
  {
    var ax := a + [x];
    assert ax[..|ax| - 1] == a;
    if a != [] && b != [] {
      LastStep(a, x, b[..|b| - 1]);
      assert b[..|b| - 1] + [b[|b| - 1]] == b;
    } else if b != [] {
      LastStep(a, x, b[..|b| - 1]);
    }
  }

  /** The strings differ in one edit, in front of a common tail. */
  ghost predicate OneApart<T>(p: seq<T>, q: seq<T>) {
    || (|q| == |p| + 1 && q[..|p|] == p)
    || (|p| == |q| + 1 && p[..|q|] == q)
    || (|p| == |q| && |p| > 0 && p[..|p| - 1] == q[..|q| - 1])
  }

  lemma OneEditAtEnd<T>(p: seq<T>, q: seq<T>, b: seq<T>)
    requires OneApart(p, q)
    ensures Distance(p, b) <= Distance(q, b) + 1
  {
    if |q| == |p| + 1 {
      assert q == p + [q[|p|]];
      LastStep(p, q[|p|], b);
    } else if |p| == |q| + 1 {
      assert p == q + [p[|q|]];
      LastStep(q, p[|q|], b);
    } else {
      SubstituteLast(p[..|p| - 1], p[|p| - 1], q[|q| - 1], b);
      assert p == p[..|p| - 1] + [p[|p| - 1]] && q == p[..|p| - 1] + [q[|q| - 1]];
    }
  }

  lemma DistanceSnoc<T>(u: seq<T>, x: T, v: seq<T>, y: T)
    ensures Distance(u + [x], v + [y]) ==
            Min3(Distance(u, v + [y]) + 1, Distance(u + [x], v) + 1, Distance(u, v) + (if x == y then 0 else 1))
  {
    assert (u + [x])[..|u|] == u && (v + [y])[..|v|] == v;
  }

  lemma DistanceToEmpty<T>(u: seq<T>)
    ensures Distance(u, []) == |u|
  {
  }

  /** A common last character does not spread two distances further apart. */
  lemma SameLast<T>(u: seq<T>, v: seq<T>, z: T, c: seq<T>, y: T)
    requires Distance(u, c + [y]) <= Distance(v, c + [y]) + 1
    requires Distance(u, c) <= Distance(v, c) + 1
    requires Distance(u + [z], c) <= Distance(v + [z], c) + 1
    ensures Distance(u + [z], c + [y]) <= Distance(v + [z], c + [y]) + 1
  {
    hide Distance;
    DistanceSnoc(u, z, c, y);
    DistanceSnoc(v, z, c, y);
  }

  /** One edit of a string changes its distance to any other by at most one. */
  lemma {:induction false} OneEdit<T>(p: seq<T>, q: seq<T>, tail: seq<T>, b: seq<T>)
    requires OneApart(p, q)
    ensures Distance(p + tail, b) <= Distance(q + tail, b) + 1
    decreases |tail| + |b|
  {
    hide Distance;
    if tail == [] {
      assert p + tail == p && q + tail == q;
      OneEditAtEnd(p, q, b);
    } else {
      var tail', z := tail[..|tail| - 1], tail[|tail| - 1];
      var u, v := p + tail', q + tail';
      assert p + tail == u + [z] && q + tail == v + [z];
      OneEdit(p, q, tail', b);
      if b == [] {
        DistanceToEmpty(u + [z]);
        DistanceToEmpty(v + [z]);
      } else {
        var c, y := b[..|b| - 1], b[|b| - 1];
        assert b == c + [y];
        OneEdit(p, q, tail, c);
        OneEdit(p, q, tail', c);
        SameLast(u, v, z, c, y);
      }
    }
  }

  lemma {:induction false} SubstituteLast<T>(a: seq<T>, x: T, y: T, b: seq<T>)
    ensures Distance(a + [x], b) <= Distance(a + [y], b) + 1
    decreases |b|
  {
    assert (a + [x])[..|a|] == a && (a + [y])[..|a|] == a;
    if b != [] {
      SubstituteLast(a, x, y, b[..|b| - 1]);
    }
  }

  lemma EditChangesByOne<T>(a: seq<T>, e: Edit<T>, b: seq<T>)
    requires Applicable(a, e)
    ensures Distance(a, b) <= Distance(Apply(a, e), b) + 1
  {
    match e
    case Insert(at, c) =>
      assert a == a[..at] + a[at..] && Apply(a, e) == (a[..at] + [c]) + a[at..];
      OneEdit(a[..at], a[..at] + [c], a[at..], b);
    case Delete(at) =>
      assert a == a[..at + 1] + a[at + 1..] && Apply(a, e) == a[..at] + a[at + 1..];
      OneEdit(a[..at + 1], a[..at], a[at + 1..], b);
    case Substitute(at, c) =>
      assert a == a[..at + 1] + a[at + 1..] && Apply(a, e) == (a[..at] + [c]) + a[at + 1..];
      OneEdit(a[..at + 1], a[..at] + [c], a[at + 1..], b);
  }

  lemma {:induction false} DistanceToSelf<T>(a: seq<T>)
    ensures Distance(a, a) == 0
  {
    if a != [] {
      DistanceToSelf(a[..|a| - 1]);
    }
  }

  /** No script from `a` to `b` is shorter than the distance. */
  lemma {:induction false} NoShorterScript<T>(a: seq<T>, script: seq<Edit<T>>, b: seq<T>)
    requires Transforms(a, script, b)
    ensures Distance(a, b) <= |script|
    decreases |script|
  {
    if script == [] {
      DistanceToSelf(a);
    } else {
      NoShorterScript(Apply(a, script[0]), script[1..], b);
      EditChangesByOne(a, script[0], b);
    }
  }

  // ---------------------------------------------------------------- main results

  /** The distance is the length of a shortest edit script. */
  lemma DistanceIsShortestScript<T>(a: seq<T>, b: seq<T>)
    ensures exists script :: Transforms(a, script, b) && |script| == Distance(a, b)
    ensures forall script :: Transforms(a, script, b) ==> Distance(a, b) <= |script|
  {
    var script := ScriptOfDistance(a, b);
    forall other | Transforms(a, other, b)
      ensures Distance(a, b) <= |other|
    {
      NoShorterScript(a, other, b);
    }
  }

  function Undo<T>(a: seq<T>, e: Edit<T>): (r: Edit<T>)
    requires Applicable(a, e)
    ensures Applicable(Apply(a, e), r)
  {
    match e
    case Insert(at, _) => Delete(at)
    case Delete(at) => Insert(at, a[at])
    case Substitute(at, _) => Substitute(at, a[at])
  }

  lemma {:induction false} UndoScript<T>(a: seq<T>, script: seq<Edit<T>>, b: seq<T>) returns (back: seq<Edit<T>>)
    requires Transforms(a, script, b)
    ensures Transforms(b, back, a) && |back| == |script|
    decreases |script|
  {
    if script == [] {
      back := [];
    } else {
      var mid := Apply(a, script[0]);
      var rest := UndoScript(mid, script[1..], b);
      back := Then(rest, b, mid, Undo(a, script[0]), a);
    }
  }

  lemma {:induction false} Symmetric<T>(a: seq<T>, b: seq<T>)
    ensures Distance(a, b) == Distance(b, a)
  {
    var s := ScriptOfDistance(a, b);
    var s' := UndoScript(a, s, b);
    var t := ScriptOfDistance(b, a);
    var t' := UndoScript(b, t, a);
    NoShorterScript(b, s', a);
    NoShorterScript(a, t', b);
  }

  lemma {:induction false} ZeroIffEqual<T>(a: seq<T>, b: seq<T>)
    ensures Distance(a, b) == 0 <==> a == b
  {
    var s := ScriptOfDistance(a, b);
    if a == b {
      DistanceToSelf(a);
    }
  }

  lemma {:induction false} TriangleInequality<T>(a: seq<T>, b: seq<T>, c: seq<T>)
    ensures Distance(a, c) <= Distance(a, b) + Distance(b, c)
  {
    var s := ScriptOfDistance(a, b);
    var t := ScriptOfDistance(b, c);
    TransformsConcat(a, s, b, t, c);
    NoShorterScript(a, s + t, c);
  }

  // ---------------------------------------------------------------- the two-row table

  /** A cell of the table in terms of its three neighbours. */
  lemma Cell<T>(a: seq<T>, b: seq<T>, i: nat, j: nat)
    requires 1 <= i <= |a| && 1 <= j <= |b|
    ensures Distance(a[..i], b[..j]) ==
            Min3(Distance(a[..i - 1], b[..j]) + 1, Distance(a[..i], b[..j - 1]) + 1,
                 Distance(a[..i - 1], b[..j - 1]) + (if a[i - 1] == b[j - 1] then 0 else 1))
  {
    assert a[..i][..i - 1] == a[..i - 1] && b[..j][..j - 1] == b[..j - 1];
  }

  /** The first cells of a row of the table: the distances of x to the prefixes of b. */
  ghost predicate Row<T>(x: seq<T>, b: seq<T>, cells: seq<nat>) {
    |cells| <= |b| + 1 && forall j :: 0 <= j < |cells| ==> cells[j] == Distance(x, b[..j])
  }

  /** The next cell of row i, from the row above it and the cells before it. */
  lemma NextCell<T>(a: seq<T>, b: seq<T>, i: nat, above: seq<nat>, cells: seq<nat>)
    requires 1 <= i <= |a| && |above| == |b| + 1 && 1 <= |cells| <= |b|
    requires Row(a[..i - 1], b, above) && Row(a[..i], b, cells)
    ensures var j := |cells|;
            Row(a[..i], b,
                cells + [Min3(above[j] + 1, cells[j - 1] + 1, above[j - 1] + (if a[i - 1] == b[j - 1] then 0 else 1))])
  {
    hide Distance;
    var j := |cells|;
    Cell(a, b, i, j);
    var cell := Min3(above[j] + 1, cells[j - 1] + 1, above[j - 1] + (if a[i - 1] == b[j - 1] then 0 else 1));
    assert cell == Distance(a[..i], b[..j]);
  }

  lemma TopRow<T>(a: seq<T>, b: seq<T>, cells: seq<nat>)
    requires |cells| == |b| + 1 && forall j :: 0 <= j <= |b| ==> cells[j] == j
    ensures Row(a[..0], b, cells)
  {
  }

  lemma FirstCell<T>(a: seq<T>, b: seq<T>, i: nat)
    requires i <= |a|
    ensures Row(a[..i], b, [i])
  {
  }

  lemma LastCell<T>(a: seq<T>, b: seq<T>, cells: seq<nat>)
    requires |cells| == |b| + 1 && Row(a[..|a|], b, cells)
    ensures cells[|b|] == Distance(a, b)
  {
    assert a[..|a|] == a && b[..|b|] == b;
  }

  method LevenshteinDistance<T(==)>(a: seq<T>, b: seq<T>) returns (d: nat)
    ensures d == Distance(a, b)
  {
    hide Distance, Row;
    var m, n := |a|, |b|;
    var prev := new nat[n + 1](k => k);
    var curr := new nat[n + 1];
    var i := 1;
    TopRow(a, b, prev[..]);
    while i <= m
      invariant 1 <= i <= m + 1
      invariant prev.Length == curr.Length == n + 1 && prev != curr
      invariant fresh(prev) && fresh(curr)
      invariant Row(a[..i - 1], b, prev[..])
    {
      curr[0] := i;
      var j := 1;
      FirstCell(a, b, i);
      assert curr[..1] == [i];
      while j <= n
        invariant 1 <= j <= n + 1
        invariant Row(a[..i - 1], b, prev[..]) && Row(a[..i], b, curr[..j])
      {
        NextCell(a, b, i, prev[..], curr[..j]);
        var cost := if a[i - 1] == b[j - 1] then 0 else 1;
        ghost var before := curr[..j];
        curr[j] := Min3(prev[j] + 1, curr[j - 1] + 1, prev[j - 1] + cost);
        assert curr[..j + 1] == before + [curr[j]];
        j := j + 1;
      }
      assert curr[..j] == curr[..];
      prev, curr := curr, prev;
      i := i + 1;
    }
    LastCell(a, b, prev[..]);
    d := prev[n];
  }
}
