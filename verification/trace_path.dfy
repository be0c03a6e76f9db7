/**
 Shortest call paths (src/application/querying/trace-path.ts): a bounded breadth-first search over
 neighbour expansions with predecessor records, proved to find a shortest path whenever there is one.
 */
module TracePath {
  import opened Prelude

  type Id = string

  datatype RelationType =
    Calls | Contains | Imports | Inherits | Implements | References | Defines | DependsOn

  /** A row of the neighbour query; the edge label may be missing. */
  datatype Row = Row(neighbourId: Id, edgeType: Option<string>)

  /** The answers of the neighbour query. */
  type Graph = Id -> seq<Row>

  // ---------------------------------------------------------------- edge labels

  function Upper(s: string): (r: string)
    ensures '_' in r ==> '_' in s
  {
    if s == [] then [] else [if 'a' <= s[0] <= 'z' then s[0] - 'a' + 'A' else s[0]] + Upper(s[1..])
  }

  /** What follows the last underscore, or the whole name. */
  function Bare(name: string): (r: string)
    ensures '_' !in r
  {
    if '_' !in name then name else Bare(name[1..])
  }

  function EdgeLabelToRelType(name: string): RelationType {
    var bare := Upper(Bare(name));
    if bare == "CALLS" then Calls
    else if bare == "CONTAINS" then Contains
    else if bare == "IMPORTS" then Imports
    else if bare == "INHERITS" then Inherits
    else if bare == "IMPLEMENTS" then Implements
    else if bare == "REFERENCES" then References
    else if bare == "DEFINES" then Defines
    else if bare == "DEPENDS_ON" then DependsOn
    else Calls
  }

  /** Whatever the adapter's prefix, a label is read from the part after its last underscore. */
  lemma {:induction false} PrefixIsIgnored(prefix: string, base: string)
    requires '_' !in base
    ensures EdgeLabelToRelType(prefix + "_" + base) == EdgeLabelToRelType(base)
  {
    BareDropsPrefix(prefix, base);
  }

  lemma {:induction false} BareDropsPrefix(prefix: string, base: string)
    requires '_' !in base
    ensures Bare(prefix + "_" + base) == base
  {
    var name := prefix + "_" + base;
    assert name[|prefix|] == '_';
    if prefix == [] {
      assert name[1..] == base;
    } else {
      assert name[1..] == prefix[1..] + "_" + base;
      BareDropsPrefix(prefix[1..], base);
    }
  }

  lemma {:induction false} UpperAt(s: string, k: nat)
    requires k < |s|
    ensures |Upper(s)| == |s| && Upper(s)[k] == if 'a' <= s[k] <= 'z' then s[k] - 'a' + 'A' else s[k]
  {
    if |s| > 1 {
      UpperAt(s[1..], if k > 0 then k - 1 else 0);
    }
  }

  /** Which type each label of the adapter is reported as, behind any prefix; a missing label is a call. */
  lemma LabelsAreReportedAs(prefix: string, neighbour: Id)
    ensures RelOf(Row(neighbour, Some(prefix + "_" + "CALLS"))) == Calls
    ensures RelOf(Row(neighbour, Some(prefix + "_" + "CONTAINS"))) == Contains
    ensures RelOf(Row(neighbour, Some(prefix + "_" + "IMPORTS"))) == Imports
    ensures RelOf(Row(neighbour, Some(prefix + "_" + "INHERITS"))) == Inherits
    ensures RelOf(Row(neighbour, Some(prefix + "_" + "IMPLEMENTS"))) == Implements
    ensures RelOf(Row(neighbour, Some(prefix + "_" + "REFERENCES"))) == References
    ensures RelOf(Row(neighbour, Some(prefix + "_" + "DEFINES"))) == Defines
    ensures RelOf(Row(neighbour, None)) == Calls
  {
    PlainLabels();
    hide EdgeLabelToRelType;
    PrefixIsIgnored(prefix, "CALLS");
    PrefixIsIgnored(prefix, "CONTAINS");
    PrefixIsIgnored(prefix, "IMPORTS");
    PrefixIsIgnored(prefix, "INHERITS");
    PrefixIsIgnored(prefix, "IMPLEMENTS");
    PrefixIsIgnored(prefix, "REFERENCES");
    PrefixIsIgnored(prefix, "DEFINES");
  }

  lemma PlainLabels()
    ensures EdgeLabelToRelType("CALLS") == Calls && EdgeLabelToRelType("CONTAINS") == Contains
    ensures EdgeLabelToRelType("IMPORTS") == Imports && EdgeLabelToRelType("INHERITS") == Inherits
    ensures EdgeLabelToRelType("IMPLEMENTS") == Implements && EdgeLabelToRelType("REFERENCES") == References
    ensures EdgeLabelToRelType("DEFINES") == Defines
  {
    hide Upper, Bare;
    assert Upper(Bare("CALLS")) == "CALLS" by { UpperOfCapitals("CALLS"); }
    assert Upper(Bare("CONTAINS")) == "CONTAINS" by { UpperOfCapitals("CONTAINS"); }
    assert Upper(Bare("IMPORTS")) == "IMPORTS" by { UpperOfCapitals("IMPORTS"); }
    assert Upper(Bare("INHERITS")) == "INHERITS" by { UpperOfCapitals("INHERITS"); }
    assert Upper(Bare("IMPLEMENTS")) == "IMPLEMENTS" by { UpperOfCapitals("IMPLEMENTS"); }
    assert Upper(Bare("REFERENCES")) == "REFERENCES" by { UpperOfCapitals("REFERENCES"); }
    assert Upper(Bare("DEFINES")) == "DEFINES" by { UpperOfCapitals("DEFINES"); }
  }

  lemma {:induction false} UpperOfCapitals(s: string)
    requires forall k :: 0 <= k < |s| ==> 'A' <= s[k] <= 'Z'
    ensures Upper(s) == s && Bare(s) == s
  {
    if s != [] {
      UpperOfCapitals(s[1..]);
    }
  }

  /** Any other label is reported as a call. */
  lemma OtherLabelsAreCalls(name: string)
    ensures EdgeLabelToRelType(name) == Calls ||
            Upper(Bare(name)) in {"CONTAINS", "IMPORTS", "INHERITS", "IMPLEMENTS", "REFERENCES", "DEFINES"}
  {
    DependsOnIsNeverReported(name);
  }

  /** The branch for DEPENDS_ON is never taken: its own label is cut at the underscore first. */
  lemma DependsOnIsNeverReported(name: string)
    ensures EdgeLabelToRelType(name) != DependsOn
  {
    assert "DEPENDS_ON"[7] == '_';
  }

  // ---------------------------------------------------------------- paths

  function ExpandNeighbours(g: Graph, n: Id): (rows: seq<Row>)
    ensures forall k :: 0 <= k < |rows| ==> rows[k].neighbourId != "" && rows[k] in g(n)
    ensures forall row :: row in g(n) && row.neighbourId != "" ==> row in rows
  {
    WithId(g(n))
  }

  function WithId(rows: seq<Row>): (r: seq<Row>)
    ensures forall k :: 0 <= k < |r| ==> r[k].neighbourId != "" && r[k] in rows
    ensures forall row :: row in rows && row.neighbourId != "" ==> row in r
  {
    if rows == [] then []
    else if rows[0].neighbourId == "" then WithId(rows[1..])
    else [rows[0]] + WithId(rows[1..])
  }

  function RelOf(row: Row): RelationType {
    EdgeLabelToRelType(if row.edgeType.Some? then row.edgeType.value else "CALLS")
  }

  /** The graph has an edge from u to v that is reported as `rel`. */
  ghost predicate Edge(g: Graph, u: Id, v: Id, rel: RelationType) {
    exists row :: row in g(u) && row.neighbourId != "" && row.neighbourId == v && RelOf(row) == rel
  }

  ghost predicate Linked(g: Graph, u: Id, v: Id) {
    exists row :: row in g(u) && row.neighbourId != "" && row.neighbourId == v
  }

  datatype Hop = Hop(id: Id, edgeToNext: Option<RelationType>)

  /** A chain of hops from s to t, each reporting a real edge to the next; the last reports none. */
  ghost predicate IsPath(g: Graph, hops: seq<Hop>, s: Id, t: Id) {
    && hops != [] && hops[0].id == s && hops[|hops| - 1] == Hop(t, None)
    && forall k :: 0 <= k < |hops| - 1 ==>
         hops[k].edgeToNext.Some? && Edge(g, hops[k].id, hops[k + 1].id, hops[k].edgeToNext.value)
  }

  /** A sequence of nodes, each linked to the next. */
  ghost predicate IsWalk(g: Graph, w: seq<Id>, s: Id, t: Id) {
    && w != [] && w[0] == s && w[|w| - 1] == t
    && forall k :: 0 <= k < |w| - 1 ==> Linked(g, w[k], w[k + 1])
  }

  /** Some walk of exactly k edges leads from s to v. */
  ghost predicate ReachIn(g: Graph, s: Id, v: Id, k: nat)
    decreases k
  {
    if k == 0 then v == s else exists u :: ReachIn(g, s, u, k - 1) && Linked(g, u, v)
  }

  lemma {:induction false} WalkReaches(g: Graph, w: seq<Id>, s: Id, t: Id)
    requires IsWalk(g, w, s, t)
    ensures ReachIn(g, s, t, |w| - 1)
  {
    if |w| > 1 {
      var init := w[..|w| - 1];
      forall k | 0 <= k < |init| - 1
        ensures Linked(g, init[k], init[k + 1])
      {
        assert Linked(g, w[k], w[k + 1]);
      }
      WalkReaches(g, init, s, init[|init| - 1]);
      assert Linked(g, w[|w| - 2], w[|w| - 2 + 1]);
    }
  }

  // ---------------------------------------------------------------- the search tree

  datatype PredEntry = PredEntry(prevId: Id, edge: RelationType)

  /** The depth at which each visited node was found, with its predecessor one level up along a real edge. */
  ghost predicate Tree(g: Graph, start: Id, visited: set<Id>, pred: map<Id, PredEntry>, depth: map<Id, nat>) {
    && start in visited && depth.Keys == visited && pred.Keys == visited - {start}
    && (forall v :: v in visited ==> (depth[v] == 0 <==> v == start))
    && (forall v :: v in pred ==>
          && pred[v].prevId in visited && Edge(g, pred[v].prevId, v, pred[v].edge)
          && depth[v] == depth[pred[v].prevId] + 1)
  }

  /** Every node within d edges has been visited, at a depth no greater than any walk to it. */
  ghost predicate Complete(g: Graph, start: Id, depth: map<Id, nat>, d: nat) {
    forall v, k :: 0 <= k <= d && ReachIn(g, start, v, k) ==> v in depth && depth[v] <= k
  }

  ghost predicate Closed(g: Graph, u: Id, visited: set<Id>) {
    forall v :: Linked(g, u, v) ==> v in visited
  }

  /** Between two levels: the frontier is exactly the level d, and everything above it is fully expanded. */
  ghost predicate Level(g: Graph, start: Id, goal: Id, visited: set<Id>, pred: map<Id, PredEntry>,
                        depth: map<Id, nat>, frontier: seq<Id>, d: nat) {
    && Tree(g, start, visited, pred, depth) && goal !in visited
    && Complete(g, start, depth, d)
    && (forall v :: v in visited ==> depth[v] <= d)
    && (forall v :: v in frontier <==> v in visited && depth[v] == d)
    && (forall u :: u in visited && depth[u] < d ==> Closed(g, u, visited))
  }

  /** Within a level: `done` frontier nodes are expanded and `next` collects the nodes found. */
  ghost predicate Within(g: Graph, start: Id, goal: Id, visited: set<Id>, pred: map<Id, PredEntry>,
                         depth: map<Id, nat>, frontier: seq<Id>, done: nat, next: seq<Id>, d: nat) {
    && Tree(g, start, visited, pred, depth) && goal !in visited
    && Complete(g, start, depth, d)
    && (forall v :: v in visited ==> depth[v] <= d + 1)
    && (forall v :: v in frontier <==> v in visited && depth[v] == d)
    && (forall v :: v in next <==> v in visited && depth[v] == d + 1)
    && (forall u :: u in visited && depth[u] < d ==> Closed(g, u, visited))
    && done <= |frontier| && (forall k :: 0 <= k < done ==> Closed(g, frontier[k], visited))
  }

  /** Visiting a new neighbour that is not the goal goes on with the level. */
  lemma VisitWithin(g: Graph, start: Id, goal: Id, visited: set<Id>, pred: map<Id, PredEntry>,
                    depth: map<Id, nat>, frontier: seq<Id>, i: nat, next: seq<Id>, d: nat, row: Row)
    requires Within(g, start, goal, visited, pred, depth, frontier, i, next, d) && i < |frontier|
    requires row in g(frontier[i]) && row.neighbourId != "" && row.neighbourId !in visited && row.neighbourId != goal
    ensures var v := row.neighbourId;
            Within(g, start, goal, visited + {v}, pred[v := PredEntry(frontier[i], RelOf(row))], depth[v := d + 1],
                   frontier, i, next + [v], d)
  {
    VisitTree(g, start, visited, pred, depth, frontier[i], row);
    hide Tree, Linked, Edge, ReachIn;
  }

  /** The tree takes a new node as a child of the node it was found from. */
  lemma VisitTree(g: Graph, start: Id, visited: set<Id>, pred: map<Id, PredEntry>, depth: map<Id, nat>, u: Id, row: Row)
    requires Tree(g, start, visited, pred, depth) && u in visited
    requires row in g(u) && row.neighbourId != "" && row.neighbourId !in visited
    ensures var v := row.neighbourId;
            Tree(g, start, visited + {v}, pred[v := PredEntry(u, RelOf(row))], depth[v := depth[u] + 1])
  {
  }

  /** Visiting the goal: its record is in the tree, and no walk to it is as short as the level before. */
  lemma VisitGoal(g: Graph, start: Id, goal: Id, visited: set<Id>, pred: map<Id, PredEntry>,
                  depth: map<Id, nat>, frontier: seq<Id>, i: nat, next: seq<Id>, d: nat, row: Row)
    requires Within(g, start, goal, visited, pred, depth, frontier, i, next, d) && i < |frontier|
    requires row in g(frontier[i]) && row.neighbourId != "" && row.neighbourId == goal
    ensures Tree(g, start, visited + {goal}, pred[goal := PredEntry(frontier[i], RelOf(row))], depth[goal := d + 1])
    ensures forall w :: IsWalk(g, w, start, goal) ==> |w| - 1 > d
  {
    NotYet(g, start, goal, depth, d);
    VisitTree(g, start, visited, pred, depth, frontier[i], row);
    hide Tree, Linked, Edge, ReachIn, IsWalk;
  }

  lemma NodeDone(g: Graph, start: Id, goal: Id, visited: set<Id>, pred: map<Id, PredEntry>,
                 depth: map<Id, nat>, frontier: seq<Id>, i: nat, next: seq<Id>, d: nat)
    requires Within(g, start, goal, visited, pred, depth, frontier, i, next, d) && i < |frontier|
    requires var rows := ExpandNeighbours(g, frontier[i]);
             forall k :: 0 <= k < |rows| ==> rows[k].neighbourId in visited
    ensures Within(g, start, goal, visited, pred, depth, frontier, i + 1, next, d)
  {
    var rows := ExpandNeighbours(g, frontier[i]);
    forall v | Linked(g, frontier[i], v)
      ensures v in visited
    {
      var row :| row in g(frontier[i]) && row.neighbourId != "" && row.neighbourId == v;
      assert row in rows;
      var k :| 0 <= k < |rows| && rows[k] == row;
    }
  }

  /** No walk to a node that is not visited is as short as the level. */
  lemma NotYet(g: Graph, start: Id, goal: Id, depth: map<Id, nat>, d: nat)
    requires Complete(g, start, depth, d) && goal !in depth
    ensures forall w :: IsWalk(g, w, start, goal) ==> |w| - 1 > d
  {
    forall w | IsWalk(g, w, start, goal)
      ensures |w| - 1 > d
    {
      WalkReaches(g, w, start, goal);
    }
  }

  /** With an empty frontier, nothing else can be reached. */
  lemma {:induction false} Exhausted(g: Graph, start: Id, goal: Id, visited: set<Id>, pred: map<Id, PredEntry>,
                                     depth: map<Id, nat>, d: nat, v: Id, k: nat)
    requires Level(g, start, goal, visited, pred, depth, [], d)
    requires ReachIn(g, start, v, k)
    ensures v in visited
    decreases k
  {
    if k > 0 {
      var u :| ReachIn(g, start, u, k - 1) && Linked(g, u, v);
      Exhausted(g, start, goal, visited, pred, depth, d, u, k - 1);
      assert u !in [];
      assert Closed(g, u, visited);
    }
  }

  lemma NoWalkLeft(g: Graph, start: Id, goal: Id, visited: set<Id>, pred: map<Id, PredEntry>, depth: map<Id, nat>,
                   d: nat)
    requires Level(g, start, goal, visited, pred, depth, [], d)
    ensures forall w :: !IsWalk(g, w, start, goal)
  {
    forall w | IsWalk(g, w, start, goal)
      ensures false
    {
      WalkReaches(g, w, start, goal);
      Exhausted(g, start, goal, visited, pred, depth, d, goal, |w| - 1);
    }
  }

  // ---------------------------------------------------------------- reconstruction

  function Reverse<T>(s: seq<T>): (r: seq<T>)
    ensures |r| == |s|
  {
    if s == [] then [] else Reverse(s[1..]) + [s[0]]
  }

  lemma {:induction false} ReverseSnoc<T>(s: seq<T>, x: T)
    ensures Reverse(s + [x]) == [x] + Reverse(s)
  {
    if s == [] {
      assert s + [x] == [x] && Reverse([x]) == Reverse([]) + [x];
    } else {
      assert (s + [x])[1..] == s[1..] + [x];
      ReverseSnoc(s[1..], x);
    }
  }

  /** Walk the predecessors from the goal; the source's exit for a broken chain is never reached. */
  method Reconstruct(g: Graph, start: Id, goal: Id, ghost visited: set<Id>, pred: map<Id, PredEntry>,
                     ghost depth: map<Id, nat>)
    returns (path: seq<Hop>)
    requires Tree(g, start, visited, pred, depth) && goal in visited
    ensures IsPath(g, path, start, goal) && |path| == depth[goal] + 1
  {
    var reverse := [Hop(goal, None)];
    var cursor := goal;
    assert Reverse(reverse) == reverse;
    while cursor != start
      invariant cursor in visited && |reverse| + depth[cursor] == depth[goal] + 1
      invariant IsPath(g, Reverse(reverse), cursor, goal)
      decreases depth[cursor]
    {
      if cursor !in pred {
        assert false;
      }
      var p := pred[cursor];
      ReverseSnoc(reverse, Hop(p.prevId, Some(p.edge)));
      reverse := reverse + [Hop(p.prevId, Some(p.edge))];
      cursor := p.prevId;
    }
    path := Reverse(reverse);
  }

  // ---------------------------------------------------------------- the search

  /** The loop over the neighbours of one frontier node; it stops when it meets the goal. */
  method ExpandNode(g: Graph, start: Id, goal: Id, visited0: set<Id>, pred0: map<Id, PredEntry>,
                    ghost found0: map<Id, nat>, ghost frontier: seq<Id>, ghost i: nat, u: Id, next0: seq<Id>,
                    ghost d: nat)
    returns (visited: set<Id>, pred: map<Id, PredEntry>, ghost found: map<Id, nat>, next: seq<Id>, hit: bool)
    requires i < |frontier| && u == frontier[i]
    requires Within(g, start, goal, visited0, pred0, found0, frontier, i, next0, d)
    ensures !hit ==> Within(g, start, goal, visited, pred, found, frontier, i + 1, next, d)
    ensures hit ==> Tree(g, start, visited, pred, found) && goal in visited && found[goal] == d + 1
    ensures hit ==> forall w :: IsWalk(g, w, start, goal) ==> |w| - 1 > d
  {
    hide Within, Tree;
    visited, pred, found, next, hit := visited0, pred0, found0, next0, false;
    var rows := ExpandNeighbours(g, u);
    var j := 0;
    while j < |rows|
      invariant 0 <= j <= |rows|
      invariant Within(g, start, goal, visited, pred, found, frontier, i, next, d)
      invariant forall k :: 0 <= k < j ==> rows[k].neighbourId in visited
    {
      var nb := rows[j];
      j := j + 1;
      if nb.neighbourId in visited {
        continue;
      }
      if nb.neighbourId == goal {
        VisitGoal(g, start, goal, visited, pred, found, frontier, i, next, d, nb);
      } else {
        VisitWithin(g, start, goal, visited, pred, found, frontier, i, next, d, nb);
      }
      visited := visited + {nb.neighbourId};
      pred := pred[nb.neighbourId := PredEntry(u, RelOf(nb))];
      found := found[nb.neighbourId := d + 1];
      if nb.neighbourId == goal {
        hit := true;
        return;
      }
      next := next + [nb.neighbourId];
    }
    NodeDone(g, start, goal, visited, pred, found, frontier, i, next, d);
  }

  method BfsShortestPath(g: Graph, start: Id, goal: Id, maxEdges: nat) returns (path: Option<seq<Hop>>)
    ensures path.Some? ==> IsPath(g, path.value, start, goal) && |path.value| - 1 <= maxEdges
    ensures path.Some? ==> forall w :: IsWalk(g, w, start, goal) ==> |w| >= |path.value|
    ensures path.None? ==> forall w :: IsWalk(g, w, start, goal) ==> |w| - 1 > maxEdges
  {
    if start == goal {
      return Some([Hop(start, None)]);
    }
    var visited: set<Id> := {start};
    var pred: map<Id, PredEntry> := map[];
    ghost var found: map<Id, nat> := map[start := 0];
    var frontier := [start];
    var depth: nat := 0;
    while |frontier| > 0 && depth < maxEdges
      invariant depth <= maxEdges
      invariant Level(g, start, goal, visited, pred, found, frontier, depth)
      decreases maxEdges - depth
    {
      depth := depth + 1;
      var next: seq<Id> := [];
      var i := 0;
      while i < |frontier|
        invariant i <= |frontier|
        invariant Within(g, start, goal, visited, pred, found, frontier, i, next, depth - 1)
      {
        var hit;
        visited, pred, found, next, hit :=
          ExpandNode(g, start, goal, visited, pred, found, frontier, i, frontier[i], next, depth - 1);
        if hit {
          var hops := Reconstruct(g, start, goal, visited, pred, found);
          return Some(hops);
        }
        i := i + 1;
      }
      frontier := next;
    }
    if |frontier| == 0 {
      NoWalkLeft(g, start, goal, visited, pred, found, depth);
    } else {
      NotYet(g, start, goal, found, depth);
    }
    return None;
  }
}
