/**
 Everything the persist phase writes, group by group, against the row count it announces
 (storeInDatabases and countPersistRows in src/application/indexing/pipeline.ts).
 */
module PersistRows {
  import opened Prelude
  import Chunking
  import AdaptiveWrite
  import TracePath

  datatype Relationship = Relationship(source: string, target: string, relType: string)
  datatype Cluster = Cluster(id: string, symbols: seq<string>)
  datatype Process = Process(id: string, steps: seq<string>)

  datatype Row =
    | VectorRow(id: string)
    | NodeRow(nodeLabel: string, id: string)
    | EdgeRow(edgeType: string, from: string, to: string)

  /** The results of one indexing run that are to be persisted. */
  datatype Results = Results(
    vectors: seq<string>,
    symbols: seq<string>,
    relationships: seq<Relationship>,
    clusters: seq<Cluster>,
    processes: seq<Process>,
    extNodes: seq<string>
  )

  function SumSymbols(clusters: seq<Cluster>): nat {
    if clusters == [] then 0 else |clusters[0].symbols| + SumSymbols(clusters[1..])
  }

  function SumSteps(processes: seq<Process>): nat {
    if processes == [] then 0 else |processes[0].steps| + SumSteps(processes[1..])
  }

  function CountPersistRows(r: Results): nat {
    var nodeRows := |r.symbols| + |r.clusters| + |r.processes| + |r.extNodes|;
    |r.vectors| + nodeRows + |r.relationships| + SumSymbols(r.clusters) + SumSteps(r.processes)
  }

  // ---------------------------------------------------------------- relationships grouped by type

  function EdgeType(relType: string): string {
    if relType == "dependsOn" then "DEPENDS_ON" else TracePath.Upper(relType)
  }

  function EdgeRowOf(r: Relationship, keyOf: string -> string): Row {
    EdgeRow(EdgeType(r.relType), keyOf(r.source), keyOf(r.target))
  }

  /** The rows of one type, in the order of the relationships. */
  function RowsOfType(rels: seq<Relationship>, t: string, keyOf: string -> string): seq<Row> {
    if rels == [] then []
    else
      var init, last := rels[..|rels| - 1], rels[|rels| - 1];
      RowsOfType(init, t, keyOf) + (if EdgeType(last.relType) == t then [EdgeRowOf(last, keyOf)] else [])
  }

  /** The types, in order of first appearance: the key order of the grouping map. */
  function TypesOf(rels: seq<Relationship>): seq<string> {
    if rels == [] then []
    else
      var types := TypesOf(rels[..|rels| - 1]);
      var t := EdgeType(rels[|rels| - 1].relType);
      if t in types then types else types + [t]
  }

  /** The groups after these relationships. */
  ghost predicate Grouped(rels: seq<Relationship>, keyOf: string -> string,
                          types: seq<string>, edgesByType: map<string, seq<Row>>)
  {
    && types == TypesOf(rels) && (forall t :: t in edgesByType <==> t in types)
    && forall t :: t in types ==> edgesByType[t] == RowsOfType(rels, t, keyOf)
  }

  lemma {:induction false} UnseenHasNoRows(rels: seq<Relationship>, t: string, keyOf: string -> string)
    requires t !in TypesOf(rels)
    ensures RowsOfType(rels, t, keyOf) == []
  {
    if rels != [] {
      UnseenHasNoRows(rels[..|rels| - 1], t, keyOf);
    }
  }

  lemma GroupOneMore(rels: seq<Relationship>, r: Relationship, keyOf: string -> string,
                     types: seq<string>, edgesByType: map<string, seq<Row>>)
    requires Grouped(rels, keyOf, types, edgesByType)
    ensures var t := EdgeType(r.relType);
            var rows := if t in edgesByType then edgesByType[t] else [];
            Grouped(rels + [r], keyOf, if t in types then types else types + [t],
                    edgesByType[t := rows + [EdgeRowOf(r, keyOf)]])
  {
    var t := EdgeType(r.relType);
    if t !in types {
      UnseenHasNoRows(rels, t, keyOf);
    }
    assert (rels + [r])[..|rels|] == rels;
    assert TypesOf(rels + [r]) == if t in TypesOf(rels) then TypesOf(rels) else TypesOf(rels) + [t];
    hide EdgeType, EdgeRowOf, RowsOfType, TypesOf;
    forall u | u in types || u == t
      ensures RowsOfType(rels + [r], u, keyOf) ==
              RowsOfType(rels, u, keyOf) + if t == u then [EdgeRowOf(r, keyOf)] else []
    {
      RowsOfTypeSnoc(rels, r, u, keyOf);
    }
  }

  method GroupEdges(rels: seq<Relationship>, keyOf: string -> string)
    returns (types: seq<string>, edgesByType: map<string, seq<Row>>)
    ensures types == TypesOf(rels) && (forall t :: t in edgesByType <==> t in types)
    ensures forall t :: t in types ==> edgesByType[t] == RowsOfType(rels, t, keyOf)
  {
    types, edgesByType := [], map[];
    var i := 0;
    while i < |rels|
      invariant 0 <= i <= |rels|
      invariant Grouped(rels[..i], keyOf, types, edgesByType)
    {
      var r := rels[i];
      var t := EdgeType(r.relType);
      assert rels[..i + 1] == rels[..i] + [r];
      GroupOneMore(rels[..i], r, keyOf, types, edgesByType);
      hide Grouped;
      var rows := if t in edgesByType then edgesByType[t] else [];
      edgesByType := edgesByType[t := rows + [EdgeRowOf(r, keyOf)]];
      if t !in types {
        types := types + [t];
      }
      i := i + 1;
    }
    assert rels[..i] == rels;
  }

  function EdgeGroups(rels: seq<Relationship>, types: seq<string>, keyOf: string -> string): (g: seq<seq<Row>>)
    ensures |g| == |types|
  {
    seq(|types|, k requires 0 <= k < |types| => RowsOfType(rels, types[k], keyOf))
  }

  function TotalRows(groups: seq<seq<Row>>): nat {
    if groups == [] then 0 else |groups[0]| + TotalRows(groups[1..])
  }

  /** The rows of the relationships, one by one in their own order. */
  function EdgeRows(rels: seq<Relationship>, keyOf: string -> string): (r: seq<Row>)
    ensures |r| == |rels|
  {
    if rels == [] then [] else EdgeRows(rels[..|rels| - 1], keyOf) + [EdgeRowOf(rels[|rels| - 1], keyOf)]
  }

  /** The rows of these types, group after group. */
  function GroupedRows(rels: seq<Relationship>, types: seq<string>, keyOf: string -> string): seq<Row> {
    if types == [] then [] else RowsOfType(rels, types[0], keyOf) + GroupedRows(rels, types[1..], keyOf)
  }

  lemma {:induction false} GroupsAreGroupedRows(rels: seq<Relationship>, types: seq<string>, keyOf: string -> string)
    ensures Concat(EdgeGroups(rels, types, keyOf)) == GroupedRows(rels, types, keyOf)
    decreases |types|
  {
    if types != [] {
      GroupsAreGroupedRows(rels, types[1..], keyOf);
      assert EdgeGroups(rels, types, keyOf)[1..] == EdgeGroups(rels, types[1..], keyOf);
    }
  }

  /** One more relationship adds one row, to the group of its type. */
  lemma {:induction false} OneMoreEdge(rels: seq<Relationship>, r: Relationship, types: seq<string>,
                                       keyOf: string -> string)
    requires Distinct(types)
    ensures multiset(GroupedRows(rels + [r], types, keyOf)) ==
            multiset(GroupedRows(rels, types, keyOf)) +
            (if EdgeType(r.relType) in types then multiset{EdgeRowOf(r, keyOf)} else multiset{})
    decreases |types|
  {
    if types != [] {
      assert types == [types[0]] + types[1..];
      OneMoreEdge(rels, r, types[1..], keyOf);
      RowsOfTypeSnoc(rels, r, types[0], keyOf);
      assert EdgeType(r.relType) in types <==> EdgeType(r.relType) == types[0] || EdgeType(r.relType) in types[1..];
      assert types[0] !in types[1..];
      hide EdgeType, EdgeRowOf, RowsOfType;
    }
  }

  lemma RowsOfTypeSnoc(rels: seq<Relationship>, r: Relationship, t: string, keyOf: string -> string)
    ensures RowsOfType(rels + [r], t, keyOf) ==
            RowsOfType(rels, t, keyOf) + (if EdgeType(r.relType) == t then [EdgeRowOf(r, keyOf)] else [])
  {
    assert (rels + [r])[..|rels|] == rels;
  }

  lemma {:induction false} NoEdges(types: seq<string>, keyOf: string -> string)
    ensures GroupedRows([], types, keyOf) == []
    decreases |types|
  {
    if types != [] {
      NoEdges(types[1..], keyOf);
    }
  }

  lemma {:induction false} TypesAreDistinct(rels: seq<Relationship>)
    ensures Distinct(TypesOf(rels))
    ensures forall k :: 0 <= k < |rels| ==> EdgeType(rels[k].relType) in TypesOf(rels)
  {
    if rels != [] {
      TypesAreDistinct(rels[..|rels| - 1]);
    }
  }

  /** Grouping loses no relationship and doubles none. */
  lemma {:induction false} GroupsHoldEveryEdge(rels: seq<Relationship>, types: seq<string>, keyOf: string -> string)
    requires Distinct(types) && forall k :: 0 <= k < |rels| ==> EdgeType(rels[k].relType) in types
    ensures multiset(Concat(EdgeGroups(rels, types, keyOf))) == multiset(EdgeRows(rels, keyOf))
    ensures |Concat(EdgeGroups(rels, types, keyOf))| == |rels|
    decreases |rels|
  {
    GroupsAreGroupedRows(rels, types, keyOf);
    if rels == [] {
      NoEdges(types, keyOf);
    } else {
      var init, last := rels[..|rels| - 1], rels[|rels| - 1];
      assert rels == init + [last];
      GroupsHoldEveryEdge(init, types, keyOf);
      GroupsAreGroupedRows(init, types, keyOf);
      OneMoreEdge(init, last, types, keyOf);
    }
    var grouped := Concat(EdgeGroups(rels, types, keyOf));
    assert |multiset(grouped)| == |grouped| && |multiset(EdgeRows(rels, keyOf))| == |rels|;
  }

  // ---------------------------------------------------------------- the plan of the persist phase

  function Nodes(nodeLabel: string, ids: seq<string>): (r: seq<Row>)
    ensures |r| == |ids|
  {
    seq(|ids|, k requires 0 <= k < |ids| => NodeRow(nodeLabel, ids[k]))
  }

  function Edges(edgeType: string, from: string, to: seq<string>, keyOf: string -> string): (r: seq<Row>)
    ensures |r| == |to|
  {
    seq(|to|, k requires 0 <= k < |to| => EdgeRow(edgeType, from, keyOf(to[k])))
  }

  function ContainsRows(clusters: seq<Cluster>, keyOf: string -> string): (r: seq<Row>)
    ensures |r| == SumSymbols(clusters)
  {
    if clusters == [] then []
    else Edges("CONTAINS", clusters[0].id, clusters[0].symbols, keyOf) + ContainsRows(clusters[1..], keyOf)
  }

  function StepRows(processes: seq<Process>, keyOf: string -> string): (r: seq<Row>)
    ensures |r| == SumSteps(processes)
  {
    if processes == [] then []
    else Edges("HAS_STEP", processes[0].id, processes[0].steps, keyOf) + StepRows(processes[1..], keyOf)
  }

  function ClusterIds(clusters: seq<Cluster>): (r: seq<string>)
    ensures |r| == |clusters|
  {
    seq(|clusters|, k requires 0 <= k < |clusters| => clusters[k].id)
  }

  function ProcessIds(processes: seq<Process>): (r: seq<string>)
    ensures |r| == |processes|
  {
    seq(|processes|, k requires 0 <= k < |processes| => processes[k].id)
  }

  function Vectors(ids: seq<string>): (r: seq<Row>)
    ensures |r| == |ids|
  {
    seq(|ids|, k requires 0 <= k < |ids| => VectorRow(ids[k]))
  }

  /** The groups in the order of the persist phase: vectors, four node labels, one group per edge type, memberships,
      steps. */
  function Plan(r: Results, keyOf: string -> string): seq<seq<Row>> {
    [Vectors(r.vectors), Nodes("Symbol", r.symbols), Nodes("Cluster", ClusterIds(r.clusters)),
     Nodes("Process", ProcessIds(r.processes)), Nodes("ExternalDependency", r.extNodes)]
    + EdgeGroups(r.relationships, TypesOf(r.relationships), keyOf)
    + [ContainsRows(r.clusters, keyOf), StepRows(r.processes, keyOf)]
  }

  lemma {:induction false} TotalRowsConcat(a: seq<seq<Row>>, b: seq<seq<Row>>)
    ensures TotalRows(a + b) == TotalRows(a) + TotalRows(b)
    decreases |a|
  {
    if a == [] {
      assert a + b == b;
    } else {
      assert (a + b)[1..] == a[1..] + b;
      TotalRowsConcat(a[1..], b);
    }
  }

  /** The rows announced are the rows of all groups. */
  lemma PlanMatchesCount(r: Results, keyOf: string -> string)
    ensures TotalRows(Plan(r, keyOf)) == CountPersistRows(r)
  {
    var front := [Vectors(r.vectors), Nodes("Symbol", r.symbols), Nodes("Cluster", ClusterIds(r.clusters)),
                  Nodes("Process", ProcessIds(r.processes)), Nodes("ExternalDependency", r.extNodes)];
    var types := TypesOf(r.relationships);
    var middle := EdgeGroups(r.relationships, types, keyOf);
    var back := [ContainsRows(r.clusters, keyOf), StepRows(r.processes, keyOf)];
    TotalRowsConcat(front + middle, back);
    TotalRowsConcat(front, middle);
    TypesAreDistinct(r.relationships);
    GroupsHoldEveryEdge(r.relationships, types, keyOf);
    FiveGroups(front[0], front[1], front[2], front[3], front[4]);
    TwoGroups(back[0], back[1]);
  }

  lemma OneGroup(a: seq<Row>)
    ensures TotalRows([a]) == |a|
  {
    assert [a][1..] == [];
  }

  lemma TwoGroups(a: seq<Row>, b: seq<Row>)
    ensures TotalRows([a, b]) == |a| + |b|
  {
    assert [a, b][1..] == [b];
    OneGroup(b);
  }

  lemma FiveGroups(a: seq<Row>, b: seq<Row>, c: seq<Row>, d: seq<Row>, e: seq<Row>)
    ensures TotalRows([a, b, c, d, e]) == |a| + |b| + |c| + |d| + |e|
  {
    TotalRowsConcat([a, b], [c, d] + [e]);
    TotalRowsConcat([c, d], [e]);
    TwoGroups(a, b);
    TwoGroups(c, d);
    OneGroup(e);
    assert [a, b] + ([c, d] + [e]) == [a, b, c, d, e];
  }

  // ---------------------------------------------------------------- what the plan holds

  /** The rows that results call for, each with its own two ends. */
  ghost predicate CalledFor(r: Results, keyOf: string -> string, row: Row) {
    match row
    case VectorRow(id) => id in r.vectors
    case NodeRow(nodeLabel, id) =>
      || (nodeLabel == "Symbol" && id in r.symbols)
      || (nodeLabel == "Cluster" && exists c :: c in r.clusters && c.id == id)
      || (nodeLabel == "Process" && exists p :: p in r.processes && p.id == id)
      || (nodeLabel == "ExternalDependency" && id in r.extNodes)
    case EdgeRow(edgeType, from, to) =>
      || (exists rel :: rel in r.relationships && Related(rel, keyOf, row))
      || (edgeType == "CONTAINS" && exists c, s :: c in r.clusters && s in c.symbols && from == c.id && to == keyOf(s))
      || (edgeType == "HAS_STEP" && exists p, s :: p in r.processes && s in p.steps && from == p.id && to == keyOf(s))
  }

  /** The row leads from the relationship's source to its target, under the name of its type. */
  predicate Related(rel: Relationship, keyOf: string -> string, row: Row) {
    && row.EdgeRow? && row.from == keyOf(rel.source) && row.to == keyOf(rel.target)
    && row.edgeType == if rel.relType == "dependsOn" then "DEPENDS_ON" else TracePath.Upper(rel.relType)
  }

  lemma {:induction false} InConcat(a: seq<seq<Row>>, b: seq<seq<Row>>, row: Row)
    ensures row in Concat(a + b) <==> row in Concat(a) || row in Concat(b)
    decreases |a|
  {
    if a == [] {
      assert a + b == b;
    } else {
      assert (a + b)[1..] == a[1..] + b;
      InConcat(a[1..], b, row);
    }
  }

  lemma InGroup(a: seq<Row>, row: Row)
    ensures row in Concat([a]) <==> row in a
  {
    assert [a][1..] == [];
  }

  lemma {:induction false} EdgeRowsAre(rels: seq<Relationship>, keyOf: string -> string, row: Row)
    ensures row in EdgeRows(rels, keyOf) <==> exists rel :: rel in rels && Related(rel, keyOf, row)
  {
    if rels != [] {
      var init, last := rels[..|rels| - 1], rels[|rels| - 1];
      EdgeRowsAre(init, keyOf, row);
      assert rels == init + [last];
      assert row == EdgeRowOf(last, keyOf) <==> Related(last, keyOf, row);
      hide EdgeRowOf, Related;
    }
  }

  lemma {:induction false} ContainsRowsAre(clusters: seq<Cluster>, keyOf: string -> string, row: Row)
    ensures row in ContainsRows(clusters, keyOf) <==>
            row.EdgeRow? && row.edgeType == "CONTAINS"
            && exists c, s :: c in clusters && s in c.symbols && row.from == c.id && row.to == keyOf(s)
    decreases |clusters|
  {
    if clusters != [] {
      ContainsRowsAre(clusters[1..], keyOf, row);
      EdgesAre("CONTAINS", clusters[0].id, clusters[0].symbols, keyOf, row);
      assert clusters == [clusters[0]] + clusters[1..];
      hide Edges;
    }
  }

  lemma {:induction false} StepRowsAre(processes: seq<Process>, keyOf: string -> string, row: Row)
    ensures row in StepRows(processes, keyOf) <==>
            row.EdgeRow? && row.edgeType == "HAS_STEP"
            && exists p, s :: p in processes && s in p.steps && row.from == p.id && row.to == keyOf(s)
    decreases |processes|
  {
    if processes != [] {
      StepRowsAre(processes[1..], keyOf, row);
      EdgesAre("HAS_STEP", processes[0].id, processes[0].steps, keyOf, row);
      assert processes == [processes[0]] + processes[1..];
      hide Edges;
    }
  }

  lemma EdgesAre(edgeType: string, from: string, to: seq<string>, keyOf: string -> string, row: Row)
    ensures row in Edges(edgeType, from, to, keyOf) <==>
            row.EdgeRow? && row.edgeType == edgeType && row.from == from && exists s :: s in to && row.to == keyOf(s)
  {
    var rows := Edges(edgeType, from, to, keyOf);
    if row.EdgeRow? && row.edgeType == edgeType && row.from == from && exists s :: s in to && row.to == keyOf(s) {
      var s :| s in to && row.to == keyOf(s);
      var k :| 0 <= k < |to| && to[k] == s;
      assert rows[k] == row;
    }
  }

  lemma NodesAre(nodeLabel: string, ids: seq<string>, row: Row)
    ensures row in Nodes(nodeLabel, ids) <==> row.NodeRow? && row.nodeLabel == nodeLabel && row.id in ids
  {
    if row.NodeRow? && row.nodeLabel == nodeLabel && row.id in ids {
      var k :| 0 <= k < |ids| && ids[k] == row.id;
      assert Nodes(nodeLabel, ids)[k] == row;
    }
  }

  lemma VectorsAre(ids: seq<string>, row: Row)
    ensures row in Vectors(ids) <==> row.VectorRow? && row.id in ids
  {
    if row.VectorRow? && row.id in ids {
      var k :| 0 <= k < |ids| && ids[k] == row.id;
      assert Vectors(ids)[k] == row;
    }
  }

  lemma IdsAre(r: Results, id: string)
    ensures id in ClusterIds(r.clusters) <==> exists c :: c in r.clusters && c.id == id
    ensures id in ProcessIds(r.processes) <==> exists p :: p in r.processes && p.id == id
  {
    if c :| c in r.clusters && c.id == id {
      var k :| 0 <= k < |r.clusters| && r.clusters[k] == c;
      assert ClusterIds(r.clusters)[k] == id;
    }
    if p :| p in r.processes && p.id == id {
      var k :| 0 <= k < |r.processes| && r.processes[k] == p;
      assert ProcessIds(r.processes)[k] == id;
    }
  }

  lemma InFront(r: Results, row: Row)
    ensures row in Concat([Vectors(r.vectors), Nodes("Symbol", r.symbols), Nodes("Cluster", ClusterIds(r.clusters)),
                           Nodes("Process", ProcessIds(r.processes)), Nodes("ExternalDependency", r.extNodes)]) <==>
            || row in Vectors(r.vectors) || row in Nodes("Symbol", r.symbols)
            || row in Nodes("Cluster", ClusterIds(r.clusters)) || row in Nodes("Process", ProcessIds(r.processes))
            || row in Nodes("ExternalDependency", r.extNodes)
  {
    InFive(Vectors(r.vectors), Nodes("Symbol", r.symbols), Nodes("Cluster", ClusterIds(r.clusters)),
           Nodes("Process", ProcessIds(r.processes)), Nodes("ExternalDependency", r.extNodes), row);
  }

  lemma InFive(a: seq<Row>, b: seq<Row>, c: seq<Row>, d: seq<Row>, e: seq<Row>, row: Row)
    ensures row in Concat([a, b, c, d, e]) <==> row in a || row in b || row in c || row in d || row in e
  {
    InConcat([a, b], [c, d] + [e], row);
    InConcat([c, d], [e], row);
    InTwo(a, b, row);
    InTwo(c, d, row);
    InGroup(e, row);
    assert [a, b] + ([c, d] + [e]) == [a, b, c, d, e];
  }

  lemma InTwo(a: seq<Row>, b: seq<Row>, row: Row)
    ensures row in Concat([a, b]) <==> row in a || row in b
  {
    InConcat([a], [b], row);
    InGroup(a, row);
    InGroup(b, row);
    assert [a] + [b] == [a, b];
  }

  lemma InMiddle(r: Results, keyOf: string -> string, row: Row)
    ensures row in Concat(EdgeGroups(r.relationships, TypesOf(r.relationships), keyOf)) <==>
            exists rel :: rel in r.relationships && Related(rel, keyOf, row)
  {
    var groups := EdgeGroups(r.relationships, TypesOf(r.relationships), keyOf);
    TypesAreDistinct(r.relationships);
    GroupsHoldEveryEdge(r.relationships, TypesOf(r.relationships), keyOf);
    EdgeRowsAre(r.relationships, keyOf, row);
    assert row in Concat(groups) <==> row in multiset(Concat(groups));
    hide EdgeGroups, TypesOf, Concat, EdgeRows, Related;
  }

  /** The plan holds exactly the rows that the results call for, edges from source to target. */
  lemma PlanHolds(r: Results, keyOf: string -> string, row: Row)
    ensures row in Concat(Plan(r, keyOf)) <==> CalledFor(r, keyOf, row)
  {
    var front := [Vectors(r.vectors), Nodes("Symbol", r.symbols), Nodes("Cluster", ClusterIds(r.clusters)),
                  Nodes("Process", ProcessIds(r.processes)), Nodes("ExternalDependency", r.extNodes)];
    var middle := EdgeGroups(r.relationships, TypesOf(r.relationships), keyOf);
    var back := [ContainsRows(r.clusters, keyOf), StepRows(r.processes, keyOf)];
    assert Plan(r, keyOf) == front + middle + back;
    InConcat(front + middle, back, row);
    InConcat(front, middle, row);
    InFront(r, row);
    InMiddle(r, keyOf, row);
    InTwo(ContainsRows(r.clusters, keyOf), StepRows(r.processes, keyOf), row);
    ContainsRowsAre(r.clusters, keyOf, row);
    StepRowsAre(r.processes, keyOf, row);
    VectorsAre(r.vectors, row);
    NodesAre("Symbol", r.symbols, row);
    NodesAre("Cluster", ClusterIds(r.clusters), row);
    NodesAre("Process", ProcessIds(r.processes), row);
    NodesAre("ExternalDependency", r.extNodes, row);
    if row.NodeRow? {
      IdsAre(r, row.id);
    }
    hide Plan, Concat, Vectors, Nodes, EdgeGroups, ContainsRows, StepRows, ClusterIds, ProcessIds, Related;
  }

  /** Types come in the order first seen: more relationships only add at the end, to the types and to each group. */
  lemma {:induction false} GroupsGrow(rels: seq<Relationship>, more: seq<Relationship>, t: string,
                                      keyOf: string -> string)
    ensures TypesOf(rels) <= TypesOf(rels + more)
    ensures RowsOfType(rels, t, keyOf) <= RowsOfType(rels + more, t, keyOf)
  {
    if more == [] {
      assert rels + more == rels;
    } else {
      assert (rels + more)[..|rels + more| - 1] == rels + more[..|more| - 1];
      GroupsGrow(rels, more[..|more| - 1], t, keyOf);
    }
  }

  function Concat(groups: seq<seq<Row>>): (r: seq<Row>)
    ensures |r| == TotalRows(groups)
  {
    if groups == [] then [] else groups[0] + Concat(groups[1..])
  }

  lemma {:induction false} ConcatPrefix(groups: seq<seq<Row>>, i: nat)
    requires i < |groups|
    ensures Concat(groups[..i + 1]) == Concat(groups[..i]) + groups[i]
    decreases i
  {
    if i == 0 {
      assert groups[..1] == [groups[0]] && groups[..0] == [] && [groups[0]][1..] == [];
    } else {
      ConcatPrefix(groups[1..], i - 1);
      assert groups[..i + 1][1..] == groups[1..][..i] && groups[..i][1..] == groups[1..][..i - 1];
    }
  }

  /** How each group is written: with which budgets, and whether its adapter takes batches. */
  datatype Writing = Writing(options: Chunking.Options<Row>, batched: bool)

  lemma {:induction false} ConcatSplits(groups: seq<seq<Row>>, i: nat)
    requires i <= |groups|
    ensures Concat(groups) == Concat(groups[..i]) + Concat(groups[i..])
    decreases i
  {
    if i == 0 {
      assert groups[..0] == [] && groups[0..] == groups;
    } else {
      ConcatSplits(groups[1..], i - 1);
      assert groups[..i][1..] == groups[1..][..i - 1] && groups[1..][i - 1..] == groups[i..];
    }
  }

  /** A proper prefix of one group, after the groups before it, is a proper prefix of all of them. */
  lemma PrefixOfGroups(before: seq<Row>, groups: seq<seq<Row>>, i: nat, after: seq<Row>, more: nat)
    requires i < |groups|
    requires AdaptiveWrite.WroteSome(before + Concat(groups[..i]), groups[i], after, more)
    ensures AdaptiveWrite.WroteSome(before, Concat(groups), after, |Concat(groups[..i])| + more)
  {
    var done := Concat(groups[..i]);
    var n := |after| - |before + done|;
    ConcatPrefix(groups, i);
    ConcatSplits(groups, i + 1);
    hide Concat;
    assert Concat(groups) == done + groups[i] + Concat(groups[i + 1..]);
    PrefixInTheMiddle(before, done, groups[i], Concat(groups[i + 1..]), n);
  }

  lemma PrefixInTheMiddle(before: seq<Row>, done: seq<Row>, group: seq<Row>, rest: seq<Row>, n: nat)
    requires n <= |group|
    ensures before + (done + group + rest)[..|done| + n] == (before + done) + group[..n]
  {
    assert (done + group + rest)[..|done| + n] == done + group[..n];
  }

  method WriteGroups(server: AdaptiveWrite.Server<Row>, groups: seq<seq<Row>>, writing: seq<Writing>)
    returns (failure: Option<AdaptiveWrite.Failure>, reported: nat)
    requires |writing| == |groups|
    modifies server
    ensures failure.None? ==> server.written == old(server.written) + Concat(groups) && reported == TotalRows(groups)
    ensures failure.Some? ==> AdaptiveWrite.WroteSome(old(server.written), Concat(groups), server.written, reported)
  {
    failure, reported := None, 0;
    var i := 0;
    while i < |groups|
      invariant 0 <= i <= |groups| && failure.None?
      invariant server.written == old(server.written) + Concat(groups[..i]) && reported == |Concat(groups[..i])|
    {
      ConcatPrefix(groups, i);
      var report := AdaptiveWrite.WriteGroup(server, groups[i], writing[i].options, writing[i].batched);
      if report.failure.Some? {
        PrefixOfGroups(old(server.written), groups, i, server.written, report.rows);
        return report.failure, reported + report.rows;
      }
      reported := reported + report.rows;
      i := i + 1;
    }
    assert groups[..i] == groups;
  }

  /** A whole persist phase: on success the rows reported are the rows announced, and each was written once, in
      plan order; on failure a proper prefix of the plan was written, and no more reported. */
  method PersistAll(server: AdaptiveWrite.Server<Row>, r: Results, keyOf: string -> string, writing: seq<Writing>)
    returns (failure: Option<AdaptiveWrite.Failure>, reported: nat)
    requires |writing| == |Plan(r, keyOf)|
    modifies server
    ensures failure.None? ==>
              reported == CountPersistRows(r) && server.written == old(server.written) + Concat(Plan(r, keyOf))
    ensures failure.Some? ==>
              AdaptiveWrite.WroteSome(old(server.written), Concat(Plan(r, keyOf)), server.written, reported)
  {
    var types, edgesByType := GroupEdges(r.relationships, keyOf);
    var edges := seq(|types|, k requires 0 <= k < |types| => edgesByType[types[k]]);
    assert edges == EdgeGroups(r.relationships, types, keyOf);
    var groups := [Vectors(r.vectors), Nodes("Symbol", r.symbols), Nodes("Cluster", ClusterIds(r.clusters)),
                   Nodes("Process", ProcessIds(r.processes)), Nodes("ExternalDependency", r.extNodes)]
                  + edges + [ContainsRows(r.clusters, keyOf), StepRows(r.processes, keyOf)];
    PlanMatchesCount(r, keyOf);
    failure, reported := WriteGroups(server, groups, writing);
  }
}
