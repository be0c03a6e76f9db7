/**
 Complexity metrics of a definition (src/infrastructure/parsing/complexity.ts): an explicit-stack walk of
 a syntax tree, proved equal to the recursive definition of the three numbers.
 */
module Complexity {

  /** A syntax node: its type, the type of its `operator` child ("" if none) and its named children. */
  datatype Node = Node(kind: string, operator: string, children: seq<Node>)

  datatype LangSpec = LangSpec(
    decision: set<string>,
    loop: set<string>,
    binaryExpr: set<string>,
    shortCircuitOps: set<string>,
    booleanOp: set<string>
  )

  datatype Metrics = Metrics(cyclomatic: nat, cognitive: nat, maxLoopDepth: nat)

  // ---------------------------------------------------------------- the language specifications

  const TS_JS := LangSpec(
    {"if_statement", "for_statement", "for_in_statement", "while_statement", "do_statement", "switch_case",
     "catch_clause", "ternary_expression"},
    {"for_statement", "for_in_statement", "while_statement", "do_statement"},
    {"binary_expression"}, {"&&", "||", "??"}, {})

  const PYTHON := LangSpec(
    {"if_statement", "elif_clause", "for_statement", "while_statement", "except_clause", "conditional_expression"},
    {"for_statement", "while_statement"},
    {}, {}, {"boolean_operator"})

  const JAVA := LangSpec(
    {"if_statement", "for_statement", "enhanced_for_statement", "while_statement", "do_statement", "switch_label",
     "catch_clause", "ternary_expression"},
    {"for_statement", "enhanced_for_statement", "while_statement", "do_statement"},
    {"binary_expression"}, {"&&", "||"}, {})

  const GO := LangSpec(
    {"if_statement", "for_statement", "expression_case", "type_case", "communication_case"},
    {"for_statement"},
    {"binary_expression"}, {"&&", "||"}, {})

  const FALLBACK := LangSpec(
    {"if_statement", "for_statement", "while_statement", "do_statement", "catch_clause", "switch_case",
     "switch_label", "case_statement", "when_clause", "rescue", "conditional_expression", "ternary_expression",
     "if_expression", "for_expression", "while_expression", "loop_expression", "match_arm"},
    {"for_statement", "while_statement", "do_statement", "for_expression", "while_expression", "loop_expression"},
    {}, {}, {})

  function SpecFor(language: string): (spec: LangSpec)
    ensures spec.loop <= spec.decision
  {
    if language == "typescript" || language == "javascript" then TS_JS
    else if language == "python" then PYTHON
    else if language == "java" then JAVA
    else if language == "go" then GO
    else FALLBACK
  }

  predicate IsDecision(spec: LangSpec, n: Node) {
    n.kind in spec.decision
  }

  /** Whether the node adds a path: a branch point, a boolean operator, or a short-circuit binary expression. */
  predicate Counts(spec: LangSpec, n: Node) {
    IsDecision(spec, n) || n.kind in spec.booleanOp || (n.kind in spec.binaryExpr && n.operator in spec.shortCircuitOps)
  }

  // ---------------------------------------------------------------- the recursive definition

  /** How many nodes of the tree count. */
  function Decisions(spec: LangSpec, n: Node): nat {
    (if Counts(spec, n) then 1 else 0) + DecisionsOf(spec, n.children)
  }

  function DecisionsOf(spec: LangSpec, ns: seq<Node>): nat {
    if ns == [] then 0 else Decisions(spec, ns[0]) + DecisionsOf(spec, ns[1..])
  }

  /** The nesting level of the children of a node. */
  function Inner(spec: LangSpec, n: Node, nesting: nat): nat {
    if IsDecision(spec, n) then nesting + 1 else nesting
  }

  /** The nesting-weighted cost of the tree: a decision costs one more than the decisions around it, an operator one. */
  function Cognitive(spec: LangSpec, n: Node, nesting: nat): nat {
    (if !Counts(spec, n) then 0 else if IsDecision(spec, n) then 1 + nesting else 1)
    + CognitiveOf(spec, n.children, Inner(spec, n, nesting))
  }

  function CognitiveOf(spec: LangSpec, ns: seq<Node>, nesting: nat): nat {
    if ns == [] then 0 else Cognitive(spec, ns[0], nesting) + CognitiveOf(spec, ns[1..], nesting)
  }

  predicate IsLoop(spec: LangSpec, n: Node) {
    Counts(spec, n) && n.kind in spec.loop
  }

  function Max(a: nat, b: nat): nat { if a < b then b else a }

  /** The longest chain of loops, each inside the one before. */
  function LoopChain(spec: LangSpec, n: Node): nat {
    (if IsLoop(spec, n) then 1 else 0) + LoopChainOf(spec, n.children)
  }

  function LoopChainOf(spec: LangSpec, ns: seq<Node>): nat {
    if ns == [] then 0 else Max(LoopChain(spec, ns[0]), LoopChainOf(spec, ns[1..]))
  }

  /** The metrics of a definition: the definition node itself does not count. */
  function MetricsOf(spec: LangSpec, def: Node): Metrics {
    Metrics(1 + DecisionsOf(spec, def.children), CognitiveOf(spec, def.children, 0), LoopChainOf(spec, def.children))
  }

  // ---------------------------------------------------------------- node by node

  /** A node below the definition, with the nodes between the two, outermost first. */
  datatype Below = Below(node: Node, around: seq<Node>)

  function Descendants(ns: seq<Node>, around: seq<Node>): seq<Below> {
    if ns == [] then []
    else [Below(ns[0], around)] + Descendants(ns[0].children, around + [ns[0]]) + Descendants(ns[1..], around)
  }

  function CountKinds(nodes: seq<Node>, kinds: set<string>): nat {
    if nodes == [] then 0
    else CountKinds(nodes[..|nodes| - 1], kinds) + (if nodes[|nodes| - 1].kind in kinds then 1 else 0)
  }

  /** The paths a node adds: one for a branch, for a boolean operator, and for a binary expression that may stop
      after its left side. */
  function PathsAt(spec: LangSpec, b: Below): nat {
    if b.node.kind in spec.decision || b.node.kind in spec.booleanOp then 1
    else if b.node.kind in spec.binaryExpr && b.node.operator in spec.shortCircuitOps then 1
    else 0
  }

  /** Its cost: a branch costs one and one more for every branch around it, an operator one. */
  function CostAt(spec: LangSpec, b: Below): nat {
    if b.node.kind in spec.decision then 1 + CountKinds(b.around, spec.decision) else PathsAt(spec, b)
  }

  /** How many loops deep the node is, itself included, if it is a loop. */
  function LoopsAt(spec: LangSpec, b: Below): nat {
    if b.node.kind in spec.loop then CountKinds(b.around, spec.loop) + 1 else 0
  }

  function SumPaths(spec: LangSpec, bs: seq<Below>): nat {
    if bs == [] then 0 else PathsAt(spec, bs[0]) + SumPaths(spec, bs[1..])
  }

  function SumCosts(spec: LangSpec, bs: seq<Below>): nat {
    if bs == [] then 0 else CostAt(spec, bs[0]) + SumCosts(spec, bs[1..])
  }

  function Deepest(spec: LangSpec, bs: seq<Below>): nat {
    if bs == [] then 0 else Max(LoopsAt(spec, bs[0]), Deepest(spec, bs[1..]))
  }

  lemma {:induction false} SumsOfConcat(spec: LangSpec, a: seq<Below>, b: seq<Below>)
    ensures SumPaths(spec, a + b) == SumPaths(spec, a) + SumPaths(spec, b)
    ensures SumCosts(spec, a + b) == SumCosts(spec, a) + SumCosts(spec, b)
    ensures Deepest(spec, a + b) == Max(Deepest(spec, a), Deepest(spec, b))
  {
    if a == [] {
      assert a + b == b;
    } else {
      assert (a + b)[1..] == a[1..] + b;
      SumsOfConcat(spec, a[1..], b);
    }
  }

  lemma CountKindsSnoc(nodes: seq<Node>, n: Node, kinds: set<string>)
    ensures CountKinds(nodes + [n], kinds) == CountKinds(nodes, kinds) + (if n.kind in kinds then 1 else 0)
  {
    assert (nodes + [n])[..|nodes|] == nodes;
  }

  /** The recursive numbers of a forest, read off its nodes. */
  lemma {:induction false} ForestIsItsNodes(spec: LangSpec, ns: seq<Node>, around: seq<Node>)
    requires spec.loop <= spec.decision
    ensures var bs := Descendants(ns, around);
            && SumPaths(spec, bs) == DecisionsOf(spec, ns)
            && SumCosts(spec, bs) == CognitiveOf(spec, ns, CountKinds(around, spec.decision))
            && Deepest(spec, bs) ==
               if LoopChainOf(spec, ns) == 0 then 0 else CountKinds(around, spec.loop) + LoopChainOf(spec, ns)
    decreases ns
  {
    hide *;
    if ns == [] {
      NoNodes(spec, around);
    } else {
      var n := ns[0];
      var inner, rest := Descendants(n.children, around + [n]), Descendants(ns[1..], around);
      ForestUnfolds(spec, ns, around, CountKinds(around, spec.decision));
      NodeNumbers(spec, n, around);
      ForestIsItsNodes(spec, n.children, around + [n]);
      ForestIsItsNodes(spec, ns[1..], around);
      SumsOfConcat(spec, [Below(n, around)] + inner, rest);
      SumsOfConcat(spec, [Below(n, around)], inner);
      OneNode(spec, Below(n, around));
      Depths(CountKinds(around, spec.loop), n.kind in spec.loop, LoopChainOf(spec, n.children), LoopChainOf(spec, ns[1..]));
    }
  }

  lemma NoNodes(spec: LangSpec, around: seq<Node>)
    ensures Descendants([], around) == [] && DecisionsOf(spec, []) == 0 && LoopChainOf(spec, []) == 0
    ensures CognitiveOf(spec, [], CountKinds(around, spec.decision)) == 0
    ensures SumPaths(spec, []) == 0 && SumCosts(spec, []) == 0 && Deepest(spec, []) == 0
  {
  }

  lemma ForestUnfolds(spec: LangSpec, ns: seq<Node>, around: seq<Node>, k: nat)
    requires ns != []
    ensures Descendants(ns, around) ==
            [Below(ns[0], around)] + Descendants(ns[0].children, around + [ns[0]]) + Descendants(ns[1..], around)
    ensures DecisionsOf(spec, ns) == Decisions(spec, ns[0]) + DecisionsOf(spec, ns[1..])
    ensures CognitiveOf(spec, ns, k) == Cognitive(spec, ns[0], k) + CognitiveOf(spec, ns[1..], k)
    ensures LoopChainOf(spec, ns) == Max(LoopChain(spec, ns[0]), LoopChainOf(spec, ns[1..]))
  {
  }

  /** A node's own share of the three numbers. */
  lemma NodeNumbers(spec: LangSpec, n: Node, around: seq<Node>)
    requires spec.loop <= spec.decision
    ensures var b, nesting, loops := Below(n, around), CountKinds(around, spec.decision), CountKinds(around, spec.loop);
            && Decisions(spec, n) == PathsAt(spec, b) + DecisionsOf(spec, n.children)
            && Cognitive(spec, n, nesting) ==
               CostAt(spec, b) + CognitiveOf(spec, n.children, CountKinds(around + [n], spec.decision))
            && LoopChain(spec, n) == (if n.kind in spec.loop then 1 else 0) + LoopChainOf(spec, n.children)
            && LoopsAt(spec, b) == (if n.kind in spec.loop then loops + 1 else 0)
            && CountKinds(around + [n], spec.loop) == loops + (if n.kind in spec.loop then 1 else 0)
  {
    CountKindsSnoc(around, n, spec.decision);
    CountKindsSnoc(around, n, spec.loop);
    hide CountKinds, DecisionsOf, CognitiveOf, LoopChainOf;
  }

  /** How the depths of a node, of what is below it and of what is beside it add up. */
  lemma Depths(loops: nat, isLoop: bool, below: nat, beside: nat)
    ensures var own := if isLoop then 1 else 0;
            var chain := Max(own + below, beside);
            Max(Max(if isLoop then loops + 1 else 0, if below == 0 then 0 else loops + own + below),
                if beside == 0 then 0 else loops + beside)
            == if chain == 0 then 0 else loops + chain
  {
  }

  lemma OneNode(spec: LangSpec, b: Below)
    ensures SumPaths(spec, [b]) == PathsAt(spec, b) && SumCosts(spec, [b]) == CostAt(spec, b)
    ensures Deepest(spec, [b]) == LoopsAt(spec, b)
  {
    assert [b][1..] == [];
  }

  /** The three numbers, node by node: one and a path for each point of decision below the definition; what each of
      them costs by the branches around it; and the deepest loop by the loops around it. */
  lemma MetricsNodeByNode(language: string, def: Node)
    ensures var spec, below := SpecFor(language), Descendants(def.children, []);
            MetricsOf(spec, def) == Metrics(1 + SumPaths(spec, below), SumCosts(spec, below), Deepest(spec, below))
  {
    ForestIsItsNodes(SpecFor(language), def.children, []);
  }

  /** The operators that add a path, language by language. */
  lemma OperatorsThatCount(language: string, operator: string, around: seq<Node>)
    ensures var counts := PathsAt(SpecFor(language), Below(Node("binary_expression", operator, []), around)) == 1;
            counts <==>
            match language
            case "typescript" => operator in {"&&", "||", "??"}
            case "javascript" => operator in {"&&", "||", "??"}
            case "java" => operator in {"&&", "||"}
            case "go" => operator in {"&&", "||"}
            case _ => false
    ensures PathsAt(SpecFor(language), Below(Node("boolean_operator", operator, []), around)) == 1 <==>
            language == "python"
  {
  }

  // ---------------------------------------------------------------- bounds

  function Triangle(d: nat): nat {
    d * (d + 1) / 2
  }

  lemma {:induction false} TriangleSum(c: nat, d: nat)
    ensures Triangle(c) + Triangle(d) <= Triangle(c + d)
    decreases d
  {
    if d > 0 {
      TriangleStep(d - 1);
      TriangleStep(c + d - 1);
      hide Triangle;
      TriangleSum(c, d - 1);
    }
  }

  lemma TriangleStep(d: nat)
    ensures Triangle(d + 1) == Triangle(d) + d + 1
  {
    assert (d + 1) * (d + 2) == d * (d + 1) + 2 * (d + 1);
  }

  /** What the three numbers of a tree or a forest at one nesting level can be. */
  predicate Bounded(d: nat, cognitive: nat, chain: nat, nesting: nat) {
    d <= cognitive <= d * nesting + Triangle(d) && chain <= d
  }

  lemma BoundedSum(c: nat, x: nat, l: nat, d: nat, y: nat, m: nat, nesting: nat)
    requires Bounded(c, x, l, nesting) && Bounded(d, y, m, nesting)
    ensures Bounded(c + d, x + y, Max(l, m), nesting)
  {
    TriangleSum(c, d);
    assert (c + d) * nesting == c * nesting + d * nesting;
  }

  lemma BoundedUnderDecision(d: nat, x: nat, l: nat, nesting: nat, isLoop: bool)
    requires Bounded(d, x, l, nesting + 1)
    ensures Bounded(d + 1, 1 + nesting + x, (if isLoop then 1 else 0) + l, nesting)
  {
    assert d * (nesting + 1) == d * nesting + d;
    assert (d + 1) * nesting == d * nesting + nesting;
  }

  lemma {:induction false} TreeBounds(spec: LangSpec, n: Node, nesting: nat)
    requires spec.loop <= spec.decision
    ensures Bounded(Decisions(spec, n), Cognitive(spec, n, nesting), LoopChain(spec, n), nesting)
  {
    var d, l := DecisionsOf(spec, n.children), LoopChainOf(spec, n.children);
    ForestBounds(spec, n.children, Inner(spec, n, nesting));
    if IsDecision(spec, n) {
      BoundedUnderDecision(d, CognitiveOf(spec, n.children, nesting + 1), l, nesting, IsLoop(spec, n));
    } else if Counts(spec, n) {
    }
  }

  lemma {:induction false} ForestBounds(spec: LangSpec, ns: seq<Node>, nesting: nat)
    requires spec.loop <= spec.decision
    ensures Bounded(DecisionsOf(spec, ns), CognitiveOf(spec, ns, nesting), LoopChainOf(spec, ns), nesting)
  {
    if ns != [] {
      TreeBounds(spec, ns[0], nesting);
      ForestBounds(spec, ns[1..], nesting);
      BoundedSum(Decisions(spec, ns[0]), Cognitive(spec, ns[0], nesting), LoopChain(spec, ns[0]),
                 DecisionsOf(spec, ns[1..]), CognitiveOf(spec, ns[1..], nesting), LoopChainOf(spec, ns[1..]), nesting);
    }
  }

  /** With d decisions, the cognitive number lies between d and d(d+1)/2, and no loop chain is longer than d. */
  lemma MetricsAreBounded(language: string, def: Node)
    ensures var m := MetricsOf(SpecFor(language), def);
            var d := m.cyclomatic - 1;
            d <= m.cognitive <= d * (d + 1) / 2 && m.maxLoopDepth <= d
  {
    ForestBounds(SpecFor(language), def.children, 0);
  }

  /** Languages without a full specification still get nesting costs and loop depths, whatever the file's header
      says. */
  lemma FallbackIsNotCyclomaticOnly()
    ensures var inner := Node("while_expression", "", []);
            var def := Node("function_item", "", [Node("loop_expression", "", [inner])]);
            MetricsOf(SpecFor("rust"), def) == Metrics(3, 3, 2)
  {
    var inner := Node("while_expression", "", []);
    var outer := Node("loop_expression", "", [inner]);
    assert DecisionsOf(FALLBACK, [inner]) == 1 && CognitiveOf(FALLBACK, [inner], 1) == 2
           && LoopChainOf(FALLBACK, [inner]) == 1;
    assert Decisions(FALLBACK, outer) == 2 && Cognitive(FALLBACK, outer, 0) == 3 && LoopChain(FALLBACK, outer) == 2;
    assert DecisionsOf(FALLBACK, [outer]) == 2 && CognitiveOf(FALLBACK, [outer], 0) == 3
           && LoopChainOf(FALLBACK, [outer]) == 2;
  }

  // ---------------------------------------------------------------- the explicit-stack walk

  /** A stack entry: a subtree with the nesting and loop depth around it; the definition node is marked. */
  datatype Frame = Frame(node: Node, nesting: nat, loopDepth: nat, isDef: bool)

  /** What a frame still adds to the three numbers; the definition node itself adds nothing. */
  function FrameDecisions(spec: LangSpec, f: Frame): nat {
    if f.isDef then DecisionsOf(spec, f.node.children) else Decisions(spec, f.node)
  }

  function FrameCognitive(spec: LangSpec, f: Frame): nat {
    if f.isDef then CognitiveOf(spec, f.node.children, f.nesting) else Cognitive(spec, f.node, f.nesting)
  }

  /** The loop depth that the frame reaches, or 0 if no loop is left in it. */
  function FrameDepth(spec: LangSpec, f: Frame): nat {
    var chain := if f.isDef then LoopChainOf(spec, f.node.children) else LoopChain(spec, f.node);
    if chain == 0 then 0 else f.loopDepth + chain
  }

  function StackDecisions(spec: LangSpec, stack: seq<Frame>): nat {
    if stack == [] then 0 else StackDecisions(spec, stack[..|stack| - 1]) + FrameDecisions(spec, stack[|stack| - 1])
  }

  function StackCognitive(spec: LangSpec, stack: seq<Frame>): nat {
    if stack == [] then 0 else StackCognitive(spec, stack[..|stack| - 1]) + FrameCognitive(spec, stack[|stack| - 1])
  }

  function StackDepth(spec: LangSpec, stack: seq<Frame>): nat {
    if stack == [] then 0 else Max(StackDepth(spec, stack[..|stack| - 1]), FrameDepth(spec, stack[|stack| - 1]))
  }

  function Size(n: Node): nat {
    1 + SizeOf(n.children)
  }

  function SizeOf(ns: seq<Node>): nat {
    if ns == [] then 0 else Size(ns[0]) + SizeOf(ns[1..])
  }

  function StackSize(stack: seq<Frame>): nat {
    if stack == [] then 0 else StackSize(stack[..|stack| - 1]) + Size(stack[|stack| - 1].node)
  }

  /** The numbers still to be added by a stack, given what has been counted so far. */
  function Remaining(spec: LangSpec, stack: seq<Frame>, sofar: Metrics): Metrics {
    Metrics(sofar.cyclomatic + StackDecisions(spec, stack), sofar.cognitive + StackCognitive(spec, stack),
            Max(sofar.maxLoopDepth, StackDepth(spec, stack)))
  }

  lemma PushFrame(spec: LangSpec, stack: seq<Frame>, f: Frame)
    ensures StackDecisions(spec, stack + [f]) == StackDecisions(spec, stack) + FrameDecisions(spec, f)
    ensures StackCognitive(spec, stack + [f]) == StackCognitive(spec, stack) + FrameCognitive(spec, f)
    ensures StackDepth(spec, stack + [f]) == Max(StackDepth(spec, stack), FrameDepth(spec, f))
    ensures StackSize(stack + [f]) == StackSize(stack) + Size(f.node)
  {
    assert (stack + [f])[..|stack|] == stack;
  }

  /** The loop depth a forest reaches from a given depth, or 0 if it has no loop. */
  function DepthOf(spec: LangSpec, ns: seq<Node>, loopDepth: nat): nat {
    if LoopChainOf(spec, ns) == 0 then 0 else loopDepth + LoopChainOf(spec, ns)
  }

  /** Pushing the children from the last to the first leaves what the children add on the stack. */
  method PushChildren(spec: LangSpec, stack: seq<Frame>, node: Node, nesting: nat, loopDepth: nat)
    returns (pushed: seq<Frame>)
    ensures StackDecisions(spec, pushed) == StackDecisions(spec, stack) + DecisionsOf(spec, node.children)
    ensures StackCognitive(spec, pushed) == StackCognitive(spec, stack) + CognitiveOf(spec, node.children, nesting)
    ensures StackDepth(spec, pushed) == Max(StackDepth(spec, stack), DepthOf(spec, node.children, loopDepth))
    ensures StackSize(pushed) == StackSize(stack) + SizeOf(node.children)
  {
    pushed := stack;
    var i := |node.children|;
    while i > 0
      invariant 0 <= i <= |node.children|
      invariant StackDecisions(spec, pushed) == StackDecisions(spec, stack) + DecisionsOf(spec, node.children[i..])
      invariant StackCognitive(spec, pushed) ==
                StackCognitive(spec, stack) + CognitiveOf(spec, node.children[i..], nesting)
      invariant StackDepth(spec, pushed) == Max(StackDepth(spec, stack), DepthOf(spec, node.children[i..], loopDepth))
      invariant StackSize(pushed) == StackSize(stack) + SizeOf(node.children[i..])
    {
      i := i - 1;
      var f := Frame(node.children[i], nesting, loopDepth, false);
      PushFrame(spec, pushed, f);
      pushed := pushed + [f];
    }
    assert node.children[0..] == node.children;
  }

  /** A frame adds what its own node counts for and what its children add one level further in. */
  lemma FrameUnfolds(spec: LangSpec, f: Frame)
    ensures var counts := !f.isDef && Counts(spec, f.node);
            var decides := counts && IsDecision(spec, f.node);
            var loops := counts && f.node.kind in spec.loop;
            var own := if !counts then 0 else if decides then 1 + f.nesting else 1;
            && FrameDecisions(spec, f) == (if counts then 1 else 0) + DecisionsOf(spec, f.node.children)
            && FrameCognitive(spec, f) ==
               own + CognitiveOf(spec, f.node.children, if decides then f.nesting + 1 else f.nesting)
            && FrameDepth(spec, f) ==
               (if loops then Max(f.loopDepth + 1, DepthOf(spec, f.node.children, f.loopDepth + 1))
                else DepthOf(spec, f.node.children, f.loopDepth))
            && Size(f.node) > SizeOf(f.node.children)
  {
  }

  method ComputeComplexity(def: Node, language: string) returns (m: Metrics)
    ensures m == MetricsOf(SpecFor(language), def)
  {
    var spec := SpecFor(language);
    var cyclomatic: nat, cognitive: nat, maxLoopDepth: nat := 1, 0, 0;
    var stack := [Frame(def, 0, 0, true)];
    PushFrame(spec, [], stack[0]);
    assert stack == [] + [stack[0]];
    while |stack| > 0
      invariant Remaining(spec, stack, Metrics(cyclomatic, cognitive, maxLoopDepth)) == MetricsOf(spec, def)
      decreases StackSize(stack)
    {
      var top := stack[|stack| - 1];
      var rest := stack[..|stack| - 1];
      assert stack == rest + [top];
      PushFrame(spec, rest, top);
      FrameUnfolds(spec, top);
      hide StackDecisions, StackCognitive, StackDepth, StackSize, MetricsOf, FrameDecisions, FrameCognitive, FrameDepth;
      hide Size, SizeOf, DecisionsOf, CognitiveOf, DepthOf, Counts, IsDecision;
      var node := top.node;
      var childNesting, childLoopDepth := top.nesting, top.loopDepth;
      if !top.isDef && Counts(spec, node) {
        cyclomatic := cyclomatic + 1;
        cognitive := cognitive + (if IsDecision(spec, node) then 1 + top.nesting else 1);
        if IsDecision(spec, node) {
          childNesting := top.nesting + 1;
        }
        if node.kind in spec.loop {
          childLoopDepth := top.loopDepth + 1;
          if childLoopDepth > maxLoopDepth {
            maxLoopDepth := childLoopDepth;
          }
        }
      }
      stack := PushChildren(spec, rest, node, childNesting, childLoopDepth);
    }
    m := Metrics(cyclomatic, cognitive, maxLoopDepth);
  }
}
