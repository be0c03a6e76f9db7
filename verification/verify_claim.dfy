/**
 Tracing a path between two resolved symbols and judging reachability claims by it
 (src/application/querying/trace-path.ts, verify-reach.ts and verify-claim-types.ts).
 */
module VerifyClaim {
  import opened TracePath

  const MAX_TRAVERSAL_DEPTH: nat := 20

  /** A requested depth: absent, not a finite number, or a number. */
  datatype Depth = Unset | NotFinite | Finite(value: real)

  function ClampTraceDepth(maxDepth: Depth): (d: nat)
    ensures 1 <= d <= MAX_TRAVERSAL_DEPTH
    ensures !maxDepth.Finite? || maxDepth.value < 1.0 || maxDepth.value >= 20.0 ==> d == MAX_TRAVERSAL_DEPTH
    ensures maxDepth.Finite? && 1.0 <= maxDepth.value < 21.0 ==> d as real <= maxDepth.value < d as real + 1.0
  {
    if !maxDepth.Finite? || maxDepth.value < 1.0 then MAX_TRAVERSAL_DEPTH
    else if maxDepth.value.Floor < MAX_TRAVERSAL_DEPTH then maxDepth.value.Floor
    else MAX_TRAVERSAL_DEPTH
  }

  datatype Resolution = Exact(id: Id) | Fuzzy(id: Id) | NotFound

  datatype TraceResult = TraceResult(from: Resolution, to: Resolution, found: bool, hops: seq<Hop>, length: nat)

  /** What a trace must have found for a pair of resolved symbols. */
  ghost predicate TraceCorrect(g: Graph, r: TraceResult, maxEdges: nat) {
    if r.from.NotFound? || r.to.NotFound? then !r.found && r.hops == [] && r.length == 0
    else if r.found then
      && IsPath(g, r.hops, r.from.id, r.to.id) && r.length == |r.hops| - 1 <= maxEdges
      && (forall w :: IsWalk(g, w, r.from.id, r.to.id) ==> |w| - 1 >= r.length)
    else
      && r.hops == [] && r.length == 0
      && (forall w :: IsWalk(g, w, r.from.id, r.to.id) ==> |w| - 1 > maxEdges)
  }

  method ExecuteTracePath(g: Graph, from: Resolution, to: Resolution, maxDepth: Depth) returns (r: TraceResult)
    ensures r.from == from && r.to == to && TraceCorrect(g, r, ClampTraceDepth(maxDepth))
  {
    if from.NotFound? || to.NotFound? {
      return TraceResult(from, to, false, [], 0);
    }
    var path := BfsShortestPath(g, from.id, to.id, ClampTraceDepth(maxDepth));
    if path.None? {
      return TraceResult(from, to, false, [], 0);
    }
    return TraceResult(from, to, true, path.value, |path.value| - 1);
  }

  // ---------------------------------------------------------------- verdicts

  datatype Polarity = Reachable | Independent
  datatype Verdict = Confirmed | Refuted | Uncertain
  datatype Basis = Presence | Absence

  /** The structural assessment, with the hop chain it rests on. */
  datatype Assessment = Assessment(verdict: Verdict, basis: Basis, dynamicReachable: bool, evidence: seq<Hop>)

  datatype ClaimVerdict = ClaimVerdict(verdict: Verdict, confidence: real, evidence: seq<Hop>)

  function VerifyReachability(result: TraceResult, polarity: Polarity): Assessment {
    if result.from.NotFound? || result.to.NotFound? then Assessment(Uncertain, Absence, false, [])
    else match polarity
      case Reachable =>
        if result.found then Assessment(Confirmed, Presence, false, result.hops)
        else Assessment(Refuted, Absence, false, [])
      case Independent =>
        if result.found then Assessment(Refuted, Presence, false, result.hops)
        else Assessment(Uncertain, Absence, false, [])
  }

  function Clamp01(n: real): real {
    if n < 0.0 then 0.0 else if n > 1.0 then 1.0 else n
  }

  function GradeVerdict(a: Assessment): ClaimVerdict {
    var unprovable := a.basis == Absence && a.dynamicReachable;
    var verdict := if unprovable then Uncertain else a.verdict;
    var confidence := if verdict == Uncertain then 0.5 else if a.basis == Presence then 0.95 else 0.8;
    ClaimVerdict(verdict, Clamp01(confidence), a.evidence)
  }

  /** Grading never makes a verdict out of uncertainty, never keeps one that dynamic use could flip, and trusts
      presence most. */
  lemma GradingIsHonest(a: Assessment)
    ensures var v := GradeVerdict(a);
            && (v.verdict == a.verdict || v.verdict == Uncertain)
            && (a.basis == Absence && a.dynamicReachable ==> v.verdict == Uncertain)
            && (v.verdict == Uncertain <==> v.confidence == 0.5)
            && (v.confidence == 0.95 <==> v.verdict != Uncertain && a.basis == Presence)
            && (v.confidence == 0.8 <==> v.verdict != Uncertain && a.basis == Absence)
  {
  }

  /** There is a walk from s to t of at most n edges. */
  ghost predicate Reaches(g: Graph, s: Id, t: Id, n: nat) {
    exists w :: IsWalk(g, w, s, t) && |w| - 1 <= n
  }

  /**
   A trace decides reachability within the search depth, so a graded reachability claim about two
   resolved symbols is confirmed exactly when such a walk exists and refuted otherwise; an independence
   claim is refuted exactly when a walk exists and is never confirmed.
   */
  lemma {:induction false} VerdictsFollowReachability(g: Graph, r: TraceResult, polarity: Polarity)
    requires TraceCorrect(g, r, MAX_TRAVERSAL_DEPTH)
    ensures var v := GradeVerdict(VerifyReachability(r, polarity)).verdict;
            if r.from.NotFound? || r.to.NotFound? then v == Uncertain
            else
              var reaches := Reaches(g, r.from.id, r.to.id, MAX_TRAVERSAL_DEPTH);
              match polarity
              case Reachable => (v == Confirmed <==> reaches) && (v == Refuted <==> !reaches)
              case Independent => v != Confirmed && (v == Refuted <==> reaches)
  {
    if !r.from.NotFound? && !r.to.NotFound? && r.found {
      var w := seq(|r.hops|, k requires 0 <= k < |r.hops| => r.hops[k].id);
      assert |w| - 1 <= MAX_TRAVERSAL_DEPTH;
    }
  }

  /** A reachability claim from resolution to graded verdict. */
  method VerifyClaim(g: Graph, from: Resolution, to: Resolution, polarity: Polarity) returns (v: ClaimVerdict)
    ensures from.NotFound? || to.NotFound? ==> v == ClaimVerdict(Uncertain, 0.5, [])
    ensures !from.NotFound? && !to.NotFound? ==>
              var reaches := Reaches(g, from.id, to.id, MAX_TRAVERSAL_DEPTH);
              && (polarity == Reachable ==> v.verdict == if reaches then Confirmed else Refuted)
              && (polarity == Independent ==> v.verdict == if reaches then Refuted else Uncertain)
              && v.confidence == (if reaches then 0.95 else if polarity == Reachable then 0.8 else 0.5)
              && (reaches ==>
                    && IsPath(g, v.evidence, from.id, to.id)
                    && forall w :: IsWalk(g, w, from.id, to.id) ==> |w| >= |v.evidence|)
              && (!reaches ==> v.evidence == [])
  {
    var r := ExecuteTracePath(g, from, to, Unset);
    VerdictsFollowReachability(g, r, polarity);
    v := GradeVerdict(VerifyReachability(r, polarity));
  }
}
