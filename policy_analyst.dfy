/** The Policy Analyst: a zoning-flexibility score, a proposal-momentum score, approval-friction
    factors and zoning constraints, computed from the zoning and proposal facts of a region. */
module PolicyAnalyst {
  import opened Wrappers
  import opened Text
  import opened Ints
  import opened Facts
  import opened AgentOutputs

  // Zoning flexibility

  /** `set(f.value for f in zoning_facts if f.value)`, compared as Python compares set members. */
  function DistinctZoningValues(zoningFacts: seq<ExtractedFact>): (r: set<HashKey>)
    ensures |r| <= |zoningFacts|
    ensures forall k :: k in r ==> k !in {NoneKey, StrKey(""), NumKey(0.0)}
    decreases |zoningFacts|
  {
    if |zoningFacts| == 0 then {}
    else
      var f := zoningFacts[|zoningFacts| - 1];
      DistinctZoningValues(zoningFacts[..|zoningFacts| - 1]) + (if Truthy(f.value) then {KeyOf(f.value)} else {})
  }

  function ZoningScore(zoningFacts: seq<ExtractedFact>): (r: Option<int>)
    ensures ScoreInRange(r)
  {
    if |zoningFacts| == 0 then None
    else
      var unique := |DistinctZoningValues(zoningFacts)|;
      if unique > 0 then Some(Min(unique * 15, 100)) else None
  }

  // Proposal momentum

  const ProposalStatusKey: string := "proposal_status"

  /** `f.value and word in str(f.value).lower()`. The text of a number or a boolean never holds one
      of the status words, so only string values can match. */
  predicate Mentions(v: Value, word: string) {
    Truthy(v) && v.Str? && Contains(Lower(v.s), word)
  }

  /** The number of `proposal_status` facts whose value mentions `word`. */
  function StatusCount(proposalFacts: seq<ExtractedFact>, word: string): (n: nat)
    ensures n <= |proposalFacts|
    decreases |proposalFacts|
  {
    if |proposalFacts| == 0 then 0
    else
      var f := proposalFacts[|proposalFacts| - 1];
      StatusCount(proposalFacts[..|proposalFacts| - 1], word)
        + (if f.key == ProposalStatusKey && Mentions(f.value, word) then 1 else 0)
  }

  /** The number of facts with the given key. */
  function KeyCount(facts: seq<ExtractedFact>, key: string): nat
    decreases |facts|
  {
    if |facts| == 0 then 0
    else KeyCount(facts[..|facts| - 1], key) + (if facts[|facts| - 1].key == key then 1 else 0)
  }

  function Approved(proposalFacts: seq<ExtractedFact>): nat { StatusCount(proposalFacts, "approved") }
  function Pending(proposalFacts: seq<ExtractedFact>): nat { StatusCount(proposalFacts, "pending") }
  function Rejected(proposalFacts: seq<ExtractedFact>): nat { StatusCount(proposalFacts, "rejected") }

  function StatusTotal(proposalFacts: seq<ExtractedFact>): nat {
    Approved(proposalFacts) + Pending(proposalFacts) + Rejected(proposalFacts)
  }

  /** The development-activity indicators counted when no status is known. */
  function ActivityCount(proposalFacts: seq<ExtractedFact>): nat {
    KeyCount(proposalFacts, "permit_type") + KeyCount(proposalFacts, "project_type")
      + KeyCount(proposalFacts, "unit_count")
  }

  /** `int(approved / total * 100)`, taken exactly: `floor(100 approved / total)`. */
  function ApprovalRate(approved: nat, total: nat): (r: int)
    requires 0 < total && approved <= total
    ensures 0 <= r <= 100
  {
    DivAtMost(100 * approved, total, 100);
    (100 * approved) / total
  }

  function MomentumScore(proposalFacts: seq<ExtractedFact>): (r: Option<int>)
    ensures ScoreInRange(r)
  {
    if |proposalFacts| == 0 then None
    else
      var total := StatusTotal(proposalFacts);
      if total > 0 then Some(ApprovalRate(Approved(proposalFacts), total))
      else
        var activity := Min(ActivityCount(proposalFacts) * 5, 100);
        if activity > 0 then Some(activity) else None
  }

  const PendingFriction: string := "More pending than approved proposals"

  /** The only friction factor: reported exactly when some status is counted and pending ones
      outnumber approved ones. */
  function FrictionFactors(proposalFacts: seq<ExtractedFact>): (r: seq<string>)
    ensures r == [] || r == [PendingFriction]
    ensures r != [] <==> StatusTotal(proposalFacts) > 0 && Pending(proposalFacts) > Approved(proposalFacts)
  {
    if |proposalFacts| > 0 && Pending(proposalFacts) > Approved(proposalFacts) && StatusTotal(proposalFacts) > 0
    then [PendingFriction]
    else []
  }

  // Constraints

  /** A zoning value that names a restriction: a string mentioning "restricted" or "residential". */
  predicate Restrictive(v: Value) {
    Truthy(v) && v.Str? && (Contains(Lower(v.s), "restricted") || Contains(Lower(v.s), "residential"))
  }

  function RestrictionText(v: Value): string
    requires v.Str?
  {
    "Zoning restriction: " + v.s
  }

  /** The constraints the loop over the zoning facts has appended after visiting `zoningFacts`. */
  function ZoningConstraints(zoningFacts: seq<ExtractedFact>): (r: seq<string>)
    ensures |r| <= |zoningFacts|
    decreases |zoningFacts|
  {
    if |zoningFacts| == 0 then []
    else
      var f := zoningFacts[|zoningFacts| - 1];
      ZoningConstraints(zoningFacts[..|zoningFacts| - 1]) + (if Restrictive(f.value) then [RestrictionText(f.value)] else [])
  }

  // The analysis

  /** `PolicyAnalyst.analyze`, as a function of the facts (the citations argument is unused). */
  function Policy(facts: seq<ExtractedFact>): (r: PolicyOutput)
    ensures r.Valid()
    ensures r.evidenceCount == |OfType(facts, Zoning)| + |OfType(facts, Proposal)|
  {
    var zoningFacts := OfType(facts, Zoning);
    var proposalFacts := OfType(facts, Proposal);
    var allFacts := zoningFacts + proposalFacts;
    PolicyOutput(
      ZoningScore(zoningFacts),
      MomentumScore(proposalFacts),
      FrictionFactors(proposalFacts),
      if |proposalFacts| > 0 then ZoningConstraints(zoningFacts) else [],
      CitedFraction(allFacts),
      |allFacts|,
      CitationSet(allFacts))
  }

  /** The loop over the zoning facts that appends one constraint per restrictive string value. */
  method CollectConstraints(zoningFacts: seq<ExtractedFact>) returns (constraints: seq<string>)
    ensures constraints == ZoningConstraints(zoningFacts)
  {
    constraints := [];
    var i := 0;
    while i < |zoningFacts|
      invariant 0 <= i <= |zoningFacts|
      invariant constraints == ZoningConstraints(zoningFacts[..i])
    {
      var f := zoningFacts[i];
      assert zoningFacts[..i + 1][..i] == zoningFacts[..i];
      if Truthy(f.value) && f.value.Str? {
        if Contains(Lower(f.value.s), "restricted") || Contains(Lower(f.value.s), "residential") {
          constraints := constraints + [RestrictionText(f.value)];
        }
      }
      i := i + 1;
    }
    assert zoningFacts[..i] == zoningFacts;
  }

  /** The loop that gathers the citation ids of the zoning and proposal facts. */
  method CollectCitations(allFacts: seq<ExtractedFact>) returns (used: set<string>)
    ensures used == CitationSet(allFacts)
  {
    used := {};
    var j := 0;
    while j < |allFacts|
      invariant 0 <= j <= |allFacts|
      invariant used == CitationSet(allFacts[..j])
    {
      assert allFacts[..j + 1][..j] == allFacts[..j];
      used := used + SetOf(allFacts[j].citationIds);
      j := j + 1;
    }
    assert allFacts[..j] == allFacts;
  }

  /** The analyst itself: the scores come from counts, the constraints and the used citation ids are
      filled by two loops. */
  method Analyze(facts: seq<ExtractedFact>) returns (out: PolicyOutput)
    ensures out == Policy(facts)
  {
    var zoningFacts := OfType(facts, Zoning);
    var proposalFacts := OfType(facts, Proposal);
    var zoningScore := ZoningScore(zoningFacts);
    var proposalScore: Option<int> := None;
    var friction: seq<string> := [];
    var constraints: seq<string> := [];
    if |proposalFacts| > 0 {
      proposalScore := MomentumScore(proposalFacts);
      var approved, pending := Approved(proposalFacts), Pending(proposalFacts);
      if pending > approved && StatusTotal(proposalFacts) > 0 {
        friction := friction + [PendingFriction];
      }
      constraints := CollectConstraints(zoningFacts);
    }
    var allFacts := zoningFacts + proposalFacts;
    var confidence := CitedFraction(allFacts);
    var used := CollectCitations(allFacts);
    out := PolicyOutput(zoningScore, proposalScore, friction, constraints, confidence, |allFacts|, used);
  }

  // Properties

  lemma {:induction false} DistinctZoningValuesMembers(zoningFacts: seq<ExtractedFact>, k: HashKey)
    ensures k in DistinctZoningValues(zoningFacts) <==>
      exists f :: f in zoningFacts && Truthy(f.value) && KeyOf(f.value) == k
    decreases |zoningFacts|
  {
    if |zoningFacts| > 0 {
      var p, f := zoningFacts[..|zoningFacts| - 1], zoningFacts[|zoningFacts| - 1];
      DistinctZoningValuesMembers(p, k);
      assert zoningFacts == p + [f];
    }
  }

  /** The zoning score is absent exactly when no zoning fact has a truthy value. */
  lemma ZoningScoreAbsent(facts: seq<ExtractedFact>)
    ensures Policy(facts).zoningFlexibilityScore.None? <==>
      forall f :: f in facts && f.factType == Zoning ==> !Truthy(f.value)
  {
    var z := OfType(facts, Zoning);
    forall f ensures f in z <==> f in facts && f.factType == Zoning {
      OfTypeMembers(facts, Zoning, f);
    }
    if forall f :: f in z ==> !Truthy(f.value) {
      if |z| > 0 && |DistinctZoningValues(z)| > 0 {
        var k :| k in DistinctZoningValues(z);
        DistinctZoningValuesMembers(z, k);
      }
    } else {
      var f :| f in z && Truthy(f.value);
      DistinctZoningValuesMembers(z, KeyOf(f.value));
    }
  }

  /** Only distinct values count: a zoning fact repeating a value already seen (1, 1.0 and True
      being one value to Python) leaves the zoning score unchanged. */
  lemma RepeatedZoningValue(zoningFacts: seq<ExtractedFact>, f: ExtractedFact)
    requires f.factType == Zoning
    requires exists g :: g in zoningFacts && Truthy(g.value) && KeyOf(g.value) == KeyOf(f.value)
    ensures ZoningScore(zoningFacts + [f]) == ZoningScore(zoningFacts)
  {
    var all := zoningFacts + [f];
    assert all[..|all| - 1] == zoningFacts;
    DistinctZoningValuesMembers(zoningFacts, KeyOf(f.value));
    assert DistinctZoningValues(all) == DistinctZoningValues(zoningFacts);
  }

  /** With status counts, momentum is 100 exactly when no status fact is pending or rejected. */
  lemma FullMomentum(facts: seq<ExtractedFact>)
    requires StatusTotal(OfType(facts, Proposal)) > 0
    ensures var p := OfType(facts, Proposal);
      Policy(facts).proposalMomentumScore == Some(100) <==> Pending(p) + Rejected(p) == 0
  {
    var p := OfType(facts, Proposal);
    var a, t := Approved(p), StatusTotal(p);
    assert Policy(facts).proposalMomentumScore == Some(ApprovalRate(a, t));
    if a < t {
      DivBelow(100 * a, t, 100);
    } else {
      DivExact(100, t);
    }
  }

  /** Momentum is 0 when nothing was approved. */
  lemma NoApprovalNoMomentum(facts: seq<ExtractedFact>)
    requires StatusTotal(OfType(facts, Proposal)) > 0 && Approved(OfType(facts, Proposal)) == 0
    ensures Policy(facts).proposalMomentumScore == Some(0)
  {
    var p := OfType(facts, Proposal);
    var t := StatusTotal(p);
    assert Policy(facts).proposalMomentumScore == Some(ApprovalRate(0, t));
    DivExact(0, t);
  }

  /** The activity estimate: without any status count, momentum is `min(5 n, 100)` for the `n`
      permit, project and unit-count facts, and absent when `n` is 0. */
  lemma ActivityMomentum(facts: seq<ExtractedFact>)
    requires |OfType(facts, Proposal)| > 0 && StatusTotal(OfType(facts, Proposal)) == 0
    ensures var n := ActivityCount(OfType(facts, Proposal));
      Policy(facts).proposalMomentumScore == (if n == 0 then None else Some(Min(5 * n, 100)))
  {
  }

  /** The friction factor is reported exactly when some status is counted and pending outnumbers
      approved, and it then comes with a momentum below 50. */
  lemma FrictionMeansLowMomentum(facts: seq<ExtractedFact>)
    ensures var p := OfType(facts, Proposal);
      (Policy(facts).approvalFrictionFactors == [PendingFriction] <==>
        StatusTotal(p) > 0 && Pending(p) > Approved(p))
      && (Policy(facts).approvalFrictionFactors == [] <==> !(StatusTotal(p) > 0 && Pending(p) > Approved(p)))
    ensures Policy(facts).approvalFrictionFactors != [] ==>
      Policy(facts).proposalMomentumScore.Some? && Policy(facts).proposalMomentumScore.value < 50
  {
    var p := OfType(facts, Proposal);
    if StatusTotal(p) > 0 && Pending(p) > Approved(p) {
      assert |p| > 0;
      var a, t := Approved(p), StatusTotal(p);
      assert 100 * a < 50 * t;
      DivBelow(100 * a, t, 50);
    }
  }

  lemma {:induction false} ZoningConstraintsMembers(zoningFacts: seq<ExtractedFact>, c: string)
    ensures c in ZoningConstraints(zoningFacts) <==>
      exists f :: f in zoningFacts && Restrictive(f.value) && c == RestrictionText(f.value)
    decreases |zoningFacts|
  {
    if |zoningFacts| > 0 {
      var p, f := zoningFacts[..|zoningFacts| - 1], zoningFacts[|zoningFacts| - 1];
      ZoningConstraintsMembers(p, c);
      assert zoningFacts == p + [f];
    }
  }

  /** Constraints appear only when proposal facts exist, and then there is one per zoning fact whose
      string value mentions "restricted" or "residential" in any letter case. */
  lemma ConstraintsExact(facts: seq<ExtractedFact>, c: string)
    ensures OfType(facts, Proposal) == [] ==> Policy(facts).constraints == []
    ensures OfType(facts, Proposal) != [] ==>
      (c in Policy(facts).constraints <==>
        exists f :: f in facts && f.factType == Zoning && Restrictive(f.value) && c == RestrictionText(f.value))
  {
    var z := OfType(facts, Zoning);
    ZoningConstraintsMembers(z, c);
    forall f ensures f in z <==> f in facts && f.factType == Zoning {
      OfTypeMembers(facts, Zoning, f);
    }
  }

  /** The output's citation ids are the union of the citations of all zoning and proposal facts. */
  lemma CitationsOfPolicyFacts(facts: seq<ExtractedFact>, c: string)
    ensures c in Policy(facts).citationIds <==>
      exists f :: f in facts && (f.factType == Zoning || f.factType == Proposal) && c in f.citationIds
  {
    var z, p := OfType(facts, Zoning), OfType(facts, Proposal);
    CitationSetMembers(z + p, c);
    forall f ensures f in z + p <==> f in facts && (f.factType == Zoning || f.factType == Proposal) {
      OfTypeMembers(facts, Zoning, f);
      OfTypeMembers(facts, Proposal, f);
    }
  }

  /** Without zoning or proposal facts (the empty input among them) both scores are absent and the
      output is empty. */
  lemma NoPolicyFacts(facts: seq<ExtractedFact>)
    requires forall f :: f in facts ==> f.factType != Zoning && f.factType != Proposal
    ensures Policy(facts) == PolicyOutput(None, None, [], [], 0.0, 0, {})
  {
    NoneOfType(facts, Zoning);
    NoneOfType(facts, Proposal);
  }
}
