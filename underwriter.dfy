/** The Underwriter: combines the budget and policy analyses into a feasibility score, a verdict, a
    plan variant, and pros, cons and constraints that each name the facts and citations behind them. */
module Underwriter {
  import opened Wrappers
  import opened Ints
  import opened Text
  import opened Facts
  import opened AgentOutputs

  // Feasibility score

  /** A weighted score component in tenths (0.4 becomes 4, 0.3 becomes 3), if the score is present. */
  function Component(score: Option<int>, weight: int): seq<int> {
    if score.Some? then [score.value * weight] else []
  }

  function Sum(xs: seq<int>): int
    decreases |xs|
  {
    if |xs| == 0 then 0 else Sum(xs[..|xs| - 1]) + xs[|xs| - 1]
  }

  /** The source's `score_components`, in tenths. */
  function ScoreComponents(b: BudgetOutput, p: PolicyOutput): seq<int> {
    Component(b.fundingStrengthScore, 4) + Component(p.zoningFlexibilityScore, 3)
      + Component(p.proposalMomentumScore, 3)
  }

  /** `int(sum(score_components))`, taken exactly: a truncated weighted sum of the present scores. */
  function FeasibilityScore(b: BudgetOutput, p: PolicyOutput): (r: Option<int>)
    ensures r.None? <==>
      b.fundingStrengthScore.None? && p.zoningFlexibilityScore.None? && p.proposalMomentumScore.None?
    ensures (ScoreInRange(b.fundingStrengthScore) && ScoreInRange(p.zoningFlexibilityScore)
             && ScoreInRange(p.proposalMomentumScore)) ==> ScoreInRange(r)
  {
    var components := ScoreComponents(b, p);
    SumOfComponents(b, p);
    if |components| == 0 then None else Some(TruncTenth(Sum(components)))
  }

  function Part(score: Option<int>, weight: int): int {
    if score.Some? then score.value * weight else 0
  }

  lemma SumOfComponents(b: BudgetOutput, p: PolicyOutput)
    ensures Sum(ScoreComponents(b, p)) ==
      Part(b.fundingStrengthScore, 4) + Part(p.zoningFlexibilityScore, 3) + Part(p.proposalMomentumScore, 3)
  {
    var x, y, z := Component(b.fundingStrengthScore, 4), Component(p.zoningFlexibilityScore, 3),
      Component(p.proposalMomentumScore, 3);
    SumAppend(x, y);
    SumAppend(x + y, z);
    assert Sum(x) == Part(b.fundingStrengthScore, 4);
    assert Sum(y) == Part(p.zoningFlexibilityScore, 3);
    assert Sum(z) == Part(p.proposalMomentumScore, 3);
  }

  lemma {:induction false} SumAppend(xs: seq<int>, ys: seq<int>)
    ensures Sum(xs + ys) == Sum(xs) + Sum(ys)
    decreases |ys|
  {
    if |ys| == 0 {
      assert xs + ys == xs;
    } else {
      assert (xs + ys)[..|xs + ys| - 1] == xs + ys[..|ys| - 1];
      SumAppend(xs, ys[..|ys| - 1]);
    }
  }

  // Verdict and plan variant

  /** The verdict: banded by a present score, otherwise unknown only when neither analysis saw
      evidence. */
  function VerdictFor(score: Option<int>, budgetEvidence: int, policyEvidence: int): (r: Verdict)
    ensures r == Unknown <==> score.None? && budgetEvidence == 0 && policyEvidence == 0
    ensures score.Some? ==> (r == Go <==> score.value >= 70) && (r == Avoid <==> score.value < 50)
    ensures score.None? && r != Unknown ==> r == Caution
  {
    if score.Some? then
      if score.value >= 70 then Go else if score.value >= 50 then Caution else Avoid
    else if budgetEvidence == 0 && policyEvidence == 0 then Unknown
    else if budgetEvidence > 0 && policyEvidence == 0 then Caution
    else Caution
  }

  /** The plan variant: a distinct plan per verdict. */
  function PlanFor(v: Verdict): (r: PlanVariant)
    ensures (r == PlanA <==> v == Go) && (r == PlanB <==> v == Caution) && (r == PlanC <==> v == Avoid)
    ensures r == PlanUnknown <==> v == Unknown
  {
    match v
    case Go => PlanA
    case Caution => PlanB
    case Avoid => PlanC
    case Unknown => PlanUnknown
  }

  // Pros, cons and constraints

  /** A Python score is truthy when present and not 0. */
  predicate TruthyScore(s: Option<int>) {
    s.Some? && s.value != 0
  }

  /** `f"{score}"` for an optional score: Python prints a missing one as "None". */
  function ScoreText(s: Option<int>): string {
    if s.Some? then IntText(s.value) else "None"
  }

  /** An entry backed by the given facts: their ids in order and the set of their citation ids. */
  function Backed(description: string, backing: seq<ExtractedFact>): Entry {
    Entry(Some(description), Some(Ids(backing)), Some(SetOf(CitationsOf(backing))))
  }

  /** One guarded block of the underwriter: when its condition holds and some cited fact of the
      block's type exists, it contributes one entry backed by all those facts. */
  function Candidate(applies: bool, description: string, backing: seq<ExtractedFact>): seq<Entry> {
    if applies && |backing| > 0 then [Backed(description, backing)] else []
  }

  function StrongFunding(s: Option<int>): string { "Strong funding environment (score: " + ScoreText(s) + ")" }
  function FlexibleZoning(s: Option<int>): string { "Flexible zoning regulations (score: " + ScoreText(s) + ")" }
  function LimitedFunding(s: Option<int>): string { "Limited funding availability (score: " + ScoreText(s) + ")" }
  function ApprovalFriction(factors: seq<string>): string { "Approval friction: " + Join(factors, "; ") }

  predicate AtLeast60(s: Option<int>) { TruthyScore(s) && s.value >= 60 }
  predicate Below40(s: Option<int>) { TruthyScore(s) && s.value < 40 }

  /** At most one pro per block, each complete. */
  function Pros(b: BudgetOutput, p: PolicyOutput, facts: seq<ExtractedFact>): (r: seq<Entry>)
    ensures |r| <= 2
    ensures forall e :: e in r ==> e.description.Some? && HasRequiredKeys(e)
  {
    Candidate(AtLeast60(b.fundingStrengthScore), StrongFunding(b.fundingStrengthScore), CitedOfType(facts, Budget))
    + Candidate(AtLeast60(p.zoningFlexibilityScore), FlexibleZoning(p.zoningFlexibilityScore),
                CitedOfType(facts, Zoning))
  }

  /** At most one con per block, each complete. */
  function Cons(b: BudgetOutput, p: PolicyOutput, facts: seq<ExtractedFact>): (r: seq<Entry>)
    ensures |r| <= 2
    ensures forall e :: e in r ==> e.description.Some? && HasRequiredKeys(e)
  {
    Candidate(Below40(b.fundingStrengthScore), LimitedFunding(b.fundingStrengthScore), CitedOfType(facts, Budget))
    + Candidate(|p.approvalFrictionFactors| > 0, ApprovalFriction(p.approvalFrictionFactors),
                CitedOfType(facts, Proposal))
  }

  /** At most one constraint entry, and only when the policy reported constraints. */
  function Constraints(p: PolicyOutput, facts: seq<ExtractedFact>): (r: seq<Entry>)
    ensures |r| <= 1
    ensures |r| == 1 ==> |p.constraints| > 0 && r[0].description == Some(Join(p.constraints, "; "))
    ensures forall e :: e in r ==> e.description.Some? && HasRequiredKeys(e)
  {
    Candidate(|p.constraints| > 0, Join(p.constraints, "; "), CitedOfType(facts, Zoning))
  }

  /** The union of the entries' citation ids. */
  function EntryCitations(entries: seq<Entry>): set<string>
    decreases |entries|
  {
    if |entries| == 0 then {}
    else
      var e := entries[|entries| - 1];
      EntryCitations(entries[..|entries| - 1]) + (if e.citationIds.Some? then e.citationIds.value else {})
  }

  /** `min(total / 10.0, 1.0) if total > 0 else 0.0`. */
  function EvidenceConfidence(total: int): real {
    if total > 0 then MinReal(total as real / 10.0, 1.0) else 0.0
  }

  function AllEntries(u: UnderwriterOutput): seq<Entry> {
    u.pros + u.cons + u.constraints
  }

  /** `Underwriter.analyze`, as a function of its inputs (the citations argument is unused). */
  function Underwrite(b: BudgetOutput, p: PolicyOutput, facts: seq<ExtractedFact>): (r: UnderwriterOutput)
    ensures ValidateProsCons(r) == Pass
    ensures b.Valid() && p.Valid() ==> r.Valid()
    ensures r.evidenceCount == b.evidenceCount + p.evidenceCount
  {
    var score := FeasibilityScore(b, p);
    var verdict := VerdictFor(score, b.evidenceCount, p.evidenceCount);
    var pros, cons, constraints := Pros(b, p, facts), Cons(b, p, facts), Constraints(p, facts);
    var total := b.evidenceCount + p.evidenceCount;
    AllHaveRequiredKeysMeans(pros);
    AllHaveRequiredKeysMeans(cons);
    UnderwriterOutput(
      score, verdict, PlanFor(verdict), pros, cons, constraints,
      EvidenceConfidence(total), total,
      EntryCitations(pros + cons + constraints) + b.citationIds + p.citationIds)
  }

  /** `[f for f in facts if f.fact_type == t and f.citation_ids]`, with the entry built from them: the
      loop extends the citation list fact by fact. */
  method Gather(facts: seq<ExtractedFact>, t: FactType, description: string)
    returns (backing: seq<ExtractedFact>, entry: Entry)
    ensures backing == CitedOfType(facts, t)
    ensures entry == Backed(description, backing)
  {
    backing := CitedOfType(facts, t);
    var ids := Ids(backing);
    var citeIds: seq<string> := [];
    var i := 0;
    while i < |backing|
      invariant 0 <= i <= |backing|
      invariant citeIds == CitationsOf(backing[..i])
    {
      assert backing[..i + 1][..i] == backing[..i];
      citeIds := citeIds + backing[i].citationIds;
      i := i + 1;
    }
    assert backing[..i] == backing;
    entry := Entry(Some(description), Some(ids), Some(SetOf(citeIds)));
  }

  /** One guarded block: gather the cited facts of type `t` and append an entry if there are any. */
  method Consider(entries: seq<Entry>, applies: bool, facts: seq<ExtractedFact>, t: FactType,
                  description: string) returns (r: seq<Entry>)
    ensures r == entries + Candidate(applies, description, CitedOfType(facts, t))
  {
    r := entries;
    if applies {
      var backing, entry := Gather(facts, t, description);
      if |backing| > 0 {
        r := r + [entry];
      }
    }
  }

  /** The score components are appended one by one and summed. */
  method Score(b: BudgetOutput, p: PolicyOutput) returns (score: Option<int>)
    ensures score == FeasibilityScore(b, p)
  {
    var components: seq<int> := [];
    if b.fundingStrengthScore.Some? {
      components := components + [b.fundingStrengthScore.value * 4];
    }
    if p.zoningFlexibilityScore.Some? {
      components := components + [p.zoningFlexibilityScore.value * 3];
    }
    if p.proposalMomentumScore.Some? {
      components := components + [p.proposalMomentumScore.value * 3];
    }
    assert components == ScoreComponents(b, p);
    score := None;
    if |components| > 0 {
      score := Some(TruncTenth(Sum(components)));
    }
  }

  /** The five guarded blocks, in the source's order. */
  method Entries(b: BudgetOutput, p: PolicyOutput, facts: seq<ExtractedFact>)
    returns (pros: seq<Entry>, cons: seq<Entry>, constraints: seq<Entry>)
    ensures pros == Pros(b, p, facts) && cons == Cons(b, p, facts) && constraints == Constraints(p, facts)
  {
    var f, z := b.fundingStrengthScore, p.zoningFlexibilityScore;
    pros := Consider([], AtLeast60(f), facts, Budget, StrongFunding(f));
    assert pros == Candidate(AtLeast60(f), StrongFunding(f), CitedOfType(facts, Budget));
    pros := Consider(pros, AtLeast60(z), facts, Zoning, FlexibleZoning(z));
    cons := Consider([], Below40(f), facts, Budget, LimitedFunding(f));
    assert cons == Candidate(Below40(f), LimitedFunding(f), CitedOfType(facts, Budget));
    cons := Consider(cons, |p.approvalFrictionFactors| > 0, facts, Proposal,
                     ApprovalFriction(p.approvalFrictionFactors));
    constraints := Consider([], |p.constraints| > 0, facts, Zoning, Join(p.constraints, "; "));
    assert constraints == Candidate(|p.constraints| > 0, Join(p.constraints, "; "), CitedOfType(facts, Zoning));
  }

  /** The underwriter itself: the score, the verdict and plan, the entries, then the citation set. */
  method Analyze(b: BudgetOutput, p: PolicyOutput, facts: seq<ExtractedFact>) returns (out: UnderwriterOutput)
    ensures out == Underwrite(b, p, facts)
  {
    var score := Score(b, p);
    var verdict := VerdictFor(score, b.evidenceCount, p.evidenceCount);
    var plan := PlanFor(verdict);
    var pros, cons, constraints := Entries(b, p, facts);
    var used := EntryCitations(pros + cons + constraints);
    var total := b.evidenceCount + p.evidenceCount;
    var confidence := EvidenceConfidence(total);
    used := used + b.citationIds;
    used := used + p.citationIds;
    out := UnderwriterOutput(score, verdict, plan, pros, cons, constraints, confidence, total, used);
  }

  // Properties

  /** With valid analyst outputs the underwriter's own output is valid. */
  lemma UnderwriteValid(b: BudgetOutput, p: PolicyOutput, facts: seq<ExtractedFact>)
    requires b.Valid() && p.Valid()
    ensures Underwrite(b, p, facts).Valid()
  {
  }

  /** Raising the funding score never lowers the feasibility score. */
  lemma FeasibilityMonotone(b: BudgetOutput, b': BudgetOutput, p: PolicyOutput)
    requires b.fundingStrengthScore.Some? && b'.fundingStrengthScore.Some?
    requires 0 <= b.fundingStrengthScore.value <= b'.fundingStrengthScore.value
    requires ScoreInRange(p.zoningFlexibilityScore) && ScoreInRange(p.proposalMomentumScore)
    ensures FeasibilityScore(b, p).value <= FeasibilityScore(b', p).value
  {
    SumOfComponents(b, p);
    SumOfComponents(b', p);
  }

  /** All three scores present and equal to `s`: the weights sum to one, so the score is `s`. */
  lemma FeasibilityOfEqualScores(b: BudgetOutput, p: PolicyOutput, s: nat)
    requires b.fundingStrengthScore == Some(s as int)
    requires p.zoningFlexibilityScore == Some(s as int) && p.proposalMomentumScore == Some(s as int)
    ensures FeasibilityScore(b, p) == Some(s as int)
  {
    SumOfComponents(b, p);
    DivExact(s, 10);
  }

  /** A present score is banded: go from 70, caution from 50 to 69, avoid below 50. */
  lemma VerdictBands(b: BudgetOutput, p: PolicyOutput, facts: seq<ExtractedFact>)
    requires FeasibilityScore(b, p).Some?
    ensures var u := Underwrite(b, p, facts); var s := u.feasibilityScore.value;
      (u.verdict == Go <==> s >= 70) && (u.verdict == Caution <==> 50 <= s < 70)
      && (u.verdict == Avoid <==> s < 50)
  {
  }

  /** Without a score the verdict is unknown exactly when neither analysis saw evidence, and
      caution otherwise. */
  lemma VerdictWithoutScore(b: BudgetOutput, p: PolicyOutput, facts: seq<ExtractedFact>)
    requires FeasibilityScore(b, p).None?
    ensures var u := Underwrite(b, p, facts);
      (u.verdict == Unknown <==> b.evidenceCount == 0 && p.evidenceCount == 0)
      && (u.verdict != Unknown ==> u.verdict == Caution)
  {
  }

  /** The plan variant follows the verdict one to one: go, caution, avoid and unknown give A, B, C
      and unknown. */
  lemma PlanFollowsVerdict(b: BudgetOutput, p: PolicyOutput, facts: seq<ExtractedFact>)
    ensures var u := Underwrite(b, p, facts);
      (u.planVariant == PlanA <==> u.verdict == Go) && (u.planVariant == PlanB <==> u.verdict == Caution)
      && (u.planVariant == PlanC <==> u.verdict == Avoid)
      && (u.planVariant == PlanUnknown <==> u.verdict == Unknown)
  {
  }

  lemma CandidateShape(applies: bool, description: string, backing: seq<ExtractedFact>, e: Entry)
    requires e in Candidate(applies, description, backing)
    ensures applies && |backing| > 0 && e == Backed(description, backing)
  {
  }

  /** Each pro, con or constraint is built from some description and all cited facts of one type,
      and there is at least one such fact. */
  lemma EntryShape(b: BudgetOutput, p: PolicyOutput, facts: seq<ExtractedFact>, e: Entry)
    requires e in AllEntries(Underwrite(b, p, facts))
    ensures exists d: string, t: FactType :: |CitedOfType(facts, t)| > 0 && e == Backed(d, CitedOfType(facts, t))
  {
    var f, z := b.fundingStrengthScore, p.zoningFlexibilityScore;
    var c1 := Candidate(AtLeast60(f), StrongFunding(f), CitedOfType(facts, Budget));
    var c2 := Candidate(AtLeast60(z), FlexibleZoning(z), CitedOfType(facts, Zoning));
    var c3 := Candidate(Below40(f), LimitedFunding(f), CitedOfType(facts, Budget));
    var c4 := Candidate(|p.approvalFrictionFactors| > 0, ApprovalFriction(p.approvalFrictionFactors),
                        CitedOfType(facts, Proposal));
    var c5 := Candidate(|p.constraints| > 0, Join(p.constraints, "; "), CitedOfType(facts, Zoning));
    assert AllEntries(Underwrite(b, p, facts)) == c1 + c2 + (c3 + c4) + c5;
    if e in c1 {
      CandidateShape(AtLeast60(f), StrongFunding(f), CitedOfType(facts, Budget), e);
    } else if e in c2 {
      CandidateShape(AtLeast60(z), FlexibleZoning(z), CitedOfType(facts, Zoning), e);
    } else if e in c3 {
      CandidateShape(Below40(f), LimitedFunding(f), CitedOfType(facts, Budget), e);
    } else if e in c4 {
      CandidateShape(|p.approvalFrictionFactors| > 0, ApprovalFriction(p.approvalFrictionFactors),
                     CitedOfType(facts, Proposal), e);
    } else {
      CandidateShape(|p.constraints| > 0, Join(p.constraints, "; "), CitedOfType(facts, Zoning), e);
    }
  }

  /** Every pro, con and constraint carries a description, its supporting fact ids and its citation
      ids; so `validate_pros_cons` never raises on the underwriter's output. */
  lemma UnderwriteEntriesComplete(b: BudgetOutput, p: PolicyOutput, facts: seq<ExtractedFact>)
    ensures forall e :: e in AllEntries(Underwrite(b, p, facts)) ==> e.description.Some? && HasRequiredKeys(e)
    ensures ValidateProsCons(Underwrite(b, p, facts)) == Pass
  {
    var u := Underwrite(b, p, facts);
    forall e | e in AllEntries(u) ensures e.description.Some? && HasRequiredKeys(e) {
      EntryShape(b, p, facts, e);
    }
    AllHaveRequiredKeysMeans(u.pros);
    AllHaveRequiredKeysMeans(u.cons);
  }

  /** An entry names at least one fact, and each fact it names is a cited fact of the input. */
  lemma EntriesBackedByCitedFacts(b: BudgetOutput, p: PolicyOutput, facts: seq<ExtractedFact>, e: Entry)
    requires e in AllEntries(Underwrite(b, p, facts))
    ensures e.supportingFactIds.Some? && |e.supportingFactIds.value| > 0
    ensures forall id :: id in e.supportingFactIds.value ==> exists f :: f in facts && Cited(f) && f.id == id
  {
    EntryShape(b, p, facts, e);
    var d: string, t: FactType :| |CitedOfType(facts, t)| > 0 && e == Backed(d, CitedOfType(facts, t));
    var c := CitedOfType(facts, t);
    assert e.supportingFactIds.value == Ids(c);
    forall id | id in Ids(c) ensures exists f :: f in facts && Cited(f) && f.id == id {
      IdBacked(c, facts, id);
    }
  }

  /** An id listed for facts drawn from `facts` is the id of a cited fact of `facts`. */
  lemma IdBacked(c: seq<ExtractedFact>, facts: seq<ExtractedFact>, id: string)
    requires forall f :: f in c ==> f in facts && Cited(f)
    requires id in Ids(c)
    ensures exists f :: f in facts && Cited(f) && f.id == id
  {
    var i :| 0 <= i < |c| && Ids(c)[i] == id;
    assert c[i] in c;
  }

  /** The "Limited funding" con appears exactly for a funding score strictly between 0 and 40 with a
      cited budget fact: a score of 0 is falsy and never yields it. */
  lemma LimitedFundingExactly(b: BudgetOutput, p: PolicyOutput, facts: seq<ExtractedFact>)
    requires b.Valid()
    ensures var f := b.fundingStrengthScore;
      (exists e :: e in Underwrite(b, p, facts).cons && e.description == Some(LimitedFunding(f))) <==>
        f.Some? && 0 < f.value < 40 && |CitedOfType(facts, Budget)| > 0
  {
    var f := b.fundingStrengthScore;
    var c3 := Candidate(Below40(f), LimitedFunding(f), CitedOfType(facts, Budget));
    var c4 := Candidate(|p.approvalFrictionFactors| > 0, ApprovalFriction(p.approvalFrictionFactors),
                        CitedOfType(facts, Proposal));
    assert Underwrite(b, p, facts).cons == c3 + c4;
    forall e | e in c4 ensures e.description != Some(LimitedFunding(f)) {
      assert LimitedFunding(f)[0] == 'L';
      assert ApprovalFriction(p.approvalFrictionFactors)[0] == 'A';
    }
    if Below40(f) && |CitedOfType(facts, Budget)| > 0 {
      assert c3[0] in c3 + c4;
    }
  }

  lemma {:induction false} EntryCitationsAppend(xs: seq<Entry>, ys: seq<Entry>)
    ensures EntryCitations(xs + ys) == EntryCitations(xs) + EntryCitations(ys)
    decreases |ys|
  {
    if |ys| == 0 {
      assert xs + ys == xs;
    } else {
      assert (xs + ys)[..|xs + ys| - 1] == xs + ys[..|ys| - 1];
      EntryCitationsAppend(xs, ys[..|ys| - 1]);
    }
  }

  lemma {:induction false} EntryCitationsMembers(entries: seq<Entry>, c: string)
    ensures c in EntryCitations(entries) <==>
      exists e :: e in entries && e.citationIds.Some? && c in e.citationIds.value
    decreases |entries|
  {
    if |entries| > 0 {
      var p := entries[..|entries| - 1];
      EntryCitationsMembers(p, c);
      assert entries == p + [entries[|entries| - 1]];
    }
  }

  /** The output cites everything both analyses cite and everything its entries cite. */
  lemma CitationsIncludeSources(b: BudgetOutput, p: PolicyOutput, facts: seq<ExtractedFact>)
    ensures var u := Underwrite(b, p, facts);
      b.citationIds <= u.citationIds && p.citationIds <= u.citationIds
      && forall e, c :: e in AllEntries(u) && e.citationIds.Some? && c in e.citationIds.value ==> c in u.citationIds
  {
    var u := Underwrite(b, p, facts);
    forall e, c | e in AllEntries(u) && e.citationIds.Some? && c in e.citationIds.value
      ensures c in u.citationIds
    {
      EntryCitationsMembers(AllEntries(u), c);
    }
  }

  /** The output cites nothing that neither an analysis nor one of the input facts cites. */
  lemma CitationsFromInputsOnly(b: BudgetOutput, p: PolicyOutput, facts: seq<ExtractedFact>)
    ensures Underwrite(b, p, facts).citationIds <= b.citationIds + p.citationIds + CitationSet(facts)
  {
    var u := Underwrite(b, p, facts);
    forall c | c in EntryCitations(AllEntries(u)) ensures c in CitationSet(facts) {
      EntryCitationsMembers(AllEntries(u), c);
      var e :| e in AllEntries(u) && e.citationIds.Some? && c in e.citationIds.value;
      EntryShape(b, p, facts, e);
      var d: string, t: FactType :| |CitedOfType(facts, t)| > 0 && e == Backed(d, CitedOfType(facts, t));
      CitationsOfSet(CitedOfType(facts, t));
      CitationSetMembers(CitedOfType(facts, t), c);
      CitationSetMembers(facts, c);
    }
  }

  /** The evidence count is the sum of the two analyses'; the confidence grows by a tenth per fact
      up to 1, and is 0 exactly when there is no evidence. */
  lemma EvidenceAndConfidence(b: BudgetOutput, p: PolicyOutput, facts: seq<ExtractedFact>)
    requires b.evidenceCount >= 0 && p.evidenceCount >= 0
    ensures var u := Underwrite(b, p, facts); var total := b.evidenceCount + p.evidenceCount;
      u.evidenceCount == total
      && (u.confidence == 0.0 <==> total == 0)
      && (total >= 10 ==> u.confidence == 1.0)
      && (total < 10 ==> u.confidence == total as real / 10.0)
  {
  }
}
