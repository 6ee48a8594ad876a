/** The JSON contracts of the three analysts and of a region's panel. Each `Valid()` is the set of
    field constraints pydantic enforces when the output is constructed; an invalid output would
    raise a validation error instead of being returned. */
module AgentOutputs {
  import opened Wrappers
  import opened Facts

  /** A score field: absent, or an integer from 0 to 100. */
  predicate ScoreInRange(s: Option<int>) {
    s.None? || (0 <= s.value && s.value <= 100)
  }

  predicate UnitInterval(x: real) {
    0.0 <= x && x <= 1.0
  }

  /** One entry of `key_allocations`. */
  datatype Allocation = Allocation(
    key: string,
    value: Value,
    unit: string,
    timeframe: Option<string>,
    citationIds: seq<string>)

  /** `citation_ids` is built from a Python set, so its order carries nothing: it is a set here. */
  datatype BudgetOutput = BudgetOutput(
    fundingStrengthScore: Option<int>,
    keyAllocations: seq<Allocation>,
    confidence: real,
    evidenceCount: int,
    citationIds: set<string>)
  {
    predicate Valid() {
      ScoreInRange(fundingStrengthScore) && UnitInterval(confidence) && evidenceCount >= 0
    }
  }

  datatype PolicyOutput = PolicyOutput(
    zoningFlexibilityScore: Option<int>,
    proposalMomentumScore: Option<int>,
    approvalFrictionFactors: seq<string>,
    constraints: seq<string>,
    confidence: real,
    evidenceCount: int,
    citationIds: set<string>)
  {
    predicate Valid() {
      ScoreInRange(zoningFlexibilityScore) && ScoreInRange(proposalMomentumScore)
      && UnitInterval(confidence) && evidenceCount >= 0
    }
  }

  /** A pro, con or constraint: a dictionary in which each of the three keys may be missing. */
  datatype Entry = Entry(
    description: Option<string>,
    supportingFactIds: Option<seq<string>>,
    citationIds: Option<set<string>>)

  datatype Verdict = Go | Caution | Avoid | Unknown

  function VerdictName(v: Verdict): string {
    match v
    case Go => "go"
    case Caution => "caution"
    case Avoid => "avoid"
    case Unknown => "unknown"
  }

  datatype PlanVariant = PlanA | PlanB | PlanC | PlanUnknown

  function PlanVariantName(p: PlanVariant): string {
    match p
    case PlanA => "A"
    case PlanB => "B"
    case PlanC => "C"
    case PlanUnknown => "unknown"
  }

  datatype UnderwriterOutput = UnderwriterOutput(
    feasibilityScore: Option<int>,
    verdict: Verdict,
    planVariant: PlanVariant,
    pros: seq<Entry>,
    cons: seq<Entry>,
    constraints: seq<Entry>,
    confidence: real,
    evidenceCount: int,
    citationIds: set<string>)
  {
    predicate Valid() {
      ScoreInRange(feasibilityScore) && UnitInterval(confidence) && evidenceCount >= 0
    }
  }

  predicate HasRequiredKeys(e: Entry) {
    e.supportingFactIds.Some? && e.citationIds.Some?
  }

  /** Whether the loop over `entries` runs to its end without raising. */
  predicate AllHaveRequiredKeys(entries: seq<Entry>)
    decreases |entries|
  {
    |entries| == 0 || (HasRequiredKeys(entries[0]) && AllHaveRequiredKeys(entries[1..]))
  }

  const ProsMessage: string := "All pros must have supporting_fact_ids and citation_ids"
  const ConsMessage: string := "All cons must have supporting_fact_ids and citation_ids"

  /** `UnderwriterOutput.validate_pros_cons`: the pros are checked first, then the cons. */
  function ValidateProsCons(u: UnderwriterOutput): (r: Outcome)
    ensures r == Pass || r == Fail(ProsMessage) || r == Fail(ConsMessage)
    ensures r == Fail(ConsMessage) ==> AllHaveRequiredKeys(u.pros)
  {
    if !AllHaveRequiredKeys(u.pros) then Fail(ProsMessage)
    else if !AllHaveRequiredKeys(u.cons) then Fail(ConsMessage)
    else Pass
  }

  lemma {:induction false} AllHaveRequiredKeysMeans(entries: seq<Entry>)
    ensures AllHaveRequiredKeys(entries) <==> forall e :: e in entries ==> HasRequiredKeys(e)
    decreases |entries|
  {
    if |entries| > 0 {
      AllHaveRequiredKeysMeans(entries[1..]);
      assert entries == [entries[0]] + entries[1..];
    }
  }

  /** The validator raises exactly when some pro or con lacks `supporting_fact_ids` or
      `citation_ids`. */
  lemma ValidateProsConsFailsIff(u: UnderwriterOutput)
    ensures ValidateProsCons(u).Fail? <==>
      exists e :: (e in u.pros || e in u.cons) && !HasRequiredKeys(e)
  {
    AllHaveRequiredKeysMeans(u.pros);
    AllHaveRequiredKeysMeans(u.cons);
  }

  /** The validator reads neither the constraints list nor any description. */
  lemma ValidateProsConsIgnores(u: UnderwriterOutput, constraints: seq<Entry>,
                                pros: seq<Entry>, cons: seq<Entry>)
    requires |pros| == |u.pros| && |cons| == |u.cons|
    requires forall i :: 0 <= i < |pros| ==> pros[i].(description := None) == u.pros[i].(description := None)
    requires forall i :: 0 <= i < |cons| ==> cons[i].(description := None) == u.cons[i].(description := None)
    ensures ValidateProsCons(u.(constraints := constraints, pros := pros, cons := cons)) == ValidateProsCons(u)
  {
    AllHaveRequiredKeysMeans(u.pros);
    AllHaveRequiredKeysMeans(u.cons);
    AllHaveRequiredKeysMeans(pros);
    AllHaveRequiredKeysMeans(cons);
    forall e | e in pros ensures HasRequiredKeys(e) <==> HasRequiredKeys(u.pros[IndexOf(pros, e)]) {
      var i := IndexOf(pros, e);
      assert pros[i].(description := None) == u.pros[i].(description := None);
    }
    forall e | e in u.pros ensures HasRequiredKeys(e) <==> HasRequiredKeys(pros[IndexOf(u.pros, e)]) {
      var i := IndexOf(u.pros, e);
      assert pros[i].(description := None) == u.pros[i].(description := None);
    }
    forall e | e in cons ensures HasRequiredKeys(e) <==> HasRequiredKeys(u.cons[IndexOf(cons, e)]) {
      var i := IndexOf(cons, e);
      assert cons[i].(description := None) == u.cons[i].(description := None);
    }
    forall e | e in u.cons ensures HasRequiredKeys(e) <==> HasRequiredKeys(cons[IndexOf(u.cons, e)]) {
      var i := IndexOf(u.cons, e);
      assert cons[i].(description := None) == u.cons[i].(description := None);
    }
  }

  function IndexOf(entries: seq<Entry>, e: Entry): (i: nat)
    requires e in entries
    ensures i < |entries| && entries[i] == e
  {
    if entries[0] == e then 0 else 1 + IndexOf(entries[1..], e)
  }

  /** The final output for a region's panel: one output of each analyst, the region and a time stamp. */
  datatype RegionPanelOutput = RegionPanelOutput(
    regionId: string,
    budgetAnalysis: BudgetOutput,
    policyAnalysis: PolicyOutput,
    underwriterAnalysis: UnderwriterOutput,
    generatedAt: string)
  {
    predicate Valid() {
      budgetAnalysis.Valid() && policyAnalysis.Valid() && underwriterAnalysis.Valid()
    }
  }
}
