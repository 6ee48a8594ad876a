/** The shared state of an agent workflow: one optional record holding the inputs, the three analyst
    outputs, an event log, a score table, a constraint list and a plan-variant list. */
module SharedState {
  import opened Wrappers
  import opened Sources
  import opened Facts
  import opened AgentOutputs

  datatype AgentState = AgentState(
    regionId: string,
    facts: seq<ExtractedFact>,
    citations: seq<Citation>,
    budgetOutput: Option<BudgetOutput>,
    policyOutput: Option<PolicyOutput>,
    underwriterOutput: Option<UnderwriterOutput>,
    events: seq<string>,
    scores: map<string, Option<int>>,
    constraints: seq<string>,
    planVariants: seq<string>)

  const FundingStrength: string := "funding_strength"
  const ZoningFlexibility: string := "zoning_flexibility"
  const ProposalMomentum: string := "proposal_momentum"
  const Feasibility: string := "feasibility"

  const BudgetCompleted: string := "Budget analysis completed"
  const PolicyCompleted: string := "Policy analysis completed"

  function VerdictEvent(v: Verdict): string {
    "Underwriter verdict: " + VerdictName(v)
  }

  predicate NoDuplicates(xs: seq<string>) {
    forall i, j :: 0 <= i < j < |xs| ==> xs[i] != xs[j]
  }

  /** `scores[name] = score` when the score is present; the table is unchanged otherwise. */
  function RecordScore(scores: map<string, Option<int>>, name: string, score: Option<int>): map<string, Option<int>> {
    if score.Some? then scores[name := score] else scores
  }

  // The state after each operation, as a function of the state before

  /** A fresh state: no output, no event, and lists that trivially hold no repeats. */
  function Initial(regionId: string, facts: seq<ExtractedFact>, citations: seq<Citation>): (r: AgentState)
    ensures r.regionId == regionId && r.facts == facts && r.events == []
    ensures NoDuplicates(r.constraints) && NoDuplicates(r.planVariants)
  {
    AgentState(regionId, facts, citations, None, None, None, [], map[], [], [])
  }

  /** One event more, and the lists unchanged. */
  function AfterBudget(s: AgentState, o: BudgetOutput): (r: AgentState)
    ensures |r.events| == |s.events| + 1 && r.events[..|s.events|] == s.events
    ensures r.constraints == s.constraints && r.planVariants == s.planVariants
  {
    s.(budgetOutput := Some(o), events := s.events + [BudgetCompleted],
       scores := RecordScore(s.scores, FundingStrength, o.fundingStrengthScore))
  }

  /** `constraints.extend(output.constraints)` when there are any; extending by nothing is the same. */
  function AfterPolicy(s: AgentState, o: PolicyOutput): (r: AgentState)
    ensures |r.events| == |s.events| + 1 && r.events[..|s.events|] == s.events
    ensures |r.constraints| == |s.constraints| + |o.constraints| && r.constraints[..|s.constraints|] == s.constraints
    ensures r.planVariants == s.planVariants
  {
    s.(policyOutput := Some(o), events := s.events + [PolicyCompleted],
       scores := RecordScore(RecordScore(s.scores, ZoningFlexibility, o.zoningFlexibilityScore),
                             ProposalMomentum, o.proposalMomentumScore),
       constraints := s.constraints + o.constraints)
  }

  /** The events the loop over `entries` appends: one, `prefix + description`, per entry that has a
      description. */
  function DescriptionEvents(prefix: string, entries: seq<Entry>): seq<string>
    decreases |entries|
  {
    if |entries| == 0 then []
    else
      var e := entries[|entries| - 1];
      DescriptionEvents(prefix, entries[..|entries| - 1])
        + (if e.description.Some? then [prefix + e.description.value] else [])
  }

  /** `cs` after the loop over the cons appended each description not yet present. */
  function AddAbsent(cs: seq<string>, cons: seq<Entry>): seq<string>
    decreases |cons|
  {
    if |cons| == 0 then cs
    else
      var before := AddAbsent(cs, cons[..|cons| - 1]);
      var e := cons[|cons| - 1];
      if e.description.Some? && e.description.value !in before then before + [e.description.value] else before
  }

  /** The event log grows from its old end; a repeat-free constraint list stays repeat-free. */
  function AfterUnderwriter(s: AgentState, o: UnderwriterOutput): (r: AgentState)
    ensures |r.events| > |s.events| && r.events[..|s.events|] == s.events
    ensures NoDuplicates(s.constraints) ==> NoDuplicates(r.constraints)
    ensures |s.planVariants| <= |r.planVariants| <= |s.planVariants| + 1 && r.planVariants[..|s.planVariants|] == s.planVariants
  {
    AddAbsentProperties(s.constraints, o.cons);
    s.(underwriterOutput := Some(o),
       events := s.events + [VerdictEvent(o.verdict)] + DescriptionEvents("Pro: ", o.pros)
                 + DescriptionEvents("Con: ", o.cons),
       scores := RecordScore(s.scores, Feasibility, o.feasibilityScore),
       planVariants := if o.planVariant != PlanUnknown then s.planVariants + [PlanVariantName(o.planVariant)]
                       else s.planVariants,
       constraints := AddAbsent(s.constraints, o.cons))
  }

  function WithEvent(s: AgentState, event: string): AgentState {
    s.(events := s.events + [event])
  }

  function WithScore(s: AgentState, name: string, value: Option<int>): AgentState {
    s.(scores := s.scores[name := value])
  }

  function WithConstraint(s: AgentState, c: string): AgentState {
    if c in s.constraints then s else s.(constraints := s.constraints + [c])
  }

  function WithPlanVariant(s: AgentState, v: string): AgentState {
    if v in s.planVariants then s else s.(planVariants := s.planVariants + [v])
  }

  /** The manager. Every mutator does nothing until a state has been initialised. */
  class SharedStateManager {
    var state: Option<AgentState>

    constructor()
      ensures state == None
    {
      state := None;
    }

    /** Replaces any previous state by a fresh one and returns it. */
    method InitializeState(regionId: string, facts: seq<ExtractedFact>, citations: seq<Citation>)
      returns (s: AgentState)
      modifies this
      ensures state == Some(Initial(regionId, facts, citations)) && s == state.value
      ensures s.events == [] && s.scores == map[] && s.constraints == [] && s.planVariants == []
      ensures s.budgetOutput.None? && s.policyOutput.None? && s.underwriterOutput.None?
    {
      state := Some(AgentState(regionId, facts, citations, None, None, None, [], map[], [], []));
      s := state.value;
    }

    method UpdateBudgetOutput(o: BudgetOutput)
      modifies this
      ensures old(state).None? ==> state == None
      ensures old(state).Some? ==> state == Some(AfterBudget(old(state).value, o))
    {
      if state.Some? {
        var s := state.value;
        s := s.(budgetOutput := Some(o));
        s := s.(events := s.events + [BudgetCompleted]);
        if o.fundingStrengthScore.Some? {
          s := s.(scores := s.scores[FundingStrength := o.fundingStrengthScore]);
        }
        state := Some(s);
      }
    }

    method UpdatePolicyOutput(o: PolicyOutput)
      modifies this
      ensures old(state).None? ==> state == None
      ensures old(state).Some? ==> state == Some(AfterPolicy(old(state).value, o))
    {
      if state.Some? {
        var s := state.value;
        s := s.(policyOutput := Some(o));
        s := s.(events := s.events + [PolicyCompleted]);
        if o.zoningFlexibilityScore.Some? {
          s := s.(scores := s.scores[ZoningFlexibility := o.zoningFlexibilityScore]);
        }
        if o.proposalMomentumScore.Some? {
          s := s.(scores := s.scores[ProposalMomentum := o.proposalMomentumScore]);
        }
        if |o.constraints| > 0 {
          s := s.(constraints := s.constraints + o.constraints);
        } else {
          assert s.constraints + o.constraints == s.constraints;
        }
        state := Some(s);
      }
    }

    /** The verdict event, the feasibility score and the plan variant, then one loop over the pros and
        one over the cons. */
    method UpdateUnderwriterOutput(o: UnderwriterOutput)
      modifies this
      ensures old(state).None? ==> state == None
      ensures old(state).Some? ==> state == Some(AfterUnderwriter(old(state).value, o))
    {
      if state.Some? {
        var s0 := state.value;
        var s := s0;
        s := s.(underwriterOutput := Some(o));
        s := s.(events := s.events + [VerdictEvent(o.verdict)]);
        if o.feasibilityScore.Some? {
          s := s.(scores := s.scores[Feasibility := o.feasibilityScore]);
        }
        if o.planVariant != PlanUnknown {
          s := s.(planVariants := s.planVariants + [PlanVariantName(o.planVariant)]);
        }
        var afterVerdict := s.events;
        var events := afterVerdict;
        var i := 0;
        while i < |o.pros|
          invariant 0 <= i <= |o.pros|
          invariant events == afterVerdict + DescriptionEvents("Pro: ", o.pros[..i])
        {
          assert o.pros[..i + 1][..i] == o.pros[..i];
          var pro := o.pros[i];
          if pro.description.Some? {
            events := events + ["Pro: " + pro.description.value];
          }
          i := i + 1;
        }
        assert o.pros[..i] == o.pros;
        var afterPros := events;
        var constraints := s.constraints;
        var j := 0;
        while j < |o.cons|
          invariant 0 <= j <= |o.cons|
          invariant events == afterPros + DescriptionEvents("Con: ", o.cons[..j])
          invariant constraints == AddAbsent(s0.constraints, o.cons[..j])
        {
          assert o.cons[..j + 1][..j] == o.cons[..j];
          var con := o.cons[j];
          if con.description.Some? {
            events := events + ["Con: " + con.description.value];
          }
          if con.description.Some? && con.description.value !in constraints {
            constraints := constraints + [con.description.value];
          }
          j := j + 1;
        }
        assert o.cons[..j] == o.cons;
        s := s.(events := events, constraints := constraints);
        state := Some(s);
      }
    }

    method GetState() returns (s: Option<AgentState>)
      ensures s == state
    {
      s := state;
    }

    method AddEvent(event: string)
      modifies this
      ensures old(state).None? ==> state == None
      ensures old(state).Some? ==> state == Some(WithEvent(old(state).value, event))
    {
      if state.Some? {
        state := Some(state.value.(events := state.value.events + [event]));
      }
    }

    method AddScore(name: string, value: Option<int>)
      modifies this
      ensures old(state).None? ==> state == None
      ensures old(state).Some? ==> state == Some(WithScore(old(state).value, name, value))
    {
      if state.Some? {
        state := Some(state.value.(scores := state.value.scores[name := value]));
      }
    }

    method AddConstraint(c: string)
      modifies this
      ensures old(state).None? ==> state == None
      ensures old(state).Some? ==> state == Some(WithConstraint(old(state).value, c))
    {
      if state.Some? && c !in state.value.constraints {
        state := Some(state.value.(constraints := state.value.constraints + [c]));
      }
    }

    method AddPlanVariant(v: string)
      modifies this
      ensures old(state).None? ==> state == None
      ensures old(state).Some? ==> state == Some(WithPlanVariant(old(state).value, v))
    {
      if state.Some? && v !in state.value.planVariants {
        state := Some(state.value.(planVariants := state.value.planVariants + [v]));
      }
    }
  }

  // Properties

  /** Adding a constraint or a plan variant twice is the same as adding it once. */
  lemma AddIdempotent(s: AgentState, c: string, v: string)
    ensures WithConstraint(WithConstraint(s, c), c) == WithConstraint(s, c)
    ensures WithPlanVariant(WithPlanVariant(s, v), v) == WithPlanVariant(s, v)
  {
  }

  /** Used alone, `add_constraint` and `add_plan_variant` keep their lists free of duplicates, and the
      value is in the list afterwards. */
  lemma AddKeepsNoDuplicates(s: AgentState, c: string, v: string)
    requires NoDuplicates(s.constraints) && NoDuplicates(s.planVariants)
    ensures NoDuplicates(WithConstraint(s, c).constraints) && c in WithConstraint(s, c).constraints
    ensures NoDuplicates(WithPlanVariant(s, v).planVariants) && v in WithPlanVariant(s, v).planVariants
  {
  }

  /** The budget update appends exactly one event, writes the funding score only when present, and
      leaves every other score as it was. */
  lemma BudgetUpdateScores(s: AgentState, o: BudgetOutput)
    ensures var t := AfterBudget(s, o);
      t.events == s.events + [BudgetCompleted]
      && (o.fundingStrengthScore.Some? ==> FundingStrength in t.scores && t.scores[FundingStrength] == o.fundingStrengthScore)
      && (o.fundingStrengthScore.None? ==> t.scores == s.scores)
      && forall k :: k != FundingStrength ==>
           ((k in t.scores <==> k in s.scores) && (k in s.scores ==> t.scores[k] == s.scores[k]))
  {
  }

  /** The policy update extends the constraints by the policy output's, in order and without
      removing repeats. */
  lemma PolicyExtendsConstraints(s: AgentState, o: PolicyOutput)
    ensures var t := AfterPolicy(s, o);
      |t.constraints| == |s.constraints| + |o.constraints|
      && t.constraints[..|s.constraints|] == s.constraints
      && forall i :: 0 <= i < |o.constraints| ==> t.constraints[|s.constraints| + i] == o.constraints[i]
  {
  }

  /** A counterexample: the policy update may leave repeated constraints. */
  lemma PolicyMayRepeatConstraints()
    ensures var s := Initial("r", [], []).(constraints := ["c"]);
      !NoDuplicates(AfterPolicy(s, PolicyOutput(None, None, [], ["c"], 0.0, 0, {})).constraints)
  {
    var s := Initial("r", [], []).(constraints := ["c"]);
    var t := AfterPolicy(s, PolicyOutput(None, None, [], ["c"], 0.0, 0, {}));
    assert t.constraints == ["c", "c"];
    assert t.constraints[0] == t.constraints[1];
  }

  function Described(entries: seq<Entry>): nat
    decreases |entries|
  {
    if |entries| == 0 then 0
    else Described(entries[..|entries| - 1]) + (if entries[|entries| - 1].description.Some? then 1 else 0)
  }

  lemma {:induction false} DescriptionEventsCount(prefix: string, entries: seq<Entry>)
    ensures |DescriptionEvents(prefix, entries)| == Described(entries)
    decreases |entries|
  {
    if |entries| > 0 {
      DescriptionEventsCount(prefix, entries[..|entries| - 1]);
    }
  }

  /** The underwriter update appends one verdict event, one event per described pro and one per
      described con; it appends the plan variant unless it is unknown, without checking for repeats. */
  lemma UnderwriterUpdateEvents(s: AgentState, o: UnderwriterOutput)
    ensures var t := AfterUnderwriter(s, o);
      |t.events| == |s.events| + 1 + Described(o.pros) + Described(o.cons)
      && t.events[..|s.events| + 1] == s.events + [VerdictEvent(o.verdict)]
      && (o.planVariant == PlanUnknown ==> t.planVariants == s.planVariants)
      && (o.planVariant != PlanUnknown ==> t.planVariants == s.planVariants + [PlanVariantName(o.planVariant)])
  {
    DescriptionEventsCount("Pro: ", o.pros);
    DescriptionEventsCount("Con: ", o.cons);
    var t := AfterUnderwriter(s, o);
    assert t.events == (s.events + [VerdictEvent(o.verdict)])
      + (DescriptionEvents("Pro: ", o.pros) + DescriptionEvents("Con: ", o.cons));
  }

  /** The constraints after the cons loop: the old ones first, then each con description not already
      present, so a list free of duplicates stays free of them and every con description ends up in
      it. */
  lemma {:induction false} AddAbsentProperties(cs: seq<string>, cons: seq<Entry>)
    ensures var r := AddAbsent(cs, cons);
      |r| >= |cs| && r[..|cs|] == cs
      && (NoDuplicates(cs) ==> NoDuplicates(r))
      && (forall e :: e in cons && e.description.Some? ==> e.description.value in r)
      && (forall x :: x in r ==> x in cs || exists e :: e in cons && e.description == Some(x))
    decreases |cons|
  {
    if |cons| > 0 {
      var p := cons[..|cons| - 1];
      AddAbsentProperties(cs, p);
      var before := AddAbsent(cs, p);
      var e := cons[|cons| - 1];
      assert cons == p + [e];
      if e.description.Some? && e.description.value !in before {
        var r := before + [e.description.value];
        assert r[..|cs|] == before[..|cs|];
      }
    }
  }

  /** No operation removes or reorders an event: the old log is always a prefix of the new one. */
  lemma EventsOnlyGrow(s: AgentState, b: BudgetOutput, p: PolicyOutput, u: UnderwriterOutput,
                       event: string, name: string, value: Option<int>, c: string, v: string)
    ensures s.events <= AfterBudget(s, b).events
    ensures s.events <= AfterPolicy(s, p).events
    ensures s.events <= AfterUnderwriter(s, u).events
    ensures s.events <= WithEvent(s, event).events
    ensures WithScore(s, name, value).events == s.events
    ensures WithConstraint(s, c).events == s.events && WithPlanVariant(s, v).events == s.events
  {
    assert AfterUnderwriter(s, u).events ==
      s.events + ([VerdictEvent(u.verdict)] + DescriptionEvents("Pro: ", u.pros) + DescriptionEvents("Con: ", u.cons));
  }

  /** `add_score` overwrites: the last value written under a name is the one kept, whatever was there. */
  lemma ScoreOverwrites(s: AgentState, name: string, v1: Option<int>, v2: Option<int>)
    ensures WithScore(WithScore(s, name, v1), name, v2) == WithScore(s, name, v2)
    ensures WithScore(s, name, v2).scores[name] == v2
  {
  }
}
