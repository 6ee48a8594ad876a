/** The Budget Analyst: a funding-strength score, the key allocations and a confidence, computed from
    the budget facts of a region. */
module BudgetAnalyst {
  import opened Wrappers
  import opened Ints
  import opened Facts
  import opened AgentOutputs

  /** A fact becomes a key allocation when its value is truthy and it has a citation. */
  predicate Allocatable(f: ExtractedFact) {
    Truthy(f.value) && Cited(f)
  }

  /** `fact.unit or "CAD"`. */
  function UnitOrCad(unit: Option<string>): (r: string)
    ensures |r| > 0
  {
    if unit.Some? && |unit.value| > 0 then unit.value else "CAD"
  }

  function ToAllocation(f: ExtractedFact): Allocation {
    Allocation(f.key, f.value, UnitOrCad(f.unit), f.timeframe, f.citationIds)
  }

  /** The allocations the loop has appended after visiting `facts`. */
  function Allocations(facts: seq<ExtractedFact>): (r: seq<Allocation>)
    ensures |r| <= |facts|
    ensures forall a :: a in r ==> |a.citationIds| > 0 && |a.unit| > 0
    decreases |facts|
  {
    if |facts| == 0 then []
    else
      var f := facts[|facts| - 1];
      Allocations(facts[..|facts| - 1]) + (if Allocatable(f) then [ToAllocation(f)] else [])
  }

  /** The citation ids the loop has collected after visiting `facts`. */
  function AllocatedCitations(facts: seq<ExtractedFact>): (r: set<string>)
    ensures r <= CitationSet(facts)
    decreases |facts|
  {
    if |facts| == 0 then {}
    else
      var f := facts[|facts| - 1];
      AllocatedCitations(facts[..|facts| - 1]) + (if Allocatable(f) then SetOf(f.citationIds) else {})
  }

  /** The score arithmetic for `n` budget facts, step by step as the analyst does it. */
  function FundingScore(n: nat): (r: Option<int>)
    ensures r.None? <==> n < 2
    ensures n == 2 ==> r == Some(0)
    ensures n >= 3 ==> r == Some(Min(10 * n, 100))
  {
    var score := Min(n * 10, 100);
    var adjusted: Option<int> :=
      if n < 3 then (if score != 0 then Some(Max(score - 20, 0)) else None) else Some(score);
    if n >= 2 then adjusted else None
  }

  /** The output when there is no budget fact. */
  const NoBudgetOutput: BudgetOutput := BudgetOutput(None, [], 0.0, 0, {})

  /** `BudgetAnalyst.analyze`, as a function of the facts (the citations argument is unused). */
  function Budget(facts: seq<ExtractedFact>): (r: BudgetOutput)
    ensures r.Valid()
    ensures r.evidenceCount == |OfType(facts, Facts.Budget)|
  {
    var budgetFacts := OfType(facts, Facts.Budget);
    if |budgetFacts| == 0 then NoBudgetOutput
    else
      BudgetOutput(
        FundingScore(|budgetFacts|),
        Allocations(budgetFacts),
        CitedFraction(budgetFacts),
        |budgetFacts|,
        AllocatedCitations(budgetFacts))
  }

  /** The analyst itself: the loop over the budget facts fills the allocations and the set of used
      citation ids. */
  method Analyze(facts: seq<ExtractedFact>) returns (out: BudgetOutput)
    ensures out == Budget(facts)
  {
    var budgetFacts := OfType(facts, Facts.Budget);
    if |budgetFacts| == 0 {
      return NoBudgetOutput;
    }
    var score := FundingScore(|budgetFacts|);
    var keyAllocations: seq<Allocation> := [];
    var used: set<string> := {};
    var i := 0;
    while i < |budgetFacts|
      invariant 0 <= i <= |budgetFacts|
      invariant keyAllocations == Allocations(budgetFacts[..i])
      invariant used == AllocatedCitations(budgetFacts[..i])
    {
      var f := budgetFacts[i];
      assert budgetFacts[..i + 1][..i] == budgetFacts[..i];
      if Truthy(f.value) && Cited(f) {
        keyAllocations := keyAllocations + [ToAllocation(f)];
        used := used + SetOf(f.citationIds);
      }
      i := i + 1;
    }
    assert budgetFacts[..i] == budgetFacts;
    out := BudgetOutput(score, keyAllocations, CitedFraction(budgetFacts), |budgetFacts|, used);
  }

  // Properties

  /** Without budget facts: no score, no allocations, no citations, confidence and evidence 0. */
  lemma NoBudgetFacts(facts: seq<ExtractedFact>)
    requires forall f :: f in facts ==> f.factType != Facts.Budget
    ensures Budget(facts) == BudgetOutput(None, [], 0.0, 0, {})
  {
    NoneOfType(facts, Facts.Budget);
  }

  /** Facts of the other types are ignored: only the budget facts decide the output. */
  lemma OnlyBudgetFactsMatter(facts: seq<ExtractedFact>)
    ensures Budget(facts) == Budget(OfType(facts, Facts.Budget))
  {
    OfTypeIdempotent(facts, Facts.Budget);
  }

  /** Adding facts of other types changes nothing. */
  lemma OtherFactsIgnored(facts: seq<ExtractedFact>, others: seq<ExtractedFact>)
    requires forall f :: f in others ==> f.factType != Facts.Budget
    ensures Budget(facts + others) == Budget(facts)
  {
    OfTypeAppend(facts, others, Facts.Budget);
    NoneOfType(others, Facts.Budget);
    assert OfType(facts, Facts.Budget) + [] == OfType(facts, Facts.Budget);
  }

  /** The confidence is the share of budget facts that carry a citation. */
  lemma ConfidenceIsCitedShare(facts: seq<ExtractedFact>)
    ensures var b := OfType(facts, Facts.Budget);
      Budget(facts).confidence == (if |b| == 0 then 0.0 else CitedCount(b) as real / |b| as real)
  {
    var b := OfType(facts, Facts.Budget);
    if |b| > 0 {
      FractionAtMostOne(CitedCount(b), |b|);
    }
  }

  /** Allocations follow the facts' order: the allocation of a concatenation is the concatenation. */
  lemma {:induction false} AllocationsAppend(xs: seq<ExtractedFact>, ys: seq<ExtractedFact>)
    ensures Allocations(xs + ys) == Allocations(xs) + Allocations(ys)
    decreases |ys|
  {
    if |ys| == 0 {
      assert xs + ys == xs;
    } else {
      var p := ys[..|ys| - 1];
      assert (xs + ys)[..|xs + ys| - 1] == xs + p;
      AllocationsAppend(xs, p);
    }
  }

  lemma {:induction false} AllocationsMembers(facts: seq<ExtractedFact>, a: Allocation)
    ensures a in Allocations(facts) <==> exists f :: f in facts && Allocatable(f) && a == ToAllocation(f)
    decreases |facts|
  {
    if |facts| > 0 {
      var p, f := facts[..|facts| - 1], facts[|facts| - 1];
      AllocationsMembers(p, a);
      assert facts == p + [f];
    }
  }

  /** The key allocations are exactly the budget facts with a truthy value and a citation, each
      with its unit defaulting to "CAD". */
  lemma KeyAllocationsExact(facts: seq<ExtractedFact>, a: Allocation)
    ensures a in Budget(facts).keyAllocations <==>
      exists f :: f in facts && f.factType == Facts.Budget && Allocatable(f) && a == ToAllocation(f)
  {
    var b := OfType(facts, Facts.Budget);
    AllocationsMembers(b, a);
    forall f ensures f in b <==> f in facts && f.factType == Facts.Budget {
      OfTypeMembers(facts, Facts.Budget, f);
    }
  }

  lemma {:induction false} AllocatedCitationsMembers(facts: seq<ExtractedFact>, c: string)
    ensures c in AllocatedCitations(facts) <==>
      exists a :: a in Allocations(facts) && c in a.citationIds
    decreases |facts|
  {
    if |facts| > 0 {
      var p, f := facts[..|facts| - 1], facts[|facts| - 1];
      AllocatedCitationsMembers(p, c);
      if Allocatable(f) && c in f.citationIds {
        assert ToAllocation(f) in Allocations(facts);
      }
    }
  }

  /** The output's citation ids are the union of the citations of the allocated facts only. */
  lemma CitationsOfAllocationsOnly(facts: seq<ExtractedFact>, c: string)
    ensures c in Budget(facts).citationIds <==>
      exists a :: a in Budget(facts).keyAllocations && c in a.citationIds
  {
    var b := OfType(facts, Facts.Budget);
    if |b| > 0 {
      AllocatedCitationsMembers(b, c);
    }
  }
}
