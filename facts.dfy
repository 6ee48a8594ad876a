/** Extracted facts: one piece of information about a region, with the citations that support it. */
module Facts {
  import opened Wrappers

  datatype FactType = Budget | Zoning | Proposal | Demographic | Development

  /** The enumeration's string value. */
  function FactTypeName(t: FactType): (r: string)
    ensures ParseFactType(r) == Some(t)
  {
    match t
    case Budget => "budget"
    case Zoning => "zoning"
    case Proposal => "proposal"
    case Demographic => "demographic"
    case Development => "development"
  }

  /** `FactType(s)`: exactly five strings name a member. */
  function ParseFactType(s: string): (r: Option<FactType>)
    ensures r.Some? <==> s in {"budget", "zoning", "proposal", "demographic", "development"}
  {
    if s == "budget" then Some(Budget)
    else if s == "zoning" then Some(Zoning)
    else if s == "proposal" then Some(Proposal)
    else if s == "demographic" then Some(Demographic)
    else if s == "development" then Some(Development)
    else None
  }

  /** A fact's value: `None` or one of the scalar kinds the field admits (floats as exact reals). */
  datatype Value = Null | Str(s: string) | Int(i: int) | Float(x: real) | Bool(b: bool)

  /** Python truthiness of a value: false exactly for `None`, the empty string and the values equal
      to 0 (0, 0.0 and False). */
  predicate Truthy(v: Value)
    ensures Truthy(v) <==> KeyOf(v) !in {NoneKey, StrKey(""), NumKey(0.0)}
  {
    match v
    case Null => false
    case Str(s) => |s| > 0
    case Int(i) => i != 0
    case Float(x) => x != 0.0
    case Bool(b) => b
  }

  /** What a Python set compares values by: numbers (and booleans) by numeric value, strings by text. */
  datatype HashKey = NoneKey | NumKey(x: real) | StrKey(s: string)

  /** The key a value is compared by: `None` equals only `None`, and a string equals only a string. */
  function KeyOf(v: Value): (r: HashKey)
    ensures r == NoneKey <==> v == Null
    ensures r.StrKey? <==> v.Str?
  {
    match v
    case Null => NoneKey
    case Str(s) => StrKey(s)
    case Int(i) => NumKey(i as real)
    case Float(x) => NumKey(x)
    case Bool(b) => NumKey(if b then 1.0 else 0.0)
  }

  /** Python's numeric equality: `True == 1 == 1.0` and `False == 0 == 0.0`, while the string "1" is
      no number; so a set holds at most one of 1, 1.0 and True. */
  lemma NumbersCompareByValue()
    ensures KeyOf(Bool(true)) == KeyOf(Int(1)) == KeyOf(Float(1.0))
    ensures KeyOf(Bool(false)) == KeyOf(Int(0)) == KeyOf(Float(0.0))
    ensures KeyOf(Str("1")) != KeyOf(Int(1))
  {
  }

  /** The extraction timestamp is not modelled. */
  datatype ExtractedFact = ExtractedFact(
    id: string,
    regionId: string,
    factType: FactType,
    key: string,
    value: Value,
    unit: Option<string>,
    timeframe: Option<string>,
    citationIds: seq<string>,
    missingReason: Option<string>)

  predicate Cited(f: ExtractedFact) {
    |f.citationIds| > 0
  }

  const MissingCitationMessage: string :=
    "has a value but no citations. All facts with values MUST have at least one citation."

  /** `model_validate_citations`: a fact that carries a value must carry a citation. */
  function ValidateCitations(f: ExtractedFact): (r: Outcome)
    ensures r == Pass <==> f.value == Null || Cited(f)
  {
    if f.value != Null && |f.citationIds| == 0 then Fail("Fact " + f.id + " " + MissingCitationMessage)
    else Pass
  }

  /** A fact with no value needs no citation. */
  lemma NullValuePasses(f: ExtractedFact)
    requires f.value == Null
    ensures ValidateCitations(f) == Pass
  {
  }

  /** A cited fact passes whatever its value. */
  lemma CitedFactPasses(f: ExtractedFact)
    requires Cited(f)
    ensures ValidateCitations(f) == Pass
  {
  }

  // Views of a list of facts, each following the list from its end so that a loop over a prefix
  // extends it by one element.

  /** `[f for f in facts if f.fact_type == t]`. */
  function OfType(facts: seq<ExtractedFact>, t: FactType): (r: seq<ExtractedFact>)
    ensures |r| <= |facts|
    ensures forall f :: f in r ==> f in facts && f.factType == t
    decreases |facts|
  {
    if |facts| == 0 then []
    else OfType(facts[..|facts| - 1], t) + (if facts[|facts| - 1].factType == t then [facts[|facts| - 1]] else [])
  }

  /** `[f for f in facts if f.fact_type == t and f.citation_ids]`. */
  function CitedOfType(facts: seq<ExtractedFact>, t: FactType): (r: seq<ExtractedFact>)
    ensures forall f :: f in r ==> f in facts && f.factType == t && Cited(f)
    decreases |facts|
  {
    if |facts| == 0 then []
    else
      var f := facts[|facts| - 1];
      CitedOfType(facts[..|facts| - 1], t) + (if f.factType == t && Cited(f) then [f] else [])
  }

  /** `sum(1 for f in facts if f.citation_ids)`. */
  function CitedCount(facts: seq<ExtractedFact>): (n: nat)
    ensures n <= |facts|
    decreases |facts|
  {
    if |facts| == 0 then 0
    else CitedCount(facts[..|facts| - 1]) + (if Cited(facts[|facts| - 1]) then 1 else 0)
  }

  /** `min(cited / max(len(facts), 1), 1.0)`: the share of facts that carry a citation. */
  function CitedFraction(facts: seq<ExtractedFact>): (r: real)
    ensures 0.0 <= r <= 1.0
    ensures |facts| == 0 ==> r == 0.0
  {
    var n := if |facts| > 1 then |facts| else 1;
    var q := (CitedCount(facts) as real) / (n as real);
    if q < 1.0 then q else 1.0
  }

  lemma {:induction false} CitedCountAll(facts: seq<ExtractedFact>)
    ensures CitedCount(facts) == |facts| <==> forall f :: f in facts ==> Cited(f)
    decreases |facts|
  {
    if |facts| > 0 {
      var p := facts[..|facts| - 1];
      CitedCountAll(p);
      assert facts == p + [facts[|facts| - 1]];
    }
  }

  lemma {:induction false} CitedCountNone(facts: seq<ExtractedFact>)
    ensures CitedCount(facts) == 0 <==> forall f :: f in facts ==> !Cited(f)
    decreases |facts|
  {
    if |facts| > 0 {
      var p := facts[..|facts| - 1];
      CitedCountNone(p);
      assert facts == p + [facts[|facts| - 1]];
    }
  }

  /** The confidence of a non-empty list is 1 exactly when every fact is cited. */
  lemma CitedFractionOne(facts: seq<ExtractedFact>)
    requires |facts| > 0
    ensures CitedFraction(facts) == 1.0 <==> forall f :: f in facts ==> Cited(f)
  {
    CitedCountAll(facts);
    var c, n := CitedCount(facts) as real, |facts| as real;
    if c < n {
      assert c / n < 1.0;
    }
  }

  /** The confidence is 0 exactly when no fact is cited. */
  lemma CitedFractionZero(facts: seq<ExtractedFact>)
    ensures CitedFraction(facts) == 0.0 <==> forall f :: f in facts ==> !Cited(f)
  {
    CitedCountNone(facts);
    if |facts| > 0 && CitedCount(facts) > 0 {
      var c, n := CitedCount(facts) as real, |facts| as real;
      assert c / n > 0.0;
    }
  }

  /** The elements of a list of strings: `set(xs)`. */
  function SetOf(xs: seq<string>): (r: set<string>)
    ensures forall x :: x in r <==> x in xs
  {
    set i | 0 <= i < |xs| :: xs[i]
  }

  /** The union of the facts' citation ids. */
  function CitationSet(facts: seq<ExtractedFact>): set<string>
    decreases |facts|
  {
    if |facts| == 0 then {}
    else CitationSet(facts[..|facts| - 1]) + SetOf(facts[|facts| - 1].citationIds)
  }

  /** The facts' citation ids, concatenated in order. */
  function CitationsOf(facts: seq<ExtractedFact>): seq<string>
    decreases |facts|
  {
    if |facts| == 0 then [] else CitationsOf(facts[..|facts| - 1]) + facts[|facts| - 1].citationIds
  }

  /** `[f.id for f in facts]`. */
  function Ids(facts: seq<ExtractedFact>): (r: seq<string>)
    ensures |r| == |facts| && forall i :: 0 <= i < |facts| ==> r[i] == facts[i].id
  {
    seq(|facts|, i requires 0 <= i < |facts| => facts[i].id)
  }

  lemma {:induction false} CitationSetMembers(facts: seq<ExtractedFact>, c: string)
    ensures c in CitationSet(facts) <==> exists f :: f in facts && c in f.citationIds
    decreases |facts|
  {
    if |facts| > 0 {
      var p, f := facts[..|facts| - 1], facts[|facts| - 1];
      CitationSetMembers(p, c);
      assert facts == p + [f];
      if c in CitationSet(facts) && c !in CitationSet(p) {
        assert c in f.citationIds;
      }
    }
  }

  /** Concatenating the citation lists and then taking a set is the union of the citation sets. */
  lemma {:induction false} CitationsOfSet(facts: seq<ExtractedFact>)
    ensures SetOf(CitationsOf(facts)) == CitationSet(facts)
    decreases |facts|
  {
    if |facts| > 0 {
      CitationsOfSet(facts[..|facts| - 1]);
    }
  }

  /** Keeping the facts of one type: membership is exactly type and presence. */
  lemma {:induction false} OfTypeMembers(facts: seq<ExtractedFact>, t: FactType, f: ExtractedFact)
    ensures f in OfType(facts, t) <==> f in facts && f.factType == t
    decreases |facts|
  {
    if |facts| > 0 {
      var p := facts[..|facts| - 1];
      OfTypeMembers(p, t, f);
      assert facts == p + [facts[|facts| - 1]];
    }
  }

  /** Filtering distributes over concatenation, so the input order is kept. */
  lemma {:induction false} OfTypeAppend(xs: seq<ExtractedFact>, ys: seq<ExtractedFact>, t: FactType)
    ensures OfType(xs + ys, t) == OfType(xs, t) + OfType(ys, t)
    decreases |ys|
  {
    if |ys| > 0 {
      var p := ys[..|ys| - 1];
      assert (xs + ys)[..|xs + ys| - 1] == xs + p;
      OfTypeAppend(xs, p, t);
    } else {
      assert xs + ys == xs;
    }
  }

  /** No fact of type `t`: nothing is kept. */
  lemma {:induction false} NoneOfType(facts: seq<ExtractedFact>, t: FactType)
    requires forall f :: f in facts ==> f.factType != t
    ensures OfType(facts, t) == []
    decreases |facts|
  {
    if |facts| > 0 {
      NoneOfType(facts[..|facts| - 1], t);
    }
  }

  /** Filtering twice by the same type changes nothing more. */
  lemma {:induction false} OfTypeIdempotent(facts: seq<ExtractedFact>, t: FactType)
    ensures OfType(OfType(facts, t), t) == OfType(facts, t)
    decreases |facts|
  {
    if |facts| > 0 {
      var p, f := facts[..|facts| - 1], facts[|facts| - 1];
      OfTypeIdempotent(p, t);
      OfTypeAppend(OfType(p, t), if f.factType == t then [f] else [], t);
      if f.factType == t {
        assert [f][..0] == [];
      }
    }
  }

  /** Filtering by one type removes the facts of every other type. */
  lemma {:induction false} OfTypeOther(facts: seq<ExtractedFact>, t: FactType, u: FactType)
    requires t != u
    ensures OfType(OfType(facts, t), u) == []
    decreases |facts|
  {
    if |facts| > 0 {
      var p, f := facts[..|facts| - 1], facts[|facts| - 1];
      OfTypeOther(p, t, u);
      OfTypeAppend(OfType(p, t), if f.factType == t then [f] else [], u);
      if f.factType == t {
        assert [f][..0] == [];
      }
    }
  }
}
