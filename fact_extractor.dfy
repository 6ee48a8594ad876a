/** The fact extractor: one citation per source, numbered by a counter the extractor keeps, and the
    facts each stored document yields, each citing its own source.

    The regular expressions, the HTML and PDF text extraction and the `int()`/`float()` parses are
    not modelled: a stored document is represented by what they yield (`Document`), and the file
    system by a map from path to file. */
module FactExtractor {
  import opened Wrappers
  import opened Text
  import opened Config
  import opened Sources
  import opened Facts

  /** What one stored document yields: its text (`soup.get_text()` for HTML, the pages' text joined
      by new lines for PDF), then, in order, what each pattern matched. Lists that gather several
      patterns hold the first pattern's matches, then the second's, and so on. */
  datatype Document = Document(
    text: string,
    budgetMatches: seq<string>,       // the three amount patterns
    yearMatch: Option<string>,        // the first year mention
    zoningCodes: seq<string>,         // the zoning-code pattern
    proposalIds: seq<string>,         // the four application/permit patterns, the captured id
    populations: seq<Option<int>>,    // `int(...)` of each population match; None where it raises
    growthRates: seq<Option<real>>)   // `float(...)` of each growth match; None where it raises

  /** A file that exists: one the reader fails on, or one that yields a document. */
  datatype DocFile = Unreadable | Readable(doc: Document)

  type FileSystem = map<string, DocFile>

  const ZoningKeywords: seq<string> := ["residential", "commercial", "industrial", "mixed-use", "density"]
  const StatusKeywords: seq<string> := ["approved", "pending", "under review", "rejected", "withdrawn"]

  // Citations

  /** `f"cite_{n:04d}"`. */
  function CiteId(n: nat): string {
    "cite_" + Padded4(n)
  }

  function CitationFor(source: DiscoveredSource, n: nat): Citation {
    Citation(CiteId(n), source.title, source.uri, None, source.retrievedAt)
  }

  /** The citations the loop creates for `sources` when the counter stands at `start`. */
  function CitationsFor(sources: seq<DiscoveredSource>, start: nat): (r: seq<Citation>)
    ensures |r| == |sources|
    decreases |sources|
  {
    if |sources| == 0 then []
    else CitationsFor(sources[..|sources| - 1], start) + [CitationFor(sources[|sources| - 1], start + |sources|)]
  }

  // Fact numbering

  /** `f"fact_{region_id}_{kind}_{n:04d}"`. */
  function FactId(regionId: string, kind: string, n: nat): string {
    "fact_" + regionId + "_" + kind + "_" + Padded4(n)
  }

  /** A fact about to be emitted, before its counter is known. A numbered key ends in the counter
      (`budget_mention_{n}`, `zoning_code_{n}`). */
  datatype Emit = Emit(kind: string, key: string, numberedKey: bool, value: Value, unit: Option<string>)

  function Numbered(e: Emit, regionId: string, citationId: string, t: FactType, n: nat): ExtractedFact {
    ExtractedFact(FactId(regionId, e.kind, n), regionId, t,
                  if e.numberedKey then e.key + IntText(n) else e.key,
                  e.value, e.unit, None, [citationId], None)
  }

  /** The facts for `emits` when the per-source counter stands at `start`: the i-th gets `start + i + 1`. */
  function Number(emits: seq<Emit>, regionId: string, citationId: string, t: FactType, start: nat)
    : seq<ExtractedFact>
  {
    seq(|emits|, i requires 0 <= i < |emits| => Numbered(emits[i], regionId, citationId, t, start + i + 1))
  }

  // What each document type yields

  function MentionEmits(matches: seq<string>): seq<Emit> {
    seq(|matches|, i requires 0 <= i < |matches| => Emit("budget", "budget_mention_", true, Str(matches[i]), Some("CAD")))
  }

  function YearEmits(year: Option<string>): seq<Emit> {
    if year.Some? then [Emit("budget_year", "budget_year", false, Str(year.value), None)] else []
  }

  /** One emit per matched string, all of one kind and key. */
  function MatchEmits(matches: seq<string>, kind: string, key: string, numberedKey: bool): seq<Emit> {
    seq(|matches|, i requires 0 <= i < |matches| => Emit(kind, key, numberedKey, Str(matches[i]), None))
  }

  function CodeEmits(codes: seq<string>): seq<Emit> {
    MatchEmits(codes, "zoning", "zoning_code_", true)
  }

  function ProposalIdEmits(ids: seq<string>): seq<Emit> {
    MatchEmits(ids, "proposal", "proposal_id", false)
  }

  /** `keyword.lower() in text.lower()`. */
  predicate Mentioned(text: string, keyword: string) {
    Contains(Lower(text), Lower(keyword))
  }

  /** The keywords the text mentions, in list order. */
  function Present(keywords: seq<string>, text: string): seq<string>
    decreases |keywords|
  {
    if |keywords| == 0 then []
    else
      var k := keywords[|keywords| - 1];
      Present(keywords[..|keywords| - 1], text) + (if Mentioned(text, k) then [k] else [])
  }

  /** How keyword facts are keyed: zoning keywords by `zoning_keyword_{keyword}`, status keywords all
      by `proposal_status`. */
  datatype KeywordRule = KeywordRule(kind: string, key: string, keyedByWord: bool)

  const ZoningKeywordRule: KeywordRule := KeywordRule("zoning_keyword", "zoning_keyword_", true)
  const StatusKeywordRule: KeywordRule := KeywordRule("proposal_status", "proposal_status", false)

  function KeywordEmit(rule: KeywordRule, keyword: string): Emit {
    Emit(rule.kind, if rule.keyedByWord then rule.key + keyword else rule.key, false, Str(keyword), None)
  }

  function KeywordEmits(rule: KeywordRule, words: seq<string>): seq<Emit> {
    seq(|words|, i requires 0 <= i < |words| => KeywordEmit(rule, words[i]))
  }

  predicate AllParsed<T>(xs: seq<Option<T>>) {
    forall i :: 0 <= i < |xs| ==> xs[i].Some?
  }

  function PopulationEmits(populations: seq<Option<int>>): seq<Emit>
    requires AllParsed(populations)
  {
    seq(|populations|, i requires 0 <= i < |populations| =>
      Emit("demographic", "population", false, Int(populations[i].value), Some("people")))
  }

  function GrowthEmits(rates: seq<Option<real>>): seq<Emit>
    requires AllParsed(rates)
  {
    seq(|rates|, i requires 0 <= i < |rates| =>
      Emit("demographic_growth", "growth_rate", false, Float(rates[i].value), Some("percent")))
  }

  function BudgetEmits(doc: Document): seq<Emit> {
    MentionEmits(doc.budgetMatches) + YearEmits(doc.yearMatch)
  }

  function ZoningEmits(doc: Document): seq<Emit> {
    CodeEmits(doc.zoningCodes) + KeywordEmits(ZoningKeywordRule, Present(ZoningKeywords, doc.text))
  }

  function ProposalEmits(doc: Document): seq<Emit> {
    ProposalIdEmits(doc.proposalIds) + KeywordEmits(StatusKeywordRule, Present(StatusKeywords, doc.text))
  }

  /** `_extract_budget_facts`. The amount each match parses to is computed and then discarded by
      the source, so it does not appear here. */
  function BudgetFacts(doc: Document, regionId: string, citationId: string): seq<ExtractedFact> {
    Number(BudgetEmits(doc), regionId, citationId, Budget, 0)
  }

  /** `_extract_zoning_facts`: one fact per zoning code, then one per zoning keyword mentioned. */
  function ZoningFacts(doc: Document, regionId: string, citationId: string): seq<ExtractedFact> {
    Number(ZoningEmits(doc), regionId, citationId, Zoning, 0)
  }

  /** `_extract_proposal_facts`: one fact per proposal id, then one per status mentioned. */
  function ProposalFacts(doc: Document, regionId: string, citationId: string): seq<ExtractedFact> {
    Number(ProposalEmits(doc), regionId, citationId, Proposal, 0)
  }

  /** `_extract_demographic_facts`: None when a number fails to parse, which raises. */
  function DemographicFacts(doc: Document, regionId: string, citationId: string): Option<seq<ExtractedFact>> {
    if AllParsed(doc.populations) && AllParsed(doc.growthRates) then
      Some(Number(PopulationEmits(doc.populations) + GrowthEmits(doc.growthRates), regionId, citationId, Demographic, 0))
    else None
  }

  /** The per-category dispatch shared by the HTML and PDF readers; None when the extraction raises. */
  function CategoryFacts(category: SourceCategory, doc: Document, regionId: string, citationId: string)
    : Option<seq<ExtractedFact>>
  {
    match category
    case BudgetSource => Some(BudgetFacts(doc, regionId, citationId))
    case ZoningSource => Some(ZoningFacts(doc, regionId, citationId))
    case ProposalsSource => Some(ProposalFacts(doc, regionId, citationId))
    case AnalyticsSource => DemographicFacts(doc, regionId, citationId)
  }

  /** `Path(data_dir) / file_path`: an absolute path replaces the data directory. */
  function DataPath(filePath: string): (r: string)
    ensures |r| >= |filePath| && r[|r| - |filePath|..] == filePath
    ensures (|filePath| == 0 || filePath[0] != '/') ==> StartsWith(r, DataDir + "/")
  {
    if |filePath| > 0 && filePath[0] == '/' then filePath else DataDir + "/" + filePath
  }

  /** `_extract_from_source`. A source without a stored file gives no facts; so does a file the
      reader fails on, an extraction that raises, and an RSS or API source, whose readers the class
      does not define (the call raises and is caught). */
  function SourceFacts(source: DiscoveredSource, regionId: string, citationId: string, fs: FileSystem)
    : seq<ExtractedFact>
  {
    if source.filePath.None? || DataPath(source.filePath.value) !in fs then []
    else
      var file := fs[DataPath(source.filePath.value)];
      if (source.documentType == Html || source.documentType == Pdf) && file.Readable? then
        var r := CategoryFacts(source.category, file.doc, regionId, citationId);
        if r.Some? then r.value else []
      else []
  }

  /** The facts the loop over `sources` collects when the counter stands at `start`. */
  function AllFacts(sources: seq<DiscoveredSource>, regionId: string, fs: FileSystem, start: nat): seq<ExtractedFact> {
    Gathered(sources, PerSource(regionId, fs), start)
  }

  /** The extraction of one source under the citation numbered `n`. */
  function PerSource(regionId: string, fs: FileSystem): (DiscoveredSource, nat) -> seq<ExtractedFact> {
    (s: DiscoveredSource, n: nat) => SourceFacts(s, regionId, CiteId(n), fs)
  }

  /** The facts of each source in turn, the i-th extracted under the number `start + i + 1`. */
  function Gathered(sources: seq<DiscoveredSource>, extract: (DiscoveredSource, nat) -> seq<ExtractedFact>, start: nat)
    : seq<ExtractedFact>
    decreases |sources|
  {
    if |sources| == 0 then []
    else Gathered(sources[..|sources| - 1], extract, start) + extract(sources[|sources| - 1], start + |sources|)
  }

  // The extractor's loops

  lemma NumberSnoc(emits: seq<Emit>, e: Emit, regionId: string, citationId: string, t: FactType, start: nat)
    ensures Number(emits + [e], regionId, citationId, t, start)
      == Number(emits, regionId, citationId, t, start) + [Numbered(e, regionId, citationId, t, start + |emits| + 1)]
  {
  }

  lemma NumberAppend(xs: seq<Emit>, ys: seq<Emit>, regionId: string, citationId: string, t: FactType, start: nat)
    ensures Number(xs + ys, regionId, citationId, t, start)
      == Number(xs, regionId, citationId, t, start) + Number(ys, regionId, citationId, t, start + |xs|)
  {
    var all := Number(xs + ys, regionId, citationId, t, start);
    var parts := Number(xs, regionId, citationId, t, start) + Number(ys, regionId, citationId, t, start + |xs|);
    forall k | 0 <= k < |all| ensures all[k] == parts[k] {
      if k < |xs| {
        assert (xs + ys)[k] == xs[k];
      } else {
        assert (xs + ys)[k] == ys[k - |xs|];
      }
    }
  }

  method ExtractBudgetFacts(doc: Document, regionId: string, citationId: string) returns (facts: seq<ExtractedFact>)
    ensures facts == BudgetFacts(doc, regionId, citationId)
  {
    facts := [];
    var counter: nat := 0;
    var matches := doc.budgetMatches;
    while counter < |matches|
      invariant counter <= |matches|
      invariant facts == Number(MentionEmits(matches[..counter]), regionId, citationId, Budget, 0)
    {
      assert MentionEmits(matches[..counter + 1]) == MentionEmits(matches[..counter]) + [MentionEmits(matches)[counter]];
      NumberSnoc(MentionEmits(matches[..counter]), MentionEmits(matches)[counter], regionId, citationId, Budget, 0);
      var value := matches[counter];
      counter := counter + 1;
      facts := facts + [ExtractedFact(FactId(regionId, "budget", counter), regionId, Budget,
                                      "budget_mention_" + IntText(counter), Str(value), Some("CAD"), None,
                                      [citationId], None)];
    }
    assert matches[..counter] == matches;
    if doc.yearMatch.Some? {
      NumberSnoc(MentionEmits(matches), YearEmits(doc.yearMatch)[0], regionId, citationId, Budget, 0);
      counter := counter + 1;
      facts := facts + [ExtractedFact(FactId(regionId, "budget_year", counter), regionId, Budget,
                                      "budget_year", Str(doc.yearMatch.value), None, None, [citationId], None)];
    } else {
      assert BudgetEmits(doc) == MentionEmits(matches);
    }
  }

  lemma NumberStep(emits: seq<Emit>, i: nat, regionId: string, citationId: string, t: FactType, start: nat)
    requires i < |emits|
    ensures Number(emits[..i + 1], regionId, citationId, t, start)
      == Number(emits[..i], regionId, citationId, t, start) + [Numbered(emits[i], regionId, citationId, t, start + i + 1)]
  {
    assert emits[..i + 1] == emits[..i] + [emits[i]];
    NumberSnoc(emits[..i], emits[i], regionId, citationId, t, start);
  }

  lemma MatchNumbered(matches: seq<string>, i: nat, kind: string, key: string, numberedKey: bool,
                      regionId: string, citationId: string, t: FactType, n: nat)
    requires i < |matches|
    ensures Numbered(MatchEmits(matches, kind, key, numberedKey)[i], regionId, citationId, t, n)
      == ExtractedFact(FactId(regionId, kind, n), regionId, t, if numberedKey then key + IntText(n) else key,
                       Str(matches[i]), None, None, [citationId], None)
  {
  }

  /** One fact per matched string, counting on from `counter`. */
  method AppendMatchFacts(facts: seq<ExtractedFact>, counter: nat, matches: seq<string>, kind: string,
                          key: string, numberedKey: bool, regionId: string, citationId: string, t: FactType)
    returns (out: seq<ExtractedFact>, counterOut: nat)
    ensures out == facts + Number(MatchEmits(matches, kind, key, numberedKey), regionId, citationId, t, counter)
    ensures counterOut == counter + |matches|
  {
    ghost var emits := MatchEmits(matches, kind, key, numberedKey);
    out := facts;
    counterOut := counter;
    var i := 0;
    while i < |matches|
      invariant 0 <= i <= |matches| && counterOut == counter + i
      invariant out == facts + Number(emits[..i], regionId, citationId, t, counter)
    {
      NumberStep(emits, i, regionId, citationId, t, counter);
      counterOut := counterOut + 1;
      var fact := ExtractedFact(FactId(regionId, kind, counterOut), regionId, t,
                                if numberedKey then key + IntText(counterOut) else key,
                                Str(matches[i]), None, None, [citationId], None);
      MatchNumbered(matches, i, kind, key, numberedKey, regionId, citationId, t, counterOut);
      out := out + [fact];
      i := i + 1;
    }
    assert emits[..i] == emits;
  }

  /** One step of the keyword loop: a mentioned keyword adds one fact with the next counter, any
      other adds nothing. */
  lemma KeywordStep(keywords: seq<string>, i: nat, text: string, rule: KeywordRule, regionId: string,
                    citationId: string, t: FactType, counter: nat)
    requires i < |keywords|
    ensures var before := Present(keywords[..i], text);
      var after := Present(keywords[..i + 1], text);
      var facts := Number(KeywordEmits(rule, before), regionId, citationId, t, counter);
      if Mentioned(text, keywords[i]) then
        after == before + [keywords[i]]
        && Number(KeywordEmits(rule, after), regionId, citationId, t, counter)
          == facts + [Numbered(KeywordEmit(rule, keywords[i]), regionId, citationId, t, counter + |before| + 1)]
      else after == before
  {
    var before := Present(keywords[..i], text);
    assert keywords[..i + 1][..i] == keywords[..i];
    if Mentioned(text, keywords[i]) {
      assert KeywordEmits(rule, before + [keywords[i]]) == KeywordEmits(rule, before) + [KeywordEmit(rule, keywords[i])];
      NumberSnoc(KeywordEmits(rule, before), KeywordEmit(rule, keywords[i]), regionId, citationId, t, counter);
    }
  }

  /** One fact per keyword the text mentions, in list order, counting on from `counter`. */
  method AppendKeywordFacts(facts: seq<ExtractedFact>, counter: nat, keywords: seq<string>, text: string,
                            rule: KeywordRule, regionId: string, citationId: string, t: FactType)
    returns (out: seq<ExtractedFact>, counterOut: nat)
    ensures out == facts + Number(KeywordEmits(rule, Present(keywords, text)), regionId, citationId, t, counter)
    ensures counterOut == counter + |Present(keywords, text)|
  {
    out := facts;
    counterOut := counter;
    ghost var seen: seq<string> := [];
    var i := 0;
    while i < |keywords|
      invariant 0 <= i <= |keywords|
      invariant seen == Present(keywords[..i], text)
      invariant counterOut == counter + |seen|
      invariant out == facts + Number(KeywordEmits(rule, seen), regionId, citationId, t, counter)
    {
      var keyword := keywords[i];
      KeywordStep(keywords, i, text, rule, regionId, citationId, t, counter);
      if Contains(Lower(text), Lower(keyword)) {
        counterOut := counterOut + 1;
        var fact := ExtractedFact(FactId(regionId, rule.kind, counterOut), regionId, t,
                                  if rule.keyedByWord then rule.key + keyword else rule.key,
                                  Str(keyword), None, None, [citationId], None);
        assert fact == Numbered(KeywordEmit(rule, keyword), regionId, citationId, t, counterOut);
        out := out + [fact];
        seen := seen + [keyword];
      }
      i := i + 1;
    }
    assert keywords[..i] == keywords;
  }

  method ExtractZoningFacts(doc: Document, regionId: string, citationId: string) returns (facts: seq<ExtractedFact>)
    ensures facts == ZoningFacts(doc, regionId, citationId)
  {
    var counter;
    ghost var codes := CodeEmits(doc.zoningCodes);
    ghost var keywords := KeywordEmits(ZoningKeywordRule, Present(ZoningKeywords, doc.text));
    facts, counter := AppendMatchFacts([], 0, doc.zoningCodes, "zoning", "zoning_code_", true, regionId, citationId, Zoning);
    ghost var first := facts;
    facts, counter := AppendKeywordFacts(facts, counter, ZoningKeywords, doc.text, ZoningKeywordRule,
                                         regionId, citationId, Zoning);
    MatchesThenKeywords(doc.zoningCodes, "zoning", "zoning_code_", true, ZoningKeywords, doc.text, ZoningKeywordRule,
                        regionId, citationId, Zoning, first, facts);
    assert ZoningEmits(doc) == codes + keywords;
  }

  /** The facts of a match loop followed by a keyword loop under one counter. */
  lemma MatchesThenKeywords(matches: seq<string>, kind: string, key: string, numberedKey: bool,
                            keywords: seq<string>, text: string, rule: KeywordRule,
                            regionId: string, citationId: string, t: FactType,
                            first: seq<ExtractedFact>, all: seq<ExtractedFact>)
    requires first == Number(MatchEmits(matches, kind, key, numberedKey), regionId, citationId, t, 0)
    requires all == first + Number(KeywordEmits(rule, Present(keywords, text)), regionId, citationId, t, |matches|)
    ensures all == Number(MatchEmits(matches, kind, key, numberedKey) + KeywordEmits(rule, Present(keywords, text)),
                          regionId, citationId, t, 0)
  {
    NumberAppend(MatchEmits(matches, kind, key, numberedKey), KeywordEmits(rule, Present(keywords, text)),
                 regionId, citationId, t, 0);
  }

  method ExtractProposalFacts(doc: Document, regionId: string, citationId: string) returns (facts: seq<ExtractedFact>)
    ensures facts == ProposalFacts(doc, regionId, citationId)
  {
    var counter;
    ghost var ids := ProposalIdEmits(doc.proposalIds);
    ghost var statuses := KeywordEmits(StatusKeywordRule, Present(StatusKeywords, doc.text));
    facts, counter := AppendMatchFacts([], 0, doc.proposalIds, "proposal", "proposal_id", false, regionId, citationId, Proposal);
    ghost var first := facts;
    facts, counter := AppendKeywordFacts(facts, counter, StatusKeywords, doc.text, StatusKeywordRule,
                                         regionId, citationId, Proposal);
    MatchesThenKeywords(doc.proposalIds, "proposal", "proposal_id", false, StatusKeywords, doc.text, StatusKeywordRule,
                        regionId, citationId, Proposal, first, facts);
    assert ProposalEmits(doc) == ids + statuses;
  }

  /** The population loop, then the growth loop; a failed parse raises, and nothing is returned. */
  method ExtractDemographicFacts(doc: Document, regionId: string, citationId: string)
    returns (result: Option<seq<ExtractedFact>>)
    ensures result == DemographicFacts(doc, regionId, citationId)
  {
    var facts: seq<ExtractedFact> := [];
    var ps := doc.populations;
    var i := 0;
    while i < |ps|
      invariant 0 <= i <= |ps| && AllParsed(ps[..i])
      invariant facts == Number(PopulationEmits(ps[..i]), regionId, citationId, Demographic, 0)
    {
      if ps[i].None? {
        return None;
      }
      assert AllParsed(ps[..i + 1]);
      assert PopulationEmits(ps[..i + 1]) == PopulationEmits(ps[..i]) + [PopulationEmits(ps[..i + 1])[i]];
      NumberSnoc(PopulationEmits(ps[..i]), PopulationEmits(ps[..i + 1])[i], regionId, citationId, Demographic, 0);
      facts := facts + [ExtractedFact(FactId(regionId, "demographic", i + 1), regionId, Demographic,
                                      "population", Int(ps[i].value), Some("people"), None, [citationId], None)];
      i := i + 1;
    }
    assert ps[..i] == ps;
    ghost var populationEmits := PopulationEmits(ps);
    var gs := doc.growthRates;
    var j := 0;
    while j < |gs|
      invariant 0 <= j <= |gs| && AllParsed(gs[..j])
      invariant facts == Number(populationEmits + GrowthEmits(gs[..j]), regionId, citationId, Demographic, 0)
    {
      if gs[j].None? {
        return None;
      }
      assert AllParsed(gs[..j + 1]);
      assert populationEmits + GrowthEmits(gs[..j + 1])
        == (populationEmits + GrowthEmits(gs[..j])) + [GrowthEmits(gs[..j + 1])[j]];
      NumberSnoc(populationEmits + GrowthEmits(gs[..j]), GrowthEmits(gs[..j + 1])[j], regionId, citationId, Demographic, 0);
      facts := facts + [ExtractedFact(FactId(regionId, "demographic_growth", |ps| + j + 1), regionId, Demographic,
                                      "growth_rate", Float(gs[j].value), Some("percent"), None, [citationId], None)];
      j := j + 1;
    }
    assert gs[..j] == gs;
    result := Some(facts);
  }

  method ExtractByCategory(category: SourceCategory, doc: Document, regionId: string, citationId: string)
    returns (result: Option<seq<ExtractedFact>>)
    ensures result == CategoryFacts(category, doc, regionId, citationId)
  {
    match category {
      case BudgetSource =>
        var facts := ExtractBudgetFacts(doc, regionId, citationId);
        result := Some(facts);
      case ZoningSource =>
        var facts := ExtractZoningFacts(doc, regionId, citationId);
        result := Some(facts);
      case ProposalsSource =>
        var facts := ExtractProposalFacts(doc, regionId, citationId);
        result := Some(facts);
      case AnalyticsSource =>
        result := ExtractDemographicFacts(doc, regionId, citationId);
    }
  }

  method ExtractFromSource(source: DiscoveredSource, regionId: string, citationId: string, fs: FileSystem)
    returns (facts: seq<ExtractedFact>)
    ensures facts == SourceFacts(source, regionId, citationId, fs)
  {
    facts := [];
    if source.filePath.None? {
      return;
    }
    var path := DataPath(source.filePath.value);
    if path !in fs {
      return;
    }
    var file := fs[path];
    if (source.documentType == Html || source.documentType == Pdf) && file.Readable? {
      var result := ExtractByCategory(source.category, file.doc, regionId, citationId);
      if result.Some? {
        facts := result.value;
      }
    }
  }

  /** One step of the loop over the sources: the next source adds its citation and its facts. */
  lemma SourceStep(sources: seq<DiscoveredSource>, i: nat, regionId: string, fs: FileSystem, start: nat)
    requires i < |sources|
    ensures CitationsFor(sources[..i + 1], start) == CitationsFor(sources[..i], start) + [CitationFor(sources[i], start + i + 1)]
    ensures AllFacts(sources[..i + 1], regionId, fs, start)
      == AllFacts(sources[..i], regionId, fs, start) + SourceFacts(sources[i], regionId, CiteId(start + i + 1), fs)
  {
    assert sources[..i + 1][..i] == sources[..i];
    assert PerSource(regionId, fs)(sources[i], start + i + 1) == SourceFacts(sources[i], regionId, CiteId(start + i + 1), fs);
  }

  /** The extractor object: its citation counter survives from one call to the next. */
  class Extractor {
    var citationCounter: nat

    constructor()
      ensures citationCounter == 0
    {
      citationCounter := 0;
    }

    method CreateCitation(source: DiscoveredSource) returns (c: Citation)
      modifies this
      ensures citationCounter == old(citationCounter) + 1
      ensures c == CitationFor(source, citationCounter)
    {
      citationCounter := citationCounter + 1;
      c := Citation(CiteId(citationCounter), source.title, source.uri, None, source.retrievedAt);
    }

    method ExtractFactsFromSources(sources: seq<DiscoveredSource>, regionId: string, fs: FileSystem)
      returns (citations: seq<Citation>, facts: seq<ExtractedFact>)
      modifies this
      ensures citationCounter == old(citationCounter) + |sources|
      ensures citations == CitationsFor(sources, old(citationCounter))
      ensures facts == AllFacts(sources, regionId, fs, old(citationCounter))
    {
      citations := [];
      facts := [];
      var i := 0;
      while i < |sources|
        invariant 0 <= i <= |sources|
        invariant citationCounter == old(citationCounter) + i
        invariant citations == CitationsFor(sources[..i], old(citationCounter))
        invariant facts == AllFacts(sources[..i], regionId, fs, old(citationCounter))
      {
        SourceStep(sources, i, regionId, fs, old(citationCounter));
        var citation := CreateCitation(sources[i]);
        citations := citations + [citation];
        var sourceFacts := ExtractFromSource(sources[i], regionId, citation.id, fs);
        facts := facts + sourceFacts;
        i := i + 1;
      }
      assert sources[..i] == sources;
    }
  }

  // The budget amount parser

  /** The multiplier `_parse_budget_value` picks: billions for a "b" or "billion", millions for an "m"
      or "million", thousands for a "k" or "thousand", each matched case-insensitively in that order. */
  function Multiplier(valueStr: string): nat {
    var low := Lower(valueStr);
    if Contains(low, "billion") || Contains(low, "b") then 1_000_000_000
    else if Contains(low, "million") || Contains(low, "m") then 1_000_000
    else if Contains(low, "thousand") || Contains(low, "k") then 1_000
    else 1
  }

  /** The text handed to `float()`: "$" and "," removed, then the suffix words and letters of the
      chosen branch removed as written, that is case-sensitively. */
  function NormalizedAmount(valueStr: string): string {
    var normalized := Strip(Replace(Replace(valueStr, "$", ""), ",", ""));
    var low := Lower(valueStr);
    if Contains(low, "billion") || Contains(low, "b") then Strip(Replace(Replace(normalized, "billion", ""), "b", ""))
    else if Contains(low, "million") || Contains(low, "m") then Strip(Replace(Replace(normalized, "million", ""), "m", ""))
    else if Contains(low, "thousand") || Contains(low, "k") then Strip(Replace(Replace(normalized, "thousand", ""), "k", ""))
    else normalized
  }

  /** `_parse_budget_value`; `parseFloat` is Python's `float()` on a string, None where it raises. */
  function ParseBudgetValue(valueStr: string, parseFloat: string -> Option<real>): Option<real> {
    var x := parseFloat(NormalizedAmount(valueStr));
    if x.Some? then Some(x.value * Multiplier(valueStr) as real) else None
  }

  /** The text handed to `float()` has no "$" and no ",", whichever branch is taken. */
  lemma NormalizedAmountUnsigned(valueStr: string)
    ensures '$' !in NormalizedAmount(valueStr) && ',' !in NormalizedAmount(valueStr)
  {
    SignsRemoved(valueStr);
    var normalized := Strip(Replace(Replace(valueStr, "$", ""), ",", ""));
    var low := Lower(valueStr);
    if Contains(low, "billion") || Contains(low, "b") {
      NoSignAfterRemoval(normalized, "billion", "b");
      assert NormalizedAmount(valueStr) == Strip(Replace(Replace(normalized, "billion", ""), "b", ""));
    } else if Contains(low, "million") || Contains(low, "m") {
      NoSignAfterRemoval(normalized, "million", "m");
      assert NormalizedAmount(valueStr) == Strip(Replace(Replace(normalized, "million", ""), "m", ""));
    } else if Contains(low, "thousand") || Contains(low, "k") {
      NoSignAfterRemoval(normalized, "thousand", "k");
      assert NormalizedAmount(valueStr) == Strip(Replace(Replace(normalized, "thousand", ""), "k", ""));
    } else {
      assert NormalizedAmount(valueStr) == normalized;
    }
  }

  /** Removing "$" and then "," leaves neither. */
  lemma SignsRemoved(valueStr: string)
    ensures '$' !in Strip(Replace(Replace(valueStr, "$", ""), ",", ""))
    ensures ',' !in Strip(Replace(Replace(valueStr, "$", ""), ",", ""))
  {
    var dollarless := Replace(valueStr, "$", "");
    ReplaceRemoves(valueStr, '$');
    ReplaceRemoves(dollarless, ',');
    var t := Replace(dollarless, ",", "");
    if '$' in t {
      ReplaceKeeps(dollarless, ",", '$');
    }
    if '$' in Strip(t) {
      StripKeeps(t, '$');
    }
    if ',' in Strip(t) {
      StripKeeps(t, ',');
    }
  }

  /** Removing a word and then a letter brings back neither '$' nor ','. */
  lemma NoSignAfterRemoval(s: string, word: string, letter: string)
    requires |word| > 0 && |letter| > 0 && '$' !in s && ',' !in s
    ensures '$' !in Strip(Replace(Replace(s, word, ""), letter, ""))
    ensures ',' !in Strip(Replace(Replace(s, word, ""), letter, ""))
  {
    var t := Replace(s, word, "");
    if '$' in t { ReplaceKeeps(s, word, '$'); }
    if ',' in t { ReplaceKeeps(s, word, ','); }
    var u := Replace(t, letter, "");
    if '$' in u { ReplaceKeeps(t, letter, '$'); }
    if '$' in Strip(u) { StripKeeps(u, '$'); }
    if ',' in Strip(u) { StripKeeps(u, ','); }
    if ',' in u { ReplaceKeeps(t, letter, ','); }
  }

  // Properties

  /** The multiplier depends only on which of the letters b, m, k (in either case) and the word
      "thousand" occur, with b before m before k. */
  lemma MultiplierByLetter(valueStr: string)
    ensures var low := Lower(valueStr);
      (Multiplier(valueStr) == 1_000_000_000 <==> 'b' in low)
      && (Multiplier(valueStr) == 1_000_000 <==> 'b' !in low && 'm' in low)
      && (Multiplier(valueStr) == 1_000 <==> 'b' !in low && 'm' !in low && ('k' in low || Contains(low, "thousand")))
      && (Multiplier(valueStr) == 1 <==> 'b' !in low && 'm' !in low && 'k' !in low && !Contains(low, "thousand"))
  {
    var low := Lower(valueStr);
    ContainsChars(low, "billion", 'b');
    ContainsChars(low, "million", 'm');
    ContainsChars(low, "thousand", 'k');
  }

  /** The parser fails exactly when `float()` rejects the normalised text; otherwise it scales the
      number by the multiplier. */
  lemma ParseBudgetValueMeans(valueStr: string, parseFloat: string -> Option<real>)
    ensures ParseBudgetValue(valueStr, parseFloat).None? <==> parseFloat(NormalizedAmount(valueStr)).None?
    ensures ParseBudgetValue(valueStr, parseFloat).Some? ==>
      ParseBudgetValue(valueStr, parseFloat).value
        == parseFloat(NormalizedAmount(valueStr)).value * Multiplier(valueStr) as real
    ensures 'b' in Lower(valueStr) ==> Multiplier(valueStr) == 1_000_000_000
  {
    MultiplierByLetter(valueStr);
  }

  /** The suffix letters are removed case-sensitively: for "$500M" the millions branch is taken, but
      the text handed to `float()` is still "500M". */
  lemma UpperCaseSuffixKept()
    ensures Multiplier("$500M") == 1_000_000
    ensures NormalizedAmount("$500M") == "500M"
  {
    LowerAmount();
    MillionsBranch("$500M");
    StrippedAmount();
    ReplaceAbsent("500M", "million");
    ReplaceAbsent("500M", "m");
  }

  /** The branch taken for a text whose lower-case form has an 'm' and no 'b'. */
  lemma MillionsBranch(valueStr: string)
    requires 'b' !in Lower(valueStr) && 'm' in Lower(valueStr)
    ensures !(Contains(Lower(valueStr), "billion") || Contains(Lower(valueStr), "b"))
    ensures Contains(Lower(valueStr), "million") || Contains(Lower(valueStr), "m")
  {
    var low := Lower(valueStr);
    ContainsChars(low, "billion", 'b');
    ContainsChars(low, "b", 'b');
    ContainsChars(low, "m", 'm');
  }

  lemma LowerAmount()
    ensures 'b' !in Lower("$500M") && 'm' in Lower("$500M")
  {
    assert Lower("$500M") == "$500m";
  }

  lemma DollarRemoved()
    ensures Replace("$500M", "$", "") == "500M"
  {
    assert StartsWith("$500M", "$");
    assert Replace("$500M", "$", "") == Replace("500M", "$", "");
    ReplaceAbsent("500M", "$");
  }

  lemma Stripped()
    ensures Strip("500M") == "500M"
  {
    assert StripStart("500M") == "500M";
    assert StripEnd("500M") == "500M";
  }

  lemma StrippedAmount()
    ensures Strip(Replace(Replace("$500M", "$", ""), ",", "")) == "500M"
    ensures Strip("500M") == "500M"
  {
    DollarRemoved();
    ReplaceAbsent("500M", ",");
    Stripped();
  }

  /** A citation id gives back the counter it was made from. */
  lemma CiteIdInjective(a: nat, b: nat)
    requires CiteId(a) == CiteId(b)
    ensures a == b
  {
    assert Padded4(a) == CiteId(a)[5..];
    assert Padded4(b) == CiteId(b)[5..];
    Padded4Injective(a, b);
  }

  lemma CiteIdsDiffer(a: nat, b: nat)
    requires a != b
    ensures CiteId(a) != CiteId(b)
  {
    if CiteId(a) == CiteId(b) {
      CiteIdInjective(a, b);
    }
  }

  /** One citation per source, in source order; the i-th carries the counter `start + i + 1`. */
  lemma {:induction false} CitationsForIndex(sources: seq<DiscoveredSource>, start: nat)
    ensures |CitationsFor(sources, start)| == |sources|
    ensures forall i :: 0 <= i < |sources| ==> CitationsFor(sources, start)[i] == CitationFor(sources[i], start + i + 1)
  {
    forall i | 0 <= i < |sources| ensures CitationsFor(sources, start)[i] == CitationFor(sources[i], start + i + 1) {
      CitationAt(sources, start, i);
    }
  }

  lemma {:induction false} CitationAt(sources: seq<DiscoveredSource>, start: nat, i: nat)
    requires i < |sources|
    ensures CitationsFor(sources, start)[i] == CitationFor(sources[i], start + i + 1)
    decreases |sources|
  {
    var p := sources[..|sources| - 1];
    if i < |p| {
      CitationAt(p, start, i);
      assert CitationsFor(sources, start)[i] == CitationsFor(p, start)[i];
      assert sources[i] == p[i];
    }
  }

  lemma {:induction false} CitationIdAt(sources: seq<DiscoveredSource>, start: nat, i: nat)
    requires i < |sources|
    ensures CitationsFor(sources, start)[i].id == CiteId(start + i + 1)
  {
    CitationsForIndex(sources, start);
  }

  /** Citation ids never repeat on one extractor: within one call, nor between a call and the next
      one, which starts where the counter was left. */
  lemma CitationIdsUnique(s1: seq<DiscoveredSource>, s2: seq<DiscoveredSource>, start: nat)
    ensures var c1 := CitationsFor(s1, start); var c2 := CitationsFor(s2, start + |s1|);
      (forall i, j :: 0 <= i < j < |c1| ==> c1[i].id != c1[j].id)
      && (forall i, j :: 0 <= i < |c1| && 0 <= j < |c2| ==> c1[i].id != c2[j].id)
  {
    CitationIdsWithinCall(s1, start);
    CitationIdsAcrossCalls(s1, s2, start);
  }

  lemma {:induction false} CitationIdsWithinCall(s1: seq<DiscoveredSource>, start: nat)
    ensures var c1 := CitationsFor(s1, start);
      forall i, j :: 0 <= i < j < |c1| ==> c1[i].id != c1[j].id
  {
    var c1 := CitationsFor(s1, start);
    forall i, j | 0 <= i < j < |c1| ensures c1[i].id != c1[j].id {
      CitationIdAt(s1, start, i);
      CitationIdAt(s1, start, j);
      if c1[i].id == c1[j].id {
        CiteIdInjective(start + i + 1, start + j + 1);
      }
    }
  }

  lemma {:induction false} CitationIdsAcrossCalls(s1: seq<DiscoveredSource>, s2: seq<DiscoveredSource>, start: nat)
    ensures var c1 := CitationsFor(s1, start); var c2 := CitationsFor(s2, start + |s1|);
      forall i, j :: 0 <= i < |c1| && 0 <= j < |c2| ==> c1[i].id != c2[j].id
  {
    CitationsForAppend(s1, s2, start);
    CitationIdsWithinCall(s1 + s2, start);
    DistinctIdsSplit(CitationsFor(s1, start), CitationsFor(s2, start + |s1|));
  }

  lemma DistinctIdsSplit(c1: seq<Citation>, c2: seq<Citation>)
    requires forall i, j :: 0 <= i < j < |c1 + c2| ==> (c1 + c2)[i].id != (c1 + c2)[j].id
    ensures forall i, j :: 0 <= i < |c1| && 0 <= j < |c2| ==> c1[i].id != c2[j].id
  {
    var c := c1 + c2;
    forall i, j | 0 <= i < |c1| && 0 <= j < |c2| ensures c1[i].id != c2[j].id {
      assert c1[i] == c[i] && c2[j] == c[|c1| + j];
    }
  }

  /** The citations of two lists of sources, the second started where the first left the counter. */
  lemma {:induction false} CitationsForAppend(s1: seq<DiscoveredSource>, s2: seq<DiscoveredSource>, start: nat)
    ensures CitationsFor(s1 + s2, start) == CitationsFor(s1, start) + CitationsFor(s2, start + |s1|)
    decreases |s2|
  {
    if |s2| == 0 {
      assert s1 + s2 == s1;
    } else {
      var p := s2[..|s2| - 1];
      assert (s1 + s2)[..|s1 + s2| - 1] == s1 + p;
      CitationsForAppend(s1, p, start);
    }
  }

  /** The fact type of a category, as the readers dispatch on it. */
  function CategoryType(category: SourceCategory): FactType {
    match category
    case BudgetSource => Budget
    case ZoningSource => Zoning
    case ProposalsSource => Proposal
    case AnalyticsSource => Demographic
  }

  /** Every fact of a source is about the given region, cites exactly that source's citation, has
      the type of the source's category, and so passes the citation validator. */
  lemma SourceFactsCite(source: DiscoveredSource, regionId: string, citationId: string, fs: FileSystem)
    ensures forall f :: f in SourceFacts(source, regionId, citationId, fs) ==>
      f.regionId == regionId && f.citationIds == [citationId]
      && f.factType == CategoryType(source.category) && ValidateCitations(f) == Pass
  {
    if source.filePath.Some? && DataPath(source.filePath.value) in fs {
      var file := fs[DataPath(source.filePath.value)];
      if (source.documentType == Html || source.documentType == Pdf) && file.Readable? {
        var doc := file.doc;
        match source.category
        case BudgetSource => NumberCites(BudgetEmits(doc), regionId, citationId, Budget);
        case ZoningSource => NumberCites(ZoningEmits(doc), regionId, citationId, Zoning);
        case ProposalsSource => NumberCites(ProposalEmits(doc), regionId, citationId, Proposal);
        case AnalyticsSource =>
          if AllParsed(doc.populations) && AllParsed(doc.growthRates) {
            NumberCites(PopulationEmits(doc.populations) + GrowthEmits(doc.growthRates), regionId, citationId, Demographic);
          }
      }
    }
  }

  /** How many facts each category's extraction yields: one per match or keyword found, and for
      demographics nothing at all once a number fails to parse. */
  lemma CategoryFactCounts(doc: Document, regionId: string, citationId: string)
    ensures |BudgetFacts(doc, regionId, citationId)| == |doc.budgetMatches| + (if doc.yearMatch.Some? then 1 else 0)
    ensures |ZoningFacts(doc, regionId, citationId)| == |doc.zoningCodes| + |Present(ZoningKeywords, doc.text)|
    ensures |ProposalFacts(doc, regionId, citationId)| == |doc.proposalIds| + |Present(StatusKeywords, doc.text)|
    ensures DemographicFacts(doc, regionId, citationId).Some? <==> AllParsed(doc.populations) && AllParsed(doc.growthRates)
    ensures DemographicFacts(doc, regionId, citationId).Some? ==>
      |DemographicFacts(doc, regionId, citationId).value| == |doc.populations| + |doc.growthRates|
  {
  }

  /** Every numbered fact is about the region, cites the one citation and has the type. */
  lemma NumberCites(emits: seq<Emit>, regionId: string, citationId: string, t: FactType)
    ensures forall f :: f in Number(emits, regionId, citationId, t, 0) ==>
      f.regionId == regionId && f.citationIds == [citationId] && f.factType == t && ValidateCitations(f) == Pass
  {
  }

  /** A source without a stored file, with a file that is missing or unreadable, or of RSS or API
      type contributes no facts. */
  lemma SourcesWithoutFacts(source: DiscoveredSource, regionId: string, citationId: string, fs: FileSystem)
    requires source.filePath.None? || DataPath(source.filePath.value) !in fs
      || fs[DataPath(source.filePath.value)].Unreadable? || source.documentType == Rss || source.documentType == Api
    ensures SourceFacts(source, regionId, citationId, fs) == []
  {
  }

  lemma AllFactsAppend(s1: seq<DiscoveredSource>, s2: seq<DiscoveredSource>, regionId: string, fs: FileSystem, start: nat)
    ensures AllFacts(s1 + s2, regionId, fs, start) == AllFacts(s1, regionId, fs, start) + AllFacts(s2, regionId, fs, start + |s1|)
  {
    GatheredAppend(s1, s2, PerSource(regionId, fs), start);
  }

  lemma {:induction false} GatheredAppend(s1: seq<DiscoveredSource>, s2: seq<DiscoveredSource>,
                                          extract: (DiscoveredSource, nat) -> seq<ExtractedFact>, start: nat)
    ensures Gathered(s1 + s2, extract, start) == Gathered(s1, extract, start) + Gathered(s2, extract, start + |s1|)
    decreases |s2|
  {
    if |s2| == 0 {
      assert s1 + s2 == s1;
    } else {
      var p := s2[..|s2| - 1];
      assert (s1 + s2)[..|s1 + s2| - 1] == s1 + p;
      GatheredAppend(s1, p, extract, start);
    }
  }

  lemma AllFactsSingle(s: DiscoveredSource, regionId: string, fs: FileSystem, start: nat)
    ensures AllFacts([s], regionId, fs, start) == SourceFacts(s, regionId, CiteId(start + 1), fs)
  {
    var extract := PerSource(regionId, fs);
    assert [s][..0] == [];
    assert Gathered([s], extract, start) == Gathered([], extract, start) + extract(s, start + 1);
    assert extract(s, start + 1) == SourceFacts(s, regionId, CiteId(start + 1), fs);
  }

  /** A source whose extraction gives nothing, because it raised or for any other reason, leaves the
      facts of the sources before and after it as they would be without it; it still takes its
      citation number. */
  lemma {:induction false} FailureIsolated(before: seq<DiscoveredSource>, s: DiscoveredSource, after: seq<DiscoveredSource>,
                        regionId: string, fs: FileSystem, start: nat)
    requires SourceFacts(s, regionId, CiteId(start + |before| + 1), fs) == []
    ensures AllFacts(before + [s] + after, regionId, fs, start)
      == AllFacts(before, regionId, fs, start) + AllFacts(after, regionId, fs, start + |before| + 1)
    ensures |CitationsFor(before + [s] + after, start)| == |before| + 1 + |after|
  {
    var withS := before + [s];
    AllFactsSingle(s, regionId, fs, start + |before|);
    assert AllFacts([s], regionId, fs, start + |before|) == [];
    AllFactsAppend(before, [s], regionId, fs, start);
    assert AllFacts(withS, regionId, fs, start) == AllFacts(before, regionId, fs, start);
    AllFactsAppend(withS, after, regionId, fs, start);
  }

  /** Every fact collected from a list of sources is about the region, passes the citation
      validator, and cites exactly the citation created for its own source. */
  lemma {:induction false} AllFactsCite(sources: seq<DiscoveredSource>, regionId: string, fs: FileSystem, start: nat)
    ensures forall f :: f in AllFacts(sources, regionId, fs, start) ==>
      f.regionId == regionId && ValidateCitations(f) == Pass
      && exists i :: 0 <= i < |sources| && f.citationIds == [CitationsFor(sources, start)[i].id]
           && f.factType == CategoryType(sources[i].category)
    decreases |sources|
  {
    CitationsForIndex(sources, start);
    if |sources| > 0 {
      var n := |sources|;
      var p := sources[..n - 1];
      AllFactsCite(p, regionId, fs, start);
      CitationsForIndex(p, start);
      SourceFactsCite(sources[n - 1], regionId, CiteId(start + n), fs);
      forall f | f in AllFacts(sources, regionId, fs, start)
        ensures exists i :: (0 <= i < n && f.citationIds == [CitationsFor(sources, start)[i].id]
                             && f.factType == CategoryType(sources[i].category))
      {
        if f in AllFacts(p, regionId, fs, start) {
          var i :| 0 <= i < n - 1 && f.citationIds == [CitationsFor(p, start)[i].id]
            && f.factType == CategoryType(p[i].category);
          assert sources[i] == p[i];
        } else {
          assert f.citationIds == [CitationsFor(sources, start)[n - 1].id];
        }
      }
    }
  }

  // Keyword facts

  lemma {:induction false} PresentMembers(keywords: seq<string>, text: string, k: string)
    ensures k in Present(keywords, text) <==> k in keywords && Mentioned(text, k)
    decreases |keywords|
  {
    if |keywords| > 0 {
      var p := keywords[..|keywords| - 1];
      PresentMembers(p, text, k);
      assert keywords == p + [keywords[|keywords| - 1]];
    }
  }

  predicate Distinct(xs: seq<string>) {
    forall i, j :: 0 <= i < j < |xs| ==> xs[i] != xs[j]
  }

  lemma {:induction false} PresentDistinct(keywords: seq<string>, text: string)
    requires Distinct(keywords)
    ensures Distinct(Present(keywords, text))
    decreases |keywords|
  {
    if |keywords| > 0 {
      var p := keywords[..|keywords| - 1];
      var k := keywords[|keywords| - 1];
      PresentDistinct(p, text);
      PresentMembers(p, text, k);
    }
  }

  /** One zoning-keyword fact per listed keyword the text mentions in any case, and none for the
      others. */
  lemma ZoningKeywordOnce(doc: Document, regionId: string, citationId: string, k: string)
    requires k in ZoningKeywords
    ensures var facts := ZoningFacts(doc, regionId, citationId);
      ((exists i :: 0 <= i < |facts| && facts[i].key == "zoning_keyword_" + k) <==> Mentioned(doc.text, k))
      && forall i, j :: (0 <= i < |facts| && 0 <= j < |facts| && facts[i].key == "zoning_keyword_" + k
           && facts[j].key == "zoning_keyword_" + k) ==> i == j
  {
    var facts := ZoningFacts(doc, regionId, citationId);
    var codes := |doc.zoningCodes|;
    var present := Present(ZoningKeywords, doc.text);
    var key := "zoning_keyword_" + k;
    PresentMembers(ZoningKeywords, doc.text, k);
    PresentDistinct(ZoningKeywords, doc.text);
    forall i | 0 <= i < |facts|
      ensures facts[i].key == key <==> i >= codes && present[i - codes] == k
    {
      ZoningKeyAt(doc, regionId, citationId, k, i);
    }
    if Mentioned(doc.text, k) {
      var m :| 0 <= m < |present| && present[m] == k;
      assert facts[codes + m].key == key;
    }
  }

  /** The i-th zoning fact has the keyword key of `k` exactly when it is a keyword fact for `k`. */
  lemma ZoningKeyAt(doc: Document, regionId: string, citationId: string, k: string, i: nat)
    requires i < |ZoningFacts(doc, regionId, citationId)|
    ensures (ZoningFacts(doc, regionId, citationId)[i].key == "zoning_keyword_" + k) <==>
      (i >= |doc.zoningCodes| && Present(ZoningKeywords, doc.text)[i - |doc.zoningCodes|] == k)
  {
    var codes := |doc.zoningCodes|;
    var key := "zoning_keyword_" + k;
    var emits := ZoningEmits(doc);
    var fact := ZoningFacts(doc, regionId, citationId)[i];
    assert fact == Numbered(emits[i], regionId, citationId, Zoning, i + 1);
    if i < codes {
      assert fact.key == "zoning_code_" + IntText(i + 1);
      assert fact.key[7] == 'c' && key[7] == 'k';
    } else {
      var word := Present(ZoningKeywords, doc.text)[i - codes];
      assert emits[i] == KeywordEmit(ZoningKeywordRule, word);
      assert fact.key == "zoning_keyword_" + word;
      if fact.key == key {
        assert word == fact.key[15..] == key[15..] == k;
      }
    }
  }

  /** One status fact per listed status the text mentions in any case, and none for the others. */
  lemma StatusKeywordOnce(doc: Document, regionId: string, citationId: string, k: string)
    requires k in StatusKeywords
    ensures var facts := ProposalFacts(doc, regionId, citationId);
      ((exists i :: 0 <= i < |facts| && facts[i].key == "proposal_status" && facts[i].value == Str(k))
         <==> Mentioned(doc.text, k))
      && forall i, j :: (0 <= i < |facts| && 0 <= j < |facts| && facts[i].key == "proposal_status"
           && facts[j].key == "proposal_status" && facts[i].value == Str(k) && facts[j].value == Str(k)) ==> i == j
  {
    var facts := ProposalFacts(doc, regionId, citationId);
    var ids := |doc.proposalIds|;
    var present := Present(StatusKeywords, doc.text);
    PresentMembers(StatusKeywords, doc.text, k);
    PresentDistinct(StatusKeywords, doc.text);
    forall i | 0 <= i < |facts|
      ensures (facts[i].key == "proposal_status" && facts[i].value == Str(k)) <==> i >= ids && present[i - ids] == k
    {
      StatusAt(doc, regionId, citationId, k, i);
    }
    if Mentioned(doc.text, k) {
      var m :| 0 <= m < |present| && present[m] == k;
      assert facts[ids + m].value == Str(k);
    }
  }

  /** The i-th proposal fact is the status fact of `k` exactly when it is a status fact for `k`. */
  lemma StatusAt(doc: Document, regionId: string, citationId: string, k: string, i: nat)
    requires i < |ProposalFacts(doc, regionId, citationId)|
    ensures var fact := ProposalFacts(doc, regionId, citationId)[i];
      (fact.key == "proposal_status" && fact.value == Str(k)) <==>
      (i >= |doc.proposalIds| && Present(StatusKeywords, doc.text)[i - |doc.proposalIds|] == k)
  {
    var ids := |doc.proposalIds|;
    var emits := ProposalEmits(doc);
    var fact := ProposalFacts(doc, regionId, citationId)[i];
    assert fact == Numbered(emits[i], regionId, citationId, Proposal, i + 1);
    if i < ids {
      assert fact.key == "proposal_id";
      assert fact.key[9] != "proposal_status"[9];
    } else {
      assert emits[i] == KeywordEmit(StatusKeywordRule, Present(StatusKeywords, doc.text)[i - ids]);
    }
  }

  /** At most one budget-year fact per source, present exactly when a year was matched. */
  lemma BudgetYearAtMostOnce(doc: Document, regionId: string, citationId: string)
    ensures var facts := BudgetFacts(doc, regionId, citationId);
      ((exists i :: 0 <= i < |facts| && facts[i].key == "budget_year") <==> doc.yearMatch.Some?)
      && forall i, j :: (0 <= i < |facts| && 0 <= j < |facts| && facts[i].key == "budget_year"
           && facts[j].key == "budget_year") ==> i == j
  {
    var facts := BudgetFacts(doc, regionId, citationId);
    var n := |doc.budgetMatches|;
    forall i | 0 <= i < |facts| ensures facts[i].key == "budget_year" <==> i == n {
      if i < n {
        assert facts[i].key == "budget_mention_" + IntText(i + 1);
        assert facts[i].key[7] == 'm' && "budget_year"[7] == 'y';
      }
    }
    if doc.yearMatch.Some? {
      assert facts[n].key == "budget_year";
    }
  }

  // Fact ids

  /** The two kinds of one fact type: `base`, or `base` followed by "_" and a word. */
  predicate KindOf(base: string, word: string, kind: string) {
    kind == base || kind == base + "_" + word
  }

  predicate DistinctIds(facts: seq<ExtractedFact>) {
    forall i, j :: 0 <= i < j < |facts| ==> facts[i].id != facts[j].id
  }

  /** Within one fact type the counter is recovered from the id, whichever of its two kinds it has. */
  lemma FactIdCounter(regionId: string, base: string, word: string, k1: string, k2: string, n1: nat, n2: nat)
    requires |word| > 0 && !IsDigit(word[0])
    requires KindOf(base, word, k1) && KindOf(base, word, k2)
    requires FactId(regionId, k1, n1) == FactId(regionId, k2, n2)
    ensures n1 == n2
  {
    var p := "fact_" + regionId + "_" + base + "_";
    var s1 := FactIdSuffix(regionId, base, word, k1, n1);
    var s2 := FactIdSuffix(regionId, base, word, k2, n2);
    assert s1 == (p + s1)[|p|..] == (p + s2)[|p|..] == s2;
    Padded4Value(n1);
    Padded4Value(n2);
    // The suffix starts with a digit exactly for the plain kind.
    assert IsDigit(s1[0]) <==> k1 == base;
    assert IsDigit(s2[0]) <==> k2 == base;
    if k1 == base {
      Padded4Injective(n1, n2);
    } else {
      assert Padded4(n1) == s1[|word| + 1..] == s2[|word| + 1..] == Padded4(n2);
      Padded4Injective(n1, n2);
    }
  }

  /** What follows `fact_<region>_<base>_` in a fact id: the padded counter, after the word for
      the longer kind. */
  lemma FactIdSuffix(regionId: string, base: string, word: string, k: string, n: nat) returns (s: string)
    requires KindOf(base, word, k)
    ensures s == if k == base then Padded4(n) else word + "_" + Padded4(n)
    ensures FactId(regionId, k, n) == "fact_" + regionId + "_" + base + "_" + s
  {
    s := if k == base then Padded4(n) else word + "_" + Padded4(n);
  }


  /** Numbered facts whose kinds belong to one fact type have pairwise distinct ids. */
  lemma NumberIdsDistinct(emits: seq<Emit>, regionId: string, citationId: string, t: FactType, base: string, word: string)
    requires |word| > 0 && !IsDigit(word[0])
    requires forall i :: 0 <= i < |emits| ==> KindOf(base, word, emits[i].kind)
    ensures DistinctIds(Number(emits, regionId, citationId, t, 0))
  {
    var facts := Number(emits, regionId, citationId, t, 0);
    forall i, j | 0 <= i < j < |facts| ensures facts[i].id != facts[j].id {
      NumberIdPair(emits, regionId, citationId, t, base, word, i, j);
    }
  }

  lemma NumberIdPair(emits: seq<Emit>, regionId: string, citationId: string, t: FactType, base: string, word: string,
                     i: nat, j: nat)
    requires |word| > 0 && !IsDigit(word[0])
    requires i < j < |emits|
    requires KindOf(base, word, emits[i].kind) && KindOf(base, word, emits[j].kind)
    ensures Number(emits, regionId, citationId, t, 0)[i].id != Number(emits, regionId, citationId, t, 0)[j].id
  {
    var facts := Number(emits, regionId, citationId, t, 0);
    assert facts[i] == Numbered(emits[i], regionId, citationId, t, i + 1);
    assert facts[j] == Numbered(emits[j], regionId, citationId, t, j + 1);
    NumberedIdsDiffer(emits[i], emits[j], regionId, citationId, t, base, word, i + 1, j + 1);
  }

  /** Facts numbered apart, with kinds of one fact type, have different ids. */
  lemma NumberedIdsDiffer(e1: Emit, e2: Emit, regionId: string, citationId: string, t: FactType,
                          base: string, word: string, n1: nat, n2: nat)
    requires |word| > 0 && !IsDigit(word[0])
    requires KindOf(base, word, e1.kind) && KindOf(base, word, e2.kind) && n1 != n2
    ensures Numbered(e1, regionId, citationId, t, n1).id != Numbered(e2, regionId, citationId, t, n2).id
  {
    FactIdsDiffer(regionId, base, word, e1.kind, e2.kind, n1, n2);
  }

  lemma FactIdsDiffer(regionId: string, base: string, word: string, k1: string, k2: string, n1: nat, n2: nat)
    requires |word| > 0 && !IsDigit(word[0])
    requires KindOf(base, word, k1) && KindOf(base, word, k2) && n1 != n2
    ensures FactId(regionId, k1, n1) != FactId(regionId, k2, n2)
  {
    if FactId(regionId, k1, n1) == FactId(regionId, k2, n2) {
      FactIdCounter(regionId, base, word, k1, k2, n1, n2);
    }
  }

  /** Within one source's extraction the counter goes up by one per fact, so no two facts of a
      source share an id. */
  lemma SourceFactIdsDistinct(source: DiscoveredSource, regionId: string, citationId: string, fs: FileSystem)
    ensures DistinctIds(SourceFacts(source, regionId, citationId, fs))
  {
    if source.filePath.Some? && DataPath(source.filePath.value) in fs {
      var file := fs[DataPath(source.filePath.value)];
      if file.Readable? {
        CategoryIdsDistinct(source.category, file.doc, regionId, citationId);
      }
    }
  }

  lemma CategoryIdsDistinct(category: SourceCategory, doc: Document, regionId: string, citationId: string)
    ensures var r := CategoryFacts(category, doc, regionId, citationId);
      r.Some? ==> DistinctIds(r.value)
  {
    match category
    case BudgetSource => BudgetIdsDistinct(doc, regionId, citationId);
    case ZoningSource => ZoningIdsDistinct(doc, regionId, citationId);
    case ProposalsSource => ProposalIdsDistinct(doc, regionId, citationId);
    case AnalyticsSource => DemographicIdsDistinct(doc, regionId, citationId);
  }

  lemma BudgetIdsDistinct(doc: Document, regionId: string, citationId: string)
    ensures DistinctIds(BudgetFacts(doc, regionId, citationId))
  {
    var emits := BudgetEmits(doc);
    forall i | 0 <= i < |emits| ensures KindOf("budget", "year", emits[i].kind) {
      assert "budget_year" == "budget" + "_" + "year";
    }
    NumberIdsDistinct(emits, regionId, citationId, Budget, "budget", "year");
  }

  lemma ZoningIdsDistinct(doc: Document, regionId: string, citationId: string)
    ensures DistinctIds(ZoningFacts(doc, regionId, citationId))
  {
    var emits := ZoningEmits(doc);
    forall i | 0 <= i < |emits| ensures KindOf("zoning", "keyword", emits[i].kind) {
      assert "zoning_keyword" == "zoning" + "_" + "keyword";
    }
    NumberIdsDistinct(emits, regionId, citationId, Zoning, "zoning", "keyword");
  }

  lemma ProposalIdsDistinct(doc: Document, regionId: string, citationId: string)
    ensures DistinctIds(ProposalFacts(doc, regionId, citationId))
  {
    var emits := ProposalEmits(doc);
    forall i | 0 <= i < |emits| ensures KindOf("proposal", "status", emits[i].kind) {
      assert "proposal_status" == "proposal" + "_" + "status";
    }
    NumberIdsDistinct(emits, regionId, citationId, Proposal, "proposal", "status");
  }

  lemma DemographicIdsDistinct(doc: Document, regionId: string, citationId: string)
    ensures var r := DemographicFacts(doc, regionId, citationId);
      r.Some? ==> DistinctIds(r.value)
  {
    if AllParsed(doc.populations) && AllParsed(doc.growthRates) {
      var emits := PopulationEmits(doc.populations) + GrowthEmits(doc.growthRates);
      forall i | 0 <= i < |emits| ensures KindOf("demographic", "growth", emits[i].kind) {
        assert "demographic_growth" == "demographic" + "_" + "growth";
      }
      NumberIdsDistinct(emits, regionId, citationId, Demographic, "demographic", "growth");
    }
  }

  /** The citation a source's facts carry does not change how many there are or their ids. */
  lemma SourceFactsIdsFixed(s: DiscoveredSource, regionId: string, c1: string, c2: string, fs: FileSystem)
    ensures var f1, f2 := SourceFacts(s, regionId, c1, fs), SourceFacts(s, regionId, c2, fs);
      |f1| == |f2| && forall i :: 0 <= i < |f1| ==> f1[i].id == f2[i].id
  {
    if s.filePath.Some? && DataPath(s.filePath.value) in fs {
      var file := fs[DataPath(s.filePath.value)];
      if (s.documentType == Html || s.documentType == Pdf) && file.Readable? {
        CategoryIdsFixed(s.category, file.doc, regionId, c1, c2);
      }
    }
  }

  lemma CategoryIdsFixed(category: SourceCategory, doc: Document, regionId: string, c1: string, c2: string)
    ensures var r1, r2 := CategoryFacts(category, doc, regionId, c1), CategoryFacts(category, doc, regionId, c2);
      r1.Some? == r2.Some? &&
      (r1.Some? ==> |r1.value| == |r2.value| && forall i :: 0 <= i < |r1.value| ==> r1.value[i].id == r2.value[i].id)
  {
    match category
    case BudgetSource => NumberIdsFixed(BudgetEmits(doc), regionId, c1, c2, Budget);
    case ZoningSource => NumberIdsFixed(ZoningEmits(doc), regionId, c1, c2, Zoning);
    case ProposalsSource => NumberIdsFixed(ProposalEmits(doc), regionId, c1, c2, Proposal);
    case AnalyticsSource =>
      if AllParsed(doc.populations) && AllParsed(doc.growthRates) {
        NumberIdsFixed(PopulationEmits(doc.populations) + GrowthEmits(doc.growthRates), regionId, c1, c2, Demographic);
      }
  }

  lemma NumberIdsFixed(emits: seq<Emit>, regionId: string, c1: string, c2: string, t: FactType)
    ensures var f1, f2 := Number(emits, regionId, c1, t, 0), Number(emits, regionId, c2, t, 0);
      |f1| == |f2| && forall i :: 0 <= i < |f1| ==> f1[i].id == f2[i].id
  {
  }

  lemma RepeatedIds(f1: seq<ExtractedFact>, f2: seq<ExtractedFact>, c1: string, c2: string)
    requires |f1| == |f2| > 0 && f1[0].id == f2[0].id && c1 != c2
    requires forall f :: f in f1 ==> f.citationIds == [c1]
    requires forall f :: f in f2 ==> f.citationIds == [c2]
    ensures var facts := f1 + f2;
      |facts| == 2 * |f1| && facts[0].id == facts[|f1|].id && facts[0].citationIds != facts[|f1|].citationIds
  {
    assert f1[0] in f1 && f2[0] in f2;
    assert (f1 + f2)[|f1|] == f2[0];
  }

  /** Fact ids are unique only within a source: the per-source counter starts again at 1, so two
      sources with the same document give facts with the same ids, under different citations. */
  lemma FactIdsRepeatAcrossSources(s: DiscoveredSource, regionId: string, fs: FileSystem, start: nat)
    requires |SourceFacts(s, regionId, CiteId(start + 1), fs)| > 0
    ensures var facts := AllFacts([s, s], regionId, fs, start);
      var n := |SourceFacts(s, regionId, CiteId(start + 1), fs)|;
      |facts| == 2 * n && facts[0].id == facts[n].id && facts[0].citationIds != facts[n].citationIds
  {
    var c1, c2 := CiteId(start + 1), CiteId(start + 2);
    AllFactsSingle(s, regionId, fs, start);
    AllFactsSingle(s, regionId, fs, start + 1);
    assert [s] + [s] == [s, s];
    AllFactsAppend([s], [s], regionId, fs, start);
    assert AllFacts([s, s], regionId, fs, start) == SourceFacts(s, regionId, c1, fs) + SourceFacts(s, regionId, c2, fs);
    CiteIdsDiffer(start + 1, start + 2);
    SourceFactsRepeat(s, regionId, fs, c1, c2);
  }

  /** One source extracted under two different citations: the same ids, different citations. */
  lemma SourceFactsRepeat(s: DiscoveredSource, regionId: string, fs: FileSystem, c1: string, c2: string)
    requires c1 != c2 && |SourceFacts(s, regionId, c1, fs)| > 0
    ensures var f1 := SourceFacts(s, regionId, c1, fs);
      var facts := f1 + SourceFacts(s, regionId, c2, fs);
      |facts| == 2 * |f1| && facts[0].id == facts[|f1|].id && facts[0].citationIds != facts[|f1|].citationIds
  {
    SourceFactsIdsFixed(s, regionId, c1, c2, fs);
    SourceFactsCite(s, regionId, c1, fs);
    SourceFactsCite(s, regionId, c2, fs);
    RepeatedIds(SourceFacts(s, regionId, c1, fs), SourceFacts(s, regionId, c2, fs), c1, c2);
  }
}
