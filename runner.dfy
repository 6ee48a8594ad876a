/** The deterministic branch of the pipeline: the budget and policy analysts run on a region's facts,
    the underwriter combines their outputs, and the three make up the region's panel. */
module Runner {
  import opened Facts
  import opened AgentOutputs
  import BudgetAnalyst
  import PolicyAnalyst
  import Underwriter
  import Config
  import Scraper
  import FactExtractor

  /** The panel for `regionId`; the time stamp is an input. */
  function AnalyzeRegion(regionId: string, facts: seq<ExtractedFact>, generatedAt: string): (r: RegionPanelOutput)
    ensures r.regionId == regionId && r.generatedAt == generatedAt
    ensures r.Valid()
  {
    var budget := BudgetAnalyst.Budget(facts);
    var policy := PolicyAnalyst.Policy(facts);
    RegionPanelOutput(regionId, budget, policy, Underwriter.Underwrite(budget, policy, facts), generatedAt)
  }

  /** The number of facts any analyst reads. */
  function Evidence(facts: seq<ExtractedFact>): nat {
    |OfType(facts, Facts.Budget)| + |OfType(facts, Zoning)| + |OfType(facts, Proposal)|
  }

  /** Whatever the facts, every field constraint of the panel holds: no analyst output is rejected. */
  lemma PanelValid(regionId: string, facts: seq<ExtractedFact>, generatedAt: string)
    ensures AnalyzeRegion(regionId, facts, generatedAt).Valid()
  {
    Underwriter.UnderwriteValid(BudgetAnalyst.Budget(facts), PolicyAnalyst.Policy(facts), facts);
  }

  /** The panel's evidence count is the number of budget, zoning and proposal facts; demographic and
      development facts are never counted. */
  lemma PanelEvidence(regionId: string, facts: seq<ExtractedFact>, generatedAt: string)
    ensures AnalyzeRegion(regionId, facts, generatedAt).underwriterAnalysis.evidenceCount == Evidence(facts)
  {
  }

  /** The verdict is "unknown" exactly when the region has no budget, zoning or proposal fact. */
  lemma UnknownIffNoEvidence(regionId: string, facts: seq<ExtractedFact>, generatedAt: string)
    ensures AnalyzeRegion(regionId, facts, generatedAt).underwriterAnalysis.verdict == Unknown <==>
      Evidence(facts) == 0
  {
    var budget := BudgetAnalyst.Budget(facts);
    var policy := PolicyAnalyst.Policy(facts);
    if Evidence(facts) == 0 {
      assert OfType(facts, Zoning) == [] && OfType(facts, Proposal) == [];
      assert Underwriter.FeasibilityScore(budget, policy).None?;
      Underwriter.VerdictWithoutScore(budget, policy, facts);
    } else if Underwriter.FeasibilityScore(budget, policy).None? {
      Underwriter.VerdictWithoutScore(budget, policy, facts);
    } else {
      Underwriter.VerdictBands(budget, policy, facts);
    }
  }

  /** The path the scraper records, relative to the data directory, leads the extractor back to the
      file the scraper wrote under the region's raw-document directory. */
  lemma StoredPathResolves(regionId: string, filename: string)
    ensures FactExtractor.DataPath(Scraper.StoredPath(regionId, filename))
      == Config.RawDocumentsDir + "/" + regionId + "/" + filename
  {
    var p := Scraper.StoredPath(regionId, filename);
    assert p[0] == 'r';
  }
}
