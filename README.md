# Landlock feasibility backend, modelled in Dafny

Landlock is a backend that judges how feasible development is in a city:

- a scraper stores the documents found on a city's web site;
- a registry records the sources, one record per line;
- an extractor turns each stored document into facts, each citing its source;
- three deterministic analysts score the facts:
  - the Budget Analyst scores funding strength;
  - the Policy Analyst scores zoning flexibility and proposal momentum;
  - the Underwriter combines the two into a feasibility score, a verdict, a plan variant, and pros, cons and constraints backed by cited facts.

A shared-state manager keeps the record an agent workflow reads and writes.

This project models that core and proves properties about it:

- the fact and output contracts with their validators;
- the three analysts, the shared state and the fact extractor;
- the registry's queries and the scraper's stored-file naming;
- the runner's deterministic composition of the analysts into a region's panel.

The model takes the form of the code:

- Pure computations are functions.
- An analyst's loops are methods proved equal to the function describing the analyst.
- Three objects whose fields the code updates are classes: the shared-state manager, the extractor with its citation counter, and the registry with its file.

Each of those classes' methods states the new state in terms of the old one.

Modules follow the source files:

| module | source file |
|---|---|
| `Facts` | `models/extracted_fact.py` |
| `AgentOutputs` | `models/agent_outputs.py` |
| `Sources` | `models/discovered_source.py`, `models/citation.py` |
| `Config` | `config.py` |
| `BudgetAnalyst` | `agents/budget_analyst.py` |
| `PolicyAnalyst` | `agents/policy_analyst.py` |
| `Underwriter` | `agents/underwriter.py` |
| `SharedState` | `agents/shared_state.py` |
| `FactExtractor` | `extractors/fact_extractor.py` |
| `SourceRegistry` | `storage/source_registry.py` |
| `Scraper` | `scraper/scraper.py` |
| `Runner` | the deterministic branch of `pipeline/runner.py` |

`Text`, `Ints` and `Wrappers` hold the Python string, integer and option behaviour the modules share.

Some Python behaviours are modelled explicitly:

- Python truthiness: a score of 0 is false, and so are an empty string and a missing value.
- Set membership as Python compares it: 1, 1.0 and True are one value.
- `int()` truncates toward zero.
- `str.lower()` lowers ASCII letters only.
- `f"{n:04d}"` zero-pads to four digits.

Things the code takes from outside are parameters of the model:

- regular-expression matches;
- document text;
- `int()` and `float()` string parses;
- SHA-256 digests;
- `str.isalnum`;
- the file system.

## Model

| member | source | states |
|---|---|---|
| Sources.DocumentTypeName | backend/backend/models/discovered_source.py:8-13 | each document type's stored value parses back to that type |
| Sources.CategoryName | backend/backend/models/discovered_source.py:16-21 | each source category's stored value parses back to that category |
| Facts.FactTypeName | backend/backend/models/extracted_fact.py:8-14 | each fact type's value parses back to that member |
| Facts.ParseFactType | backend/backend/models/extracted_fact.py:8-14 | exactly the five strings budget, zoning, proposal, demographic and development name a fact type |
| Facts.Truthy | backend/backend/agents/budget_analyst.py:43 | a value is falsy exactly when it compares equal to None, "" or 0 |
| Facts.KeyOf | backend/backend/agents/policy_analyst.py:32 | the hash key is that of None exactly for None, and a string key exactly for a string |
| Facts.NumbersCompareByValue | backend/backend/agents/policy_analyst.py:32 | True, 1 and 1.0 are one set element, and so are False, 0 and 0.0, while "1" and 1 are two |
| Facts.ValidateCitations | backend/backend/models/extracted_fact.py:46-52 | the validator passes exactly when the fact has no value or has at least one citation |
| Facts.NullValuePasses | backend/backend/models/extracted_fact.py:46-52 | a fact with no value passes the citation validator, even with no citation |
| Facts.CitedFactPasses | backend/backend/models/extracted_fact.py:46-52 | a fact with at least one citation passes the validator, whatever its value |
| Facts.OfType | backend/backend/agents/budget_analyst.py:26 | the facts kept by the type filter are input facts of that type, and there are no more of them than input facts |
| Facts.OfTypeMembers | backend/backend/agents/policy_analyst.py:26-27 | a fact is kept by the type filter exactly when it is an input fact of that type |
| Facts.OfTypeAppend | backend/backend/agents/budget_analyst.py:26 | filtering a concatenation concatenates the filtered parts, so input order is kept |
| Facts.NoneOfType | backend/backend/agents/budget_analyst.py:26 | with no fact of the type the filter yields nothing |
| Facts.OfTypeIdempotent | backend/backend/agents/budget_analyst.py:26 | filtering twice by one type gives the same as filtering once |
| Facts.OfTypeOther | backend/backend/agents/policy_analyst.py:26-27 | filtering by one type leaves no fact of another type |
| Facts.CitedOfType | backend/backend/agents/underwriter.py:83 | the cited-facts filter keeps only cited input facts of the type |
| Facts.CitedCount | backend/backend/agents/budget_analyst.py:53 | the number of cited facts is at most the number of facts |
| Facts.CitedCountAll | backend/backend/agents/budget_analyst.py:53 | the cited count equals the length exactly when every fact is cited |
| Facts.CitedCountNone | backend/backend/agents/policy_analyst.py:80 | the cited count is 0 exactly when no fact is cited |
| Facts.CitedFraction | backend/backend/agents/budget_analyst.py:53-54 | the cited share lies in [0, 1] and is 0 for no facts |
| Facts.CitedFractionOne | backend/backend/agents/budget_analyst.py:53-54 | for a non-empty list the share is 1 exactly when every fact is cited |
| Facts.CitedFractionZero | backend/backend/agents/policy_analyst.py:80-81 | the share is 0 exactly when no fact is cited |
| Facts.SetOf | backend/backend/agents/budget_analyst.py:51 | `set(xs)` holds exactly the elements of the list |
| Facts.Ids | backend/backend/agents/underwriter.py:85 | the id list has one entry per fact, the i-th being the i-th fact's id |
| Facts.CitationSetMembers | backend/backend/agents/policy_analyst.py:83-85 | an id is in the union of citation ids exactly when some fact lists it |
| Facts.CitationsOfSet | backend/backend/agents/underwriter.py:86-93 | the set of the concatenated citation lists is the union of their sets |
| AgentOutputs.BudgetOutput.Valid | backend/backend/models/agent_outputs.py:6-33 | the field bounds of the budget output: a score absent or in [0, 100], a confidence in [0, 1] and an evidence count of at least 0 |
| AgentOutputs.PolicyOutput.Valid | backend/backend/models/agent_outputs.py:36-61 | the field bounds of the policy output: both scores absent or in [0, 100], a confidence in [0, 1] and an evidence count of at least 0 |
| AgentOutputs.UnderwriterOutput.Valid | backend/backend/models/agent_outputs.py:64-95 | the field bounds of the underwriter output: a score absent or in [0, 100], a confidence in [0, 1] and an evidence count of at least 0 |
| AgentOutputs.RegionPanelOutput.Valid | backend/backend/models/agent_outputs.py:107-114 | a panel is valid when each of its three analyst outputs satisfies its own bounds |
| AgentOutputs.ValidateProsCons | backend/backend/models/agent_outputs.py:97-104 | the validator passes, raises the pros message or raises the cons message, and the cons message only when every pro has both keys |
| AgentOutputs.AllHaveRequiredKeysMeans | backend/backend/models/agent_outputs.py:99-104 | the validator's loop over a list completes exactly when every entry has both `supporting_fact_ids` and `citation_ids` |
| AgentOutputs.ValidateProsConsFailsIff | backend/backend/models/agent_outputs.py:97-104 | `validate_pros_cons` raises exactly when some pro or con lacks either key |
| AgentOutputs.ValidateProsConsIgnores | backend/backend/models/agent_outputs.py:97-104 | the validator's verdict does not depend on the constraints list or on any description |
| BudgetAnalyst.UnitOrCad | backend/backend/agents/budget_analyst.py:47 | an allocation's unit is never empty: the fact's unit, or "CAD" when that is missing or empty |
| BudgetAnalyst.Allocations | backend/backend/agents/budget_analyst.py:42-50 | no more allocations than facts, each with at least one citation and a non-empty unit |
| BudgetAnalyst.AllocatedCitations | backend/backend/agents/budget_analyst.py:51 | the allocated citation ids are among the citation ids of the facts |
| BudgetAnalyst.FundingScore | backend/backend/agents/budget_analyst.py:37-60 | the score is absent for fewer than 2 budget facts, exactly 0 for 2, and `min(10 n, 100)` for n of at least 3 |
| BudgetAnalyst.Budget | backend/backend/agents/budget_analyst.py:59-65 | the output satisfies its field bounds (score in [0, 100], confidence in [0, 1], evidence non-negative), and the evidence count is the number of budget facts |
| BudgetAnalyst.Analyze | backend/backend/agents/budget_analyst.py:11-65 | the analyst's loop over the budget facts yields exactly the output the analysis function describes |
| BudgetAnalyst.NoBudgetFacts | backend/backend/agents/budget_analyst.py:28-35 | without budget facts: no score, no allocations, no citations, and confidence and evidence 0 |
| BudgetAnalyst.OnlyBudgetFactsMatter | backend/backend/agents/budget_analyst.py:26 | the output on all facts equals the output on the budget facts alone |
| BudgetAnalyst.OtherFactsIgnored | backend/backend/agents/budget_analyst.py:26 | appending facts of other types changes nothing |
| BudgetAnalyst.ConfidenceIsCitedShare | backend/backend/agents/budget_analyst.py:53-54 | the confidence is the cited budget facts divided by the budget facts, and 0 when there are none |
| BudgetAnalyst.AllocationsAppend | backend/backend/agents/budget_analyst.py:42-50 | allocations follow input order: the allocations of a concatenation concatenate |
| BudgetAnalyst.AllocationsMembers | backend/backend/agents/budget_analyst.py:42-50 | an allocation is listed exactly when it is made from a fact with a truthy value and a citation |
| BudgetAnalyst.KeyAllocationsExact | backend/backend/agents/budget_analyst.py:42-50 | the key allocations are exactly the budget facts with a truthy value and a citation, unit defaulting to "CAD" |
| BudgetAnalyst.AllocatedCitationsMembers | backend/backend/agents/budget_analyst.py:51 | the collected ids are exactly the citation ids of the allocations |
| BudgetAnalyst.CitationsOfAllocationsOnly | backend/backend/agents/budget_analyst.py:42-64 | the output's citation ids are the union of the allocated facts' citations and nothing else |
| PolicyAnalyst.ZoningScore | backend/backend/agents/policy_analyst.py:30-33 | the zoning score, when present, lies in [0, 100] |
| PolicyAnalyst.DistinctZoningValues | backend/backend/agents/policy_analyst.py:32 | no more distinct values than zoning facts, and none of them falsy (None, an empty string or zero) |
| PolicyAnalyst.FrictionFactors | backend/backend/agents/policy_analyst.py:71-72 | the single friction factor is reported exactly when some status fact exists and pending ones outnumber approved ones; otherwise none |
| PolicyAnalyst.StatusCount | backend/backend/agents/policy_analyst.py:41-53 | a status count is at most the number of proposal facts |
| PolicyAnalyst.ApprovalRate | backend/backend/agents/policy_analyst.py:59-60 | `int(approved / total * 100)` lies in [0, 100] |
| PolicyAnalyst.MomentumScore | backend/backend/agents/policy_analyst.py:39-69 | the momentum score, when present, lies in [0, 100] |
| PolicyAnalyst.ZoningConstraints | backend/backend/agents/policy_analyst.py:74-77 | at most one constraint per zoning fact |
| PolicyAnalyst.Policy | backend/backend/agents/policy_analyst.py:87-95 | the output satisfies its field bounds, and the evidence count is the number of zoning plus proposal facts |
| PolicyAnalyst.CollectConstraints | backend/backend/agents/policy_analyst.py:74-77 | the loop over the zoning facts appends exactly the constraints of the restrictive string values, in order |
| PolicyAnalyst.CollectCitations | backend/backend/agents/policy_analyst.py:83-85 | the loop collects exactly the union of the facts' citation ids |
| PolicyAnalyst.Analyze | backend/backend/agents/policy_analyst.py:11-95 | the analyst's counts and loops yield exactly the output the analysis function describes |
| PolicyAnalyst.DistinctZoningValuesMembers | backend/backend/agents/policy_analyst.py:32 | a value is among the distinct zoning values exactly when some zoning fact has a truthy value equal to it as Python compares |
| PolicyAnalyst.ZoningScoreAbsent | backend/backend/agents/policy_analyst.py:30-33 | the zoning score is absent exactly when no zoning fact has a truthy value, the empty case included |
| PolicyAnalyst.RepeatedZoningValue | backend/backend/agents/policy_analyst.py:32-33 | a zoning fact repeating a value already seen (1, 1.0 and True being one) leaves the score unchanged |
| PolicyAnalyst.FullMomentum | backend/backend/agents/policy_analyst.py:56-60 | with status counts, momentum is 100 exactly when nothing is pending or rejected |
| PolicyAnalyst.NoApprovalNoMomentum | backend/backend/agents/policy_analyst.py:56-60 | with status counts and nothing approved, momentum is 0 |
| PolicyAnalyst.ActivityMomentum | backend/backend/agents/policy_analyst.py:61-69 | with no status count, momentum is `min(5 n, 100)` for the n permit, project and unit-count facts, and absent for n = 0 |
| PolicyAnalyst.FrictionMeansLowMomentum | backend/backend/agents/policy_analyst.py:71-72 | the friction factor is reported exactly when some status is counted and pending outnumbers approved; momentum is then below 50 |
| PolicyAnalyst.ZoningConstraintsMembers | backend/backend/agents/policy_analyst.py:74-77 | a constraint is listed exactly when some zoning fact has a restrictive string value giving that text |
| PolicyAnalyst.ConstraintsExact | backend/backend/agents/policy_analyst.py:39-77 | no proposal facts means no constraints; otherwise the constraints come exactly from zoning strings mentioning "restricted" or "residential" in any case |
| PolicyAnalyst.CitationsOfPolicyFacts | backend/backend/agents/policy_analyst.py:79-85 | the output's citation ids are exactly the citations of the zoning and proposal facts |
| PolicyAnalyst.NoPolicyFacts | backend/backend/agents/policy_analyst.py:87-95 | without zoning or proposal facts (empty input included) both scores are absent and the output is empty |
| Underwriter.FeasibilityScore | backend/backend/agents/underwriter.py:35-48 | the score is absent exactly when all three inputs are absent; with inputs in [0, 100] it lies in [0, 100] |
| Underwriter.SumOfComponents | backend/backend/agents/underwriter.py:38-48 | the summed components are the weighted present scores, absent ones contributing nothing |
| Underwriter.Score | backend/backend/agents/underwriter.py:35-48 | appending the components one by one and summing gives the feasibility score |
| Underwriter.VerdictFor | backend/backend/agents/underwriter.py:50-65 | with a score the verdict is go exactly at 70 or more and avoid exactly below 50; without a score it is unknown exactly when neither analyst has evidence, and caution otherwise |
| Underwriter.PlanFor | backend/backend/agents/underwriter.py:67-73 | plan A exactly for go, B exactly for caution, C exactly for avoid, and unknown exactly for an unknown verdict |
| Underwriter.Pros | backend/backend/agents/underwriter.py:82-112 | at most two pros, each with a description and both required keys |
| Underwriter.Cons | backend/backend/agents/underwriter.py:114-144 | at most two cons, each with a description and both required keys |
| Underwriter.Constraints | backend/backend/agents/underwriter.py:146-160 | at most one constraint entry, present only when the policy output has constraints; it is described by them joined with "; " and has both required keys |
| Underwriter.Underwrite | backend/backend/agents/underwriter.py:15-178 | the output passes `validate_pros_cons`; from valid analyst outputs it satisfies its field bounds; its evidence count is the sum of the analysts' counts |
| Underwriter.Gather | backend/backend/agents/underwriter.py:83-93 | an entry names the cited facts of one type, in order, with the set of their citation ids |
| Underwriter.Consider | backend/backend/agents/underwriter.py:82-96 | a guarded block appends one entry when its condition holds and a cited fact of its type exists, and none otherwise |
| Underwriter.Entries | backend/backend/agents/underwriter.py:75-160 | the five blocks build exactly the pros, cons and constraints the underwriting function describes |
| Underwriter.Analyze | backend/backend/agents/underwriter.py:15-178 | the underwriter's steps yield exactly the output the underwriting function describes |
| Underwriter.UnderwriteValid | backend/backend/agents/underwriter.py:168-178 | from valid analyst outputs the underwriter's output satisfies its field bounds |
| Underwriter.FeasibilityMonotone | backend/backend/agents/underwriter.py:38-48 | raising the funding score never lowers the feasibility score |
| Underwriter.FeasibilityOfEqualScores | backend/backend/agents/underwriter.py:38-48 | three present scores equal to s give feasibility s: the weights sum to one |
| Underwriter.VerdictBands | backend/backend/agents/underwriter.py:52-58 | with a score: go exactly from 70, caution exactly from 50 to 69, avoid exactly below 50 |
| Underwriter.VerdictWithoutScore | backend/backend/agents/underwriter.py:59-65 | without a score: unknown exactly when both evidence counts are 0, caution otherwise |
| Underwriter.PlanFollowsVerdict | backend/backend/agents/underwriter.py:67-73 | plan A, B, C and unknown correspond one to one to go, caution, avoid and unknown |
| Underwriter.EntryShape | backend/backend/agents/underwriter.py:82-160 | every pro, con and constraint is built from all cited facts of one type, of which there is at least one |
| Underwriter.UnderwriteEntriesComplete | backend/backend/agents/underwriter.py:90-158 | every entry has a description, supporting fact ids and citation ids, so `validate_pros_cons` never raises on the output |
| Underwriter.EntriesBackedByCitedFacts | backend/backend/agents/underwriter.py:83-92 | an entry names at least one fact id, and each id named is that of a cited input fact |
| Underwriter.LimitedFundingExactly | backend/backend/agents/underwriter.py:114-128 | the "Limited funding" con appears exactly for a funding score strictly between 0 and 40 with a cited budget fact; a score of 0 never yields it |
| Underwriter.CitationsIncludeSources | backend/backend/agents/underwriter.py:165-166 | the output cites everything both analyses cite and everything its entries cite |
| Underwriter.CitationsFromInputsOnly | backend/backend/agents/underwriter.py:79-166 | the output cites nothing beyond the analyses' citations and the input facts' citations |
| Underwriter.EvidenceAndConfidence | backend/backend/agents/underwriter.py:162-163 | evidence is the sum of both analyses'; confidence is `min(total / 10, 1)`, and 0 exactly when there is no evidence |
| SharedState.SharedStateManager.constructor | backend/backend/agents/shared_state.py:37-38 | a new manager holds no state |
| SharedState.SharedStateManager.InitializeState | backend/backend/agents/shared_state.py:40-59 | any previous state is replaced by one with the inputs, no outputs, and empty events, scores, constraints and plan variants, and that state is returned |
| SharedState.SharedStateManager.UpdateBudgetOutput | backend/backend/agents/shared_state.py:61-67 | no state, no change; otherwise the output is stored, one event is appended and the funding score is written when present |
| SharedState.SharedStateManager.UpdatePolicyOutput | backend/backend/agents/shared_state.py:69-80 | no state, no change; otherwise the output is stored, one event is appended, present scores are written and the constraints are extended |
| SharedState.SharedStateManager.UpdateUnderwriterOutput | backend/backend/agents/shared_state.py:82-99 | no state, no change; otherwise the state after the verdict event, the score, the plan variant, and the pro and con loops |
| SharedState.SharedStateManager.GetState | backend/backend/agents/shared_state.py:101-103 | returns the current state, absent before initialisation |
| SharedState.SharedStateManager.AddEvent | backend/backend/agents/shared_state.py:105-108 | no state, no change; otherwise the event is appended |
| SharedState.SharedStateManager.AddScore | backend/backend/agents/shared_state.py:110-113 | no state, no change; otherwise the score is written under its name |
| SharedState.SharedStateManager.AddConstraint | backend/backend/agents/shared_state.py:115-118 | no state, no change; otherwise the constraint is appended unless already present |
| SharedState.SharedStateManager.AddPlanVariant | backend/backend/agents/shared_state.py:120-123 | no state, no change; otherwise the variant is appended unless already present |
| SharedState.AddIdempotent | backend/backend/agents/shared_state.py:115-123 | adding a constraint or a plan variant twice is the same as adding it once |
| SharedState.AddKeepsNoDuplicates | backend/backend/agents/shared_state.py:115-123 | used alone, `add_constraint` and `add_plan_variant` keep their lists free of repeats, and the value is present afterwards |
| SharedState.BudgetUpdateScores | backend/backend/agents/shared_state.py:61-67 | the budget update appends exactly one event, writes the funding score only when present, and leaves every other score as it was |
| SharedState.PolicyExtendsConstraints | backend/backend/agents/shared_state.py:78-80 | the policy update keeps the old constraints in front of the output's, in order and with none removed |
| SharedState.PolicyMayRepeatConstraints | backend/backend/agents/shared_state.py:79-80 | the policy update does not remove repeats: a constraint already present is added again |
| SharedState.DescriptionEventsCount | backend/backend/agents/shared_state.py:92-97 | the pro and con loops append one event per entry that has a description |
| SharedState.UnderwriterUpdateEvents | backend/backend/agents/shared_state.py:82-97 | the underwriter update appends 1 + described pros + described cons events, the verdict event first; it appends the plan variant unless unknown, without checking for repeats |
| SharedState.AddAbsentProperties | backend/backend/agents/shared_state.py:95-99 | the cons loop keeps the old constraints in front, adds every con description, adds nothing else, and keeps a repeat-free list repeat-free |
| SharedState.EventsOnlyGrow | backend/backend/agents/shared_state.py:61-123 | no operation removes or reorders an event: the old log is a prefix of the new one |
| SharedState.ScoreOverwrites | backend/backend/agents/shared_state.py:110-113 | `add_score` overwrites: the last value written under a name is the one kept |
| SharedState.Initial | backend/backend/agents/shared_state.py:40-59 | the new state holds the region and the facts, an empty event log, and constraint and plan lists without repeats |
| SharedState.AfterBudget | backend/backend/agents/shared_state.py:61-67 | one event is appended to the log; the constraints and plan variants are unchanged |
| SharedState.AfterPolicy | backend/backend/agents/shared_state.py:69-80 | one event is appended; the policy constraints are appended after the old ones; the plan variants are unchanged |
| SharedState.AfterUnderwriter | backend/backend/agents/shared_state.py:82-99 | the log only grows at its end; constraints without repeats stay without repeats; at most one plan variant is appended after the old ones |
| FactExtractor.CitationsFor | backend/backend/extractors/fact_extractor.py:35-37 | one citation per source |
| FactExtractor.CiteId | backend/backend/extractors/fact_extractor.py:48 | defines `cite_` followed by the counter padded to four digits; its properties are stated by FactExtractor.CiteIdInjective and FactExtractor.CiteIdsDiffer |
| FactExtractor.DataPath | backend/backend/extractors/fact_extractor.py:70 | the full path ends with the stored path, and a relative stored path lies under the data directory |
| FactExtractor.SourceFacts | backend/backend/extractors/fact_extractor.py:58-87 | defines the facts of one source; its properties are stated by FactExtractor.SourceFactsCite, FactExtractor.SourcesWithoutFacts and FactExtractor.SourceFactIdsDistinct |
| FactExtractor.AllFacts | backend/backend/extractors/fact_extractor.py:21-43 | defines the facts of all sources, the i-th extracted under citation start + i + 1; its properties are stated by FactExtractor.AllFactsCite, FactExtractor.AllFactsAppend and FactExtractor.FailureIsolated |
| FactExtractor.Extractor.constructor | backend/backend/extractors/fact_extractor.py:17-19 | a new extractor's citation counter is 0 |
| FactExtractor.Extractor.CreateCitation | backend/backend/extractors/fact_extractor.py:45-56 | the counter rises by one and the citation carries the source's title, URI and time and the id for the new counter |
| FactExtractor.Extractor.ExtractFactsFromSources | backend/backend/extractors/fact_extractor.py:21-43 | the counter rises by the number of sources; the citations and facts are those of each source in turn, numbered on from the old counter |
| FactExtractor.ExtractBudgetFacts | backend/backend/extractors/fact_extractor.py:152-203 | one numbered mention fact per amount match, then a year fact if a year was found, counting from 1 |
| FactExtractor.AppendMatchFacts | backend/backend/extractors/fact_extractor.py:219-230 | one fact per match, in order, numbered on from the counter, and the counter advanced by the number of matches |
| FactExtractor.AppendKeywordFacts | backend/backend/extractors/fact_extractor.py:233-246 | one fact per keyword the text mentions, in list order, numbered on from the counter |
| FactExtractor.ExtractZoningFacts | backend/backend/extractors/fact_extractor.py:205-248 | the zoning-code facts, then the keyword facts, under one counter |
| FactExtractor.ExtractProposalFacts | backend/backend/extractors/fact_extractor.py:250-299 | the proposal-id facts, then the status facts, under one counter |
| FactExtractor.ExtractDemographicFacts | backend/backend/extractors/fact_extractor.py:301-354 | the population facts, then the growth facts, under one counter; nothing when a number fails to parse |
| FactExtractor.ExtractByCategory | backend/backend/extractors/fact_extractor.py:112-120 | dispatches on the category to the matching extraction |
| FactExtractor.BudgetFacts | backend/backend/extractors/fact_extractor.py:152-203 | defines the budget facts of a document; their number is stated by FactExtractor.CategoryFactCounts |
| FactExtractor.ZoningFacts | backend/backend/extractors/fact_extractor.py:205-248 | defines the zoning facts of a document; their number is stated by FactExtractor.CategoryFactCounts |
| FactExtractor.ProposalFacts | backend/backend/extractors/fact_extractor.py:250-299 | defines the proposal facts of a document; their number is stated by FactExtractor.CategoryFactCounts |
| FactExtractor.DemographicFacts | backend/backend/extractors/fact_extractor.py:301-354 | defines the demographic facts of a document; when they exist and how many there are is stated by FactExtractor.CategoryFactCounts |
| FactExtractor.CategoryFactCounts | backend/backend/extractors/fact_extractor.py:152-354 | one budget fact per amount match and one for a matched year; one zoning fact per code and per keyword mentioned; one proposal fact per id and per status mentioned; one demographic fact per population and growth rate, and none exactly when a number fails to parse |
| FactExtractor.ExtractFromSource | backend/backend/extractors/fact_extractor.py:58-87 | no stored path, a missing file, an unreadable file, an extraction that raises, an RSS or API source: no facts; otherwise the category's facts |
| FactExtractor.MultiplierByLetter | backend/backend/extractors/fact_extractor.py:361-372 | the multiplier is 10^9 exactly when a 'b' occurs in any case, else 10^6 exactly for an 'm', else 10^3 for a 'k' or "thousand", else 1 |
| FactExtractor.ParseBudgetValueMeans | backend/backend/extractors/fact_extractor.py:356-377 | the parse fails exactly when `float()` rejects the normalised text, and otherwise scales the number by the multiplier |
| FactExtractor.UpperCaseSuffixKept | backend/backend/extractors/fact_extractor.py:362-370 | the suffix is removed case-sensitively: "$500M" takes the millions branch yet hands "500M" to `float()` |
| FactExtractor.Multiplier | backend/backend/extractors/fact_extractor.py:361-372 | defines the multiplier of the first matching branch; see FactExtractor.MultiplierByLetter |
| FactExtractor.NormalizedAmount | backend/backend/extractors/fact_extractor.py:359-370 | defines the text handed to `float()`; see FactExtractor.NormalizedAmountUnsigned and FactExtractor.UpperCaseSuffixKept |
| FactExtractor.NormalizedAmountUnsigned | backend/backend/extractors/fact_extractor.py:359-370 | the text handed to `float()` contains no "$" and no ",", whichever branch is taken |
| FactExtractor.ParseBudgetValue | backend/backend/extractors/fact_extractor.py:356-377 | defines the parse as the scaled `float()` result; see FactExtractor.ParseBudgetValueMeans |
| FactExtractor.CiteIdInjective | backend/backend/extractors/fact_extractor.py:48 | a citation id gives back the counter it was made from |
| FactExtractor.CiteIdsDiffer | backend/backend/extractors/fact_extractor.py:47-48 | different counters give different citation ids |
| FactExtractor.CitationsForIndex | backend/backend/extractors/fact_extractor.py:35-37 | the i-th citation belongs to the i-th source and carries counter start + i + 1 |
| FactExtractor.CitationIdsUnique | backend/backend/extractors/fact_extractor.py:45-48 | citation ids never repeat within one call, nor between a call and the next on the same extractor |
| FactExtractor.CitationsForAppend | backend/backend/extractors/fact_extractor.py:35-37 | the citations for two lists of sources, the second numbered on from the first |
| FactExtractor.SourceFactsCite | backend/backend/extractors/fact_extractor.py:58-87 | every fact of a source is about the given region, cites exactly that source's citation, has the category's fact type, and passes the citation validator |
| FactExtractor.SourcesWithoutFacts | backend/backend/extractors/fact_extractor.py:67-73 | a source with no stored path, a missing or unreadable file, or RSS or API type gives no facts |
| FactExtractor.AllFactsAppend | backend/backend/extractors/fact_extractor.py:35-41 | the facts of two lists of sources concatenate, the second numbered on from the first |
| FactExtractor.FailureIsolated | backend/backend/extractors/fact_extractor.py:75-86 | a source giving no facts leaves the facts of the sources before and after it unchanged, and still takes its citation number |
| FactExtractor.AllFactsCite | backend/backend/extractors/fact_extractor.py:21-43 | every collected fact is about the region, passes the validator, and cites exactly the citation of some one source, whose category gives its type |
| FactExtractor.PresentMembers | backend/backend/extractors/fact_extractor.py:233-235 | a keyword is selected exactly when it is listed and the text mentions it in any case |
| FactExtractor.PresentDistinct | backend/backend/extractors/fact_extractor.py:233-235 | a repeat-free keyword list selects a repeat-free list |
| FactExtractor.ZoningKeywordOnce | backend/backend/extractors/fact_extractor.py:233-246 | one zoning-keyword fact for each listed keyword the text mentions in any case, and none for the others |
| FactExtractor.StatusKeywordOnce | backend/backend/extractors/fact_extractor.py:284-297 | one status fact for each listed status the text mentions in any case, and none for the others |
| FactExtractor.BudgetYearAtMostOnce | backend/backend/extractors/fact_extractor.py:189-201 | at most one budget-year fact per source, present exactly when a year was matched |
| FactExtractor.FactIdCounter | backend/backend/extractors/fact_extractor.py:173-193 | within one fact type, the counter can be read back from a fact id, whichever of the type's two kinds it has |
| FactExtractor.NumberIdsDistinct | backend/backend/extractors/fact_extractor.py:220-237 | facts numbered 1, 2, ... with kinds of one type have pairwise distinct ids |
| FactExtractor.BudgetIdsDistinct | backend/backend/extractors/fact_extractor.py:172-193 | no two budget facts of a source share an id |
| FactExtractor.ZoningIdsDistinct | backend/backend/extractors/fact_extractor.py:220-237 | no two zoning facts of a source share an id |
| FactExtractor.ProposalIdsDistinct | backend/backend/extractors/fact_extractor.py:271-288 | no two proposal facts of a source share an id |
| FactExtractor.DemographicIdsDistinct | backend/backend/extractors/fact_extractor.py:321-342 | no two demographic facts of a source share an id |
| FactExtractor.SourceFactIdsDistinct | backend/backend/extractors/fact_extractor.py:152-354 | within one source's extraction the counter rises by one per fact, so no two of its facts share an id |
| FactExtractor.FactIdsRepeatAcrossSources | backend/backend/extractors/fact_extractor.py:160-173 | fact ids are unique only per source: two sources with the same document give facts with equal ids under different citations |
| SourceRegistry.Registry.constructor | backend/backend/storage/source_registry.py:14-17 | a registry reads whatever the file already holds |
| SourceRegistry.Registry.AddSource | backend/backend/storage/source_registry.py:19-23 | the file, created if missing, gains exactly one record at its end, and earlier lines are unchanged |
| SourceRegistry.Registry.AddSources | backend/backend/storage/source_registry.py:25-28 | the file gains one record per source, in order; no sources, no change |
| SourceRegistry.Registry.GetAllSources | backend/backend/storage/source_registry.py:76-89 | every record in file order, blank lines skipped; a missing file gives none |
| SourceRegistry.Registry.GetSourcesByRegion | backend/backend/storage/source_registry.py:30-49 | the loop's result, or its failure on a null path, as the region query describes |
| SourceRegistry.Registry.GetSourcesByCategory | backend/backend/storage/source_registry.py:51-74 | the loop's result, or its failure on a null path, as the category query describes |
| SourceRegistry.Records | backend/backend/storage/source_registry.py:76-89 | at most one source per line, each the record stored on some line |
| SourceRegistry.ByRegion | backend/backend/storage/source_registry.py:30-49 | on success at most one source per line, each with a stored path that contains the region id |
| SourceRegistry.ByCategory | backend/backend/storage/source_registry.py:51-74 | an error only when a region id is given; on success at most one source per line, each of the requested category |
| SourceRegistry.ByRegionErrKept | backend/backend/storage/source_registry.py:43-47 | once the region query fails on a record, it fails with that error on the file |
| SourceRegistry.ByCategoryErrKept | backend/backend/storage/source_registry.py:65-71 | once the category query fails on a record, it fails with that error on the file |
| SourceRegistry.RecordLinesRead | backend/backend/storage/source_registry.py:19-28 | reading back the records written for a list of sources gives that list |
| SourceRegistry.AddedSourcesRead | backend/backend/storage/source_registry.py:25-28 | the sources added come back after the records already there, which are unchanged |
| SourceRegistry.BlankLineSkipped | backend/backend/storage/source_registry.py:84-85 | a blank line contributes nothing wherever it stands |
| SourceRegistry.ByRegionMeans | backend/backend/storage/source_registry.py:30-49 | the region query fails exactly when some record has a null path; otherwise it returns, in file order, exactly the records whose path contains the region id |
| SourceRegistry.ByCategoryMeans | backend/backend/storage/source_registry.py:51-74 | the category query fails exactly when a region is given and a record of the category has a null path; otherwise it returns, in order, the records of the category, for a given region only those whose path contains it |
| SourceRegistry.CategoryResults | backend/backend/storage/source_registry.py:66-67 | every source returned has the requested category, and a string naming no category returns nothing |
| Scraper.StoreSource | backend/backend/scraper/scraper.py:64-113 | on failure the source is unchanged; on success the hash and the relative stored path are set and nothing else changes |
| Scraper.ExtensionOf | backend/backend/scraper/scraper.py:85-91 | the extension is one of .html, .pdf, .xml, .json and the .txt default |
| Scraper.SafeTitle | backend/backend/scraper/scraper.py:94-97 | at most 100 characters, each alphanumeric, '-' or '_' |
| Scraper.StoredFilename | backend/backend/scraper/scraper.py:98 | the file name starts with the safe title followed by '_' |
| Scraper.StoredPath | backend/backend/scraper/scraper.py:99-106 | the relative path starts with raw/ and ends with the file name |
| Scraper.ExtensionsOfTypes | backend/backend/scraper/scraper.py:85-91 | html, pdf, rss and api map to .html, .pdf, .xml and .json; ".txt" only for a value naming no type |
| Scraper.SafeTitleShape | backend/backend/scraper/scraper.py:94-97 | the safe title is `min(len(title), 100)` long; allowed characters keep their place, the others become '_' |
| Scraper.SafeTitleIdempotent | backend/backend/scraper/scraper.py:94-97 | sanitising a safe title again changes nothing |
| Scraper.SafeTitleHasNoSeparator | backend/backend/scraper/scraper.py:94-99 | when '/' and '.' are not alphanumeric, the safe title contains neither, so the file stays in the region directory |
| Scraper.StoredFilenameParts | backend/backend/scraper/scraper.py:98 | the file name splits into the safe title, '_', the hash's first 8 characters and the extension |
| Scraper.StoredFilenamesDiffer | backend/backend/scraper/scraper.py:98 | for one title and type, two hashes give the same name exactly when their first 8 characters agree |
| Runner.AnalyzeRegion | backend/backend/pipeline/runner.py:128-143 | the panel carries the region and the time stamp, and it satisfies every analyst output's field bounds |
| Runner.PanelValid | backend/backend/pipeline/runner.py:127-143 | whatever the facts, the panel's three outputs satisfy their field bounds |
| Runner.PanelEvidence | backend/backend/pipeline/runner.py:128-135 | the underwriter's evidence count is the number of budget, zoning and proposal facts |
| Runner.UnknownIffNoEvidence | backend/backend/pipeline/runner.py:128-135 | the panel's verdict is unknown exactly when the region has no budget, zoning or proposal fact |
| Runner.StoredPathResolves | backend/backend/scraper/scraper.py:99-106 | the relative path the scraper records leads the extractor back to the file written in the region's raw-document directory |
| Text.Lower | backend/backend/extractors/fact_extractor.py:235 | lower-casing keeps the length and lowers each ASCII letter |
| Text.ContainsMeans | backend/backend/extractors/fact_extractor.py:235 | `needle in hay` holds exactly when the needle occurs at some position |
| Text.Padded4Value | backend/backend/extractors/fact_extractor.py:48 | `f"{n:04d}"` has at least four digits and reads back as n |
| Text.Padded4Injective | backend/backend/extractors/fact_extractor.py:173 | different counters give different zero-padded numerals |

## Left out

- The LLM agents (`crew_agents.py`, `production_crew.py`) and the LLM branch of the runner: calls to an external model.
- The link-discovery crawler (`discovery.py`), the network loop of `scrape_city` and the download in `_store_source`: network I/O. The download's outcome is an input of `Scraper.StoreSource`.
- The database client (`supabase_storage.py`), the HTTP API (`api/main.py`) and the command line (`cli.py`): plumbing around the modelled core.
- Regular-expression matching, HTML and PDF text extraction, `int()`/`float()` parsing of strings, SHA-256 and `str.isalnum`: foreign libraries. Their results are inputs of the model.
- Floating point: confidences are exact reals, and the feasibility and approval-rate truncations are taken on exact values. Python's binary floats can differ from these in rare edge cases.
- Underwriter.FeasibilityScore: computed as `int((4 f + 3 z + 3 m) / 10)` on exact integers rather than on the float sum `0.4 f + 0.3 z + 0.3 m`.
- PolicyAnalyst.ApprovalRate: `floor(100 a / t)` exactly, rather than `int(a / t * 100)` in floating point.
- Dictionary and list fact values: the extractor never produces them, and the policy analyst's set of values would raise on them.
- Timestamps (`datetime.utcnow`) and serialisation (`model_dump`, JSON). A time stamp is an input of `Runner.AnalyzeRegion`. A registry line is either blank or a decoded source; malformed JSON lines are not modelled.
- The order of citation lists built from Python sets (`list(set(...))`): Python leaves that order unspecified, so these lists are modelled as sets.
- Aliasing: `_store_source` mutates the source it is given, and `initialize_state` returns the very record later updates change. The model works on values, so a caller's copy of that record is not updated.
- The registry constructor's creation of the parent directory, and the error messages printed in exception handlers: I/O only.
- FactExtractor.ExtractBudgetFacts: the parsed amount `_parse_budget_value` returns is discarded by the source, so facts store the matched text. The parser is modelled separately.
- FactExtractor.ExtractBudgetFacts, FactExtractor.ExtractProposalFacts, FactExtractor.ExtractDemographicFacts: the nested loops over several patterns become one loop over the concatenated matches, first pattern's matches first. The numbering is the same.
- `_extract_from_rss` and `_extract_from_api` are called but not defined by the class. The resulting error is caught, so RSS and API sources give no facts.
- `str.lower()` beyond ASCII letters: other characters are kept unchanged.
- Text.Strip: removes ASCII white space and the separators \x1c to \x1f only; the other Unicode white space `str.strip()` also removes (such as a no-break space) is kept.
- Scraper.StoreSource: the stored path is built by joining strings, and Python's path handling is not modelled. An empty region id, a region id of ".", or one with a trailing or doubled '/' is normalised by `pathlib` (for instance "" gives `raw/<file name>`, not `raw//<file name>`). With an absolute region id, `relative_to` raises after the hash is recorded, so the source keeps the new hash and its old path.
