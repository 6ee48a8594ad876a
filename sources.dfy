/** Discovered sources and citations: the records the scraper produces and the extractor cites. */
module Sources {
  import opened Wrappers

  datatype DocumentType = Html | Pdf | Rss | Api

  /** The enumeration's string value, as stored in the registry. */
  function DocumentTypeName(t: DocumentType): (r: string)
    ensures ParseDocumentType(r) == Some(t)
  {
    match t
    case Html => "html"
    case Pdf => "pdf"
    case Rss => "rss"
    case Api => "api"
  }

  /** `DocumentType(s)`: the member whose value is `s`, if any. */
  function ParseDocumentType(s: string): Option<DocumentType> {
    if s == "html" then Some(Html)
    else if s == "pdf" then Some(Pdf)
    else if s == "rss" then Some(Rss)
    else if s == "api" then Some(Api)
    else None
  }

  datatype SourceCategory = BudgetSource | ZoningSource | ProposalsSource | AnalyticsSource

  function CategoryName(c: SourceCategory): (r: string)
    ensures ParseCategory(r) == Some(c)
  {
    match c
    case BudgetSource => "budget"
    case ZoningSource => "zoning"
    case ProposalsSource => "proposals"
    case AnalyticsSource => "analytics"
  }

  function ParseCategory(s: string): Option<SourceCategory> {
    if s == "budget" then Some(BudgetSource)
    else if s == "zoning" then Some(ZoningSource)
    else if s == "proposals" then Some(ProposalsSource)
    else if s == "analytics" then Some(AnalyticsSource)
    else None
  }

  /** A web source; `fileHash` and `filePath` stay absent until the document is stored.
      Timestamps are kept as their ISO text. */
  datatype DiscoveredSource = DiscoveredSource(
    title: string,
    uri: string,
    category: SourceCategory,
    documentType: DocumentType,
    retrievedAt: string,
    fileHash: Option<string>,
    filePath: Option<string>)

  /** A citation: the id facts refer to, and where the cited source lives. */
  datatype Citation = Citation(
    id: string,
    title: string,
    uri: string,
    locator: Option<string>,
    retrievedAt: string)
}
