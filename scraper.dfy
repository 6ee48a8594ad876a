/** Where the scraper stores a downloaded document: a file name made from the source's title, the
    content hash and the document type, under the region's raw-document directory. */
module Scraper {
  import opened Wrappers
  import opened Ints
  import opened Config
  import opened Sources

  /** The extension table, keyed by the document type's stored value. */
  const ExtensionTable: map<string, string> :=
    map["html" := ".html", "pdf" := ".pdf", "rss" := ".xml", "api" := ".json"]

  /** `ext_map.get(value, ".txt")`. */
  function ExtensionOf(typeValue: string): (r: string)
    ensures r in {".html", ".pdf", ".xml", ".json", ".txt"}
  {
    if typeValue in ExtensionTable then ExtensionTable[typeValue] else ".txt"
  }

  /** The longest safe title kept. */
  const MaxTitleLength: nat := 100

  /** How many leading characters of the hash the file name keeps. */
  const HashPrefixLength: nat := 8

  /** A title character that is kept; `isAlnum` is Python's `str.isalnum` on one character. */
  predicate Allowed(c: char, isAlnum: char -> bool) {
    isAlnum(c) || c == '-' || c == '_'
  }

  /** The title with every other character replaced by '_', cut to 100 characters. */
  function SafeTitle(title: string, isAlnum: char -> bool): (r: string)
    ensures |r| <= MaxTitleLength
    ensures forall i :: 0 <= i < |r| ==> Allowed(r[i], isAlnum)
  {
    var replaced := seq(|title|, i requires 0 <= i < |title| => if Allowed(title[i], isAlnum) then title[i] else '_');
    replaced[..Min(|replaced|, MaxTitleLength)]
  }

  /** `f"{safe_title}_{file_hash[:8]}{ext}"`. */
  function StoredFilename(title: string, fileHash: string, documentType: DocumentType, isAlnum: char -> bool)
    : (r: string)
    ensures var safe := SafeTitle(title, isAlnum);
      |r| > |safe| && r[..|safe| + 1] == safe + "_"
  {
    SafeTitle(title, isAlnum) + "_" + fileHash[..Min(|fileHash|, HashPrefixLength)]
      + ExtensionOf(DocumentTypeName(documentType))
  }

  /** The stored path relative to the data directory: `raw/<region>/<file name>`. */
  function StoredPath(regionId: string, filename: string): (r: string)
    ensures |r| > |RawDirUnderData| + |filename| && r[..|RawDirUnderData| + 1] == RawDirUnderData + "/"
    ensures r[|r| - |filename|..] == filename
  {
    RawDirUnderData + "/" + regionId + "/" + filename
  }

  /** What became of the download and the write: the content's hex SHA-256 digest, or an error. */
  datatype StoreOutcome = Stored(fileHash: string) | Failed

  /** `_store_source`: on success the hash and the relative path are recorded on the source; on
      any error the source comes back as it was. */
  function StoreSource(source: DiscoveredSource, regionId: string, outcome: StoreOutcome, isAlnum: char -> bool)
    : (r: DiscoveredSource)
    ensures outcome.Failed? ==> r == source
    ensures outcome.Stored? ==>
      r.fileHash == Some(outcome.fileHash)
      && r.filePath == Some(StoredPath(regionId, StoredFilename(source.title, outcome.fileHash, source.documentType, isAlnum)))
    ensures r.(fileHash := source.fileHash, filePath := source.filePath) == source
  {
    match outcome
    case Failed => source
    case Stored(h) =>
      source.(fileHash := Some(h), filePath := Some(StoredPath(regionId, StoredFilename(source.title, h, source.documentType, isAlnum))))
  }

  // Properties

  /** Each document type has its own extension, and the ".txt" default is never reached by one. */
  lemma ExtensionsOfTypes()
    ensures ExtensionOf(DocumentTypeName(Html)) == ".html"
    ensures ExtensionOf(DocumentTypeName(Pdf)) == ".pdf"
    ensures ExtensionOf(DocumentTypeName(Rss)) == ".xml"
    ensures ExtensionOf(DocumentTypeName(Api)) == ".json"
    ensures forall t :: ExtensionOf(DocumentTypeName(t)) != ".txt"
    ensures forall v :: ParseDocumentType(v).None? ==> ExtensionOf(v) == ".txt"
  {
    forall t ensures ExtensionOf(DocumentTypeName(t)) != ".txt" {
      match t
      case Html =>
      case Pdf =>
      case Rss =>
      case Api =>
    }
  }

  /** The safe title is as long as the title up to 100 characters; an allowed character keeps its
      place, every other one becomes '_', so every character of it is allowed. */
  lemma SafeTitleShape(title: string, isAlnum: char -> bool)
    ensures var safe := SafeTitle(title, isAlnum);
      |safe| == Min(|title|, MaxTitleLength)
      && (forall i :: 0 <= i < |safe| ==> safe[i] == if Allowed(title[i], isAlnum) then title[i] else '_')
      && (forall i :: 0 <= i < |safe| ==> Allowed(safe[i], isAlnum))
  {
  }

  /** Sanitising a safe title again changes nothing. */
  lemma SafeTitleIdempotent(title: string, isAlnum: char -> bool)
    ensures SafeTitle(SafeTitle(title, isAlnum), isAlnum) == SafeTitle(title, isAlnum)
  {
    var safe := SafeTitle(title, isAlnum);
    SafeTitleShape(title, isAlnum);
    SafeTitleShape(safe, isAlnum);
  }

  /** When '/' and '.' are not alphanumeric, as in Python, a safe title has neither, so the file
      name stays inside the region directory. */
  lemma SafeTitleHasNoSeparator(title: string, isAlnum: char -> bool)
    requires !isAlnum('/') && !isAlnum('.')
    ensures '/' !in SafeTitle(title, isAlnum) && '.' !in SafeTitle(title, isAlnum)
  {
    SafeTitleShape(title, isAlnum);
  }

  /** The file name splits back into the safe title, an underscore, the hash prefix and the
      extension; a 64-digit SHA-256 digest contributes exactly 8 characters. */
  lemma StoredFilenameParts(title: string, fileHash: string, documentType: DocumentType, isAlnum: char -> bool)
    ensures var name := StoredFilename(title, fileHash, documentType, isAlnum);
      var safe := SafeTitle(title, isAlnum);
      var ext := ExtensionOf(DocumentTypeName(documentType));
      var n := Min(|fileHash|, HashPrefixLength);
      |name| == |safe| + 1 + n + |ext|
      && name[..|safe|] == safe && name[|safe|] == '_'
      && name[|safe| + 1..|safe| + 1 + n] == fileHash[..n]
      && name[|name| - |ext|..] == ext
    ensures |fileHash| == 64 ==>
      (|StoredFilename(title, fileHash, documentType, isAlnum)|
         == |SafeTitle(title, isAlnum)| + 9 + |ExtensionOf(DocumentTypeName(documentType))|)
  {
    var safe := SafeTitle(title, isAlnum);
    var ext := ExtensionOf(DocumentTypeName(documentType));
    var n := Min(|fileHash|, HashPrefixLength);
    var name := StoredFilename(title, fileHash, documentType, isAlnum);
    assert name == safe + "_" + fileHash[..n] + ext;
    assert name[..|safe|] == safe;
    assert name[|safe| + 1..|safe| + 1 + n] == fileHash[..n];
    assert name[|name| - |ext|..] == ext;
  }

  /** Two stored sources of one title and type but different digest prefixes get different
      names; equal prefixes collide. */
  lemma StoredFilenamesDiffer(title: string, h1: string, h2: string, documentType: DocumentType, isAlnum: char -> bool)
    requires |h1| >= HashPrefixLength && |h2| >= HashPrefixLength
    ensures StoredFilename(title, h1, documentType, isAlnum) == StoredFilename(title, h2, documentType, isAlnum)
      <==> h1[..HashPrefixLength] == h2[..HashPrefixLength]
  {
    StoredFilenameParts(title, h1, documentType, isAlnum);
    StoredFilenameParts(title, h2, documentType, isAlnum);
  }
}
