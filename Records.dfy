/**
 * The records passed between the crawler, the analyzer and the reporter
 * (common/data_structures.py), and the values they carry.
 */
module Records {
  import opened Wrappers
  import opened PyStrings

  /** `status_code: int | str`. */
  datatype StatusCode = Code(code: int) | Token(text: string)

  /** The `"type"` entry of a broken-link dict. */
  datatype LinkType = Internal | External

  /** A broken-link dict `{"url", "status_code", "type"}`. */
  datatype BrokenLink = BrokenLink(url: string, statusCode: StatusCode, linkType: LinkType)

  /** A detected-library dict `{"name", "version"}`. */
  datatype DetectedLibrary = DetectedLibrary(name: string, version: string)

  /** The outcome of crawling one site. */
  datatype CrawlResult = CrawlResult(
    url: string,
    statusCode: StatusCode,
    title: Option<string>,
    metaDescription: Option<string>,
    h1: Option<string>,
    bodyText: Option<string>,
    updateDate: Option<string>,
    brokenLinks: seq<BrokenLink>,
    detectedLibraries: seq<DetectedLibrary>,
    errorMessage: Option<string>)

  /** The judgement about one site, one row of the report. */
  datatype AnalysisResult = AnalysisResult(
    url: string,
    status: string,
    lastUpdated: string,
    score: int,
    notes: string,
    brokenLinksSummary: string)

  /** `str(status_code)`. */
  function StatusText(c: StatusCode): string
  {
    match c
    case Code(n) => IntToString(n)
    case Token(t) => t
  }

  /** The `"type"` string of a broken-link dict. */
  function LinkTypeText(t: LinkType): (s: string)
    ensures s == "internal" || s == "external"
  {
    match t
    case Internal => "internal"
    case External => "external"
  }

  /**
   * `CrawlResult(url=..., status_code=...)`: every optional field takes its
   * default `None` and both lists start empty.
   */
  function NewCrawlResult(url: string, statusCode: StatusCode): (r: CrawlResult)
    ensures r.url == url && r.statusCode == statusCode
    ensures r.title.None? && r.metaDescription.None? && r.h1.None?
    ensures r.bodyText.None? && r.updateDate.None? && r.errorMessage.None?
    ensures r.brokenLinks == [] && r.detectedLibraries == []
  {
    CrawlResult(url, statusCode, None, None, None, None, None, [], [], None)
  }

  /** All five extraction fields are set. */
  predicate ExtractionSet(r: CrawlResult)
  {
    r.title.Some? && r.metaDescription.Some? && r.h1.Some? && r.bodyText.Some? && r.updateDate.Some?
  }

  /** None of the five extraction fields is set. */
  predicate ExtractionUnset(r: CrawlResult)
  {
    r.title.None? && r.metaDescription.None? && r.h1.None? && r.bodyText.None? && r.updateDate.None?
  }

  /**
   * The documented invariant of a crawl result: exactly one of
   * "the extraction fields are set" and "an error message is set" holds.
   */
  predicate WellFormed(r: CrawlResult)
  {
    (ExtractionSet(r) && r.errorMessage.None?) || (ExtractionUnset(r) && r.errorMessage.Some?)
  }

  /** The only status codes a crawl produces. */
  predicate ProducedStatus(c: StatusCode)
  {
    c == Code(200) || c == Token("Timeout") || c == Token("Error")
  }

  /**
   * The record type alone does not keep the invariant: a result built from
   * its defaults has neither extraction fields nor an error message.
   */
  lemma DefaultsAreNotWellFormed(url: string, statusCode: StatusCode)
    ensures !WellFormed(NewCrawlResult(url, statusCode))
  {
  }

  const NormalLabel := "✅ 正常"
  const SuspectLabel := "⚠️ 疑似過時"
  const SevereLabel := "❌ 嚴重過時"
  const ErrorLabel := "🔥 錯誤"

  /** The four status labels the record documents. */
  const StatusLabels: seq<string> := [NormalLabel, SuspectLabel, SevereLabel, ErrorLabel]

  /** What the record documents about an analysis: a known label and a score in 0..100. */
  predicate Documented(a: AnalysisResult)
  {
    a.status in StatusLabels && 0 <= a.score <= 100
  }
}
