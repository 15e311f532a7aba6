/**
 * One site crawl (crawler/web_crawler.py, `WebCrawlerAgent.crawl` and
 * `WebCrawlerAgent.check_links`): open a page, load the site, extract its
 * fields, probe its libraries, check its links, and always close the page.
 *
 * What the browser and the network do is an input (`Site`); the browser is
 * reduced to the pages it has open (`Browser`).
 */
module Crawler {
  import opened Wrappers
  import opened PyStrings
  import opened Records
  import opened Links
  import opened Extraction

  /** What `page.goto` followed by `page.content()` did. */
  datatype PageLoad =
    | Loaded(html: string)      // the rendered markup
    | LoadTimeout               // Playwright's TimeoutError
    | LoadFailed(e: PyException) // any other exception

  /** Everything the crawl of one site observes from outside. */
  datatype Site = Site(
    newPage: Option<PyException>,           // what `browser.new_page()` raised, if anything
    load: PageLoad,
    tags: Tags,                             // what the HTML parser found in the markup
    jquery: ProbeOutcome,
    react: ProbeOutcome,
    vue: ProbeOutcome,
    anchors: Option<seq<string>>,           // the anchors' hrefs; None when the query raised
    external: string -> ExternalOutcome)    // what `page.request.get` did, per URL

  const TimeoutMessage := "頁面載入超時 (60秒)"
  const UnknownErrorPrefix := "爬取時發生未知錯誤: "

  /** The result of a crawl whose page load timed out. */
  function TimedOut(url: string): (r: CrawlResult)
    ensures WellFormed(r) && r.url == url && r.statusCode == Token("Timeout")
    ensures r.errorMessage == Some(TimeoutMessage) && r.brokenLinks == [] && r.detectedLibraries == []
  {
    NewCrawlResult(url, Token("Timeout")).(errorMessage := Some(TimeoutMessage))
  }

  /** The result of a crawl that raised any other exception. */
  function Errored(url: string, e: PyException): (r: CrawlResult)
    ensures WellFormed(r) && r.url == url && r.statusCode == Token("Error")
    ensures r.errorMessage == Some(UnknownErrorPrefix + e.message)
    ensures r.brokenLinks == [] && r.detectedLibraries == []
  {
    NewCrawlResult(url, Token("Error")).(errorMessage := Some(UnknownErrorPrefix + e.message))
  }

  /** The result of a crawl that got through: every extracted field set, no error. */
  function Fetched(url: string, f: PageFields, libraries: seq<DetectedLibrary>, broken: seq<BrokenLink>): (r: CrawlResult)
    ensures WellFormed(r) && r.url == url && r.statusCode == Code(200)
    ensures r.title == Some(f.title) && r.metaDescription == Some(f.metaDescription) && r.h1 == Some(f.h1)
    ensures r.bodyText == Some(f.bodyText) && r.updateDate == Some(f.updateDate)
    ensures r.brokenLinks == broken && r.detectedLibraries == libraries
  {
    CrawlResult(url, Code(200), Some(f.title), Some(f.metaDescription), Some(f.h1),
      Some(f.bodyText), Some(f.updateDate), broken, libraries, None)
  }

  /**
   * What `crawl` returns once it has a page: a timeout, an error carrying the
   * message of the first step that raised, or every extracted field.
   */
  function CrawlOutcome(url: string, ops: UrlOps, client: string -> InternalOutcome, site: Site): (r: CrawlResult)
    ensures r.url == url && WellFormed(r) && ProducedStatus(r.statusCode)
    ensures r.errorMessage.None? <==> r.statusCode == Code(200)
  {
    match site.load
    case LoadTimeout => TimedOut(url)
    case LoadFailed(e) => Errored(url, e)
    case Loaded(html) =>
      match ExtractStructuredData(site.tags, html, ops.strip)
      case Failure(e) => Errored(url, e)
      case Success(f) =>
        var libraries := ProbeFold(LibraryNames, [site.jquery, site.react, site.vue]);
        match CheckLinksResult(url, site.anchors, ops, LinkEnv(client, site.external))
        case Failure(e) => Errored(url, e)
        case Success(broken) => Fetched(url, f, libraries, broken)
  }

  /**
   * The three outcomes of a crawl and what decides each: a timeout exactly
   * when the load timed out; success exactly when the load, the extraction
   * and the base URL's parse all went through, with the extracted fields,
   * the probes' libraries and the link checker's entries; an error otherwise,
   * carrying the exception of the first of the three steps that raised.
   */
  lemma CrawlOutcomeCases(url: string, ops: UrlOps, client: string -> InternalOutcome, site: Site)
    ensures var r := CrawlOutcome(url, ops, client, site);
      (r.statusCode == Token("Timeout") <==> site.load.LoadTimeout?)
      && (r.statusCode == Token("Timeout") ==> r.errorMessage == Some(TimeoutMessage))
    ensures site.load.LoadTimeout? ==> CrawlOutcome(url, ops, client, site) == TimedOut(url)
    ensures var r := CrawlOutcome(url, ops, client, site);
      r.statusCode == Code(200) <==>
        site.load.Loaded?
        && ExtractStructuredData(site.tags, site.load.html, ops.strip).Success?
        && ops.hostname(url).Host?
    ensures var r := CrawlOutcome(url, ops, client, site);
      r.statusCode == Code(200) ==>
        var f := ExtractStructuredData(site.tags, site.load.html, ops.strip).value;
        r.title == Some(f.title) && r.metaDescription == Some(f.metaDescription)
        && r.h1 == Some(f.h1) && r.bodyText == Some(f.bodyText) && r.updateDate == Some(f.updateDate)
        && r.detectedLibraries == ProbeFold(LibraryNames, [site.jquery, site.react, site.vue])
        && Success(r.brokenLinks) == CheckLinksResult(url, site.anchors, ops, LinkEnv(client, site.external))
    ensures site.load.LoadFailed? ==>
      CrawlOutcome(url, ops, client, site) == Errored(url, site.load.e)
    ensures site.load.Loaded? && ExtractStructuredData(site.tags, site.load.html, ops.strip).Failure? ==>
      CrawlOutcome(url, ops, client, site) == Errored(url, ExtractStructuredData(site.tags, site.load.html, ops.strip).error)
    ensures (site.load.Loaded? && ExtractStructuredData(site.tags, site.load.html, ops.strip).Success?
             && ops.hostname(url).HostRaised?) ==>
      CrawlOutcome(url, ops, client, site) == Errored(url, ops.hostname(url).e)
  {
  }

  /**
   * The browser the crawls share, reduced to its page bookkeeping: how many
   * pages are open now and how many were ever opened.
   */
  class Browser {
    var openPages: nat
    var pagesOpened: nat

    constructor()
      ensures openPages == 0 && pagesOpened == 0
    {
      openPages := 0;
      pagesOpened := 0;
    }

    /** `browser.new_page()` once it succeeds. */
    method NewPage()
      modifies this
      ensures openPages == old(openPages) + 1 && pagesOpened == old(pagesOpened) + 1
    {
      openPages := openPages + 1;
      pagesOpened := pagesOpened + 1;
    }

    /** `page.close()`. */
    method ClosePage()
      requires openPages > 0
      modifies this
      ensures openPages == old(openPages) - 1 && pagesOpened == old(pagesOpened)
    {
      openPages := openPages - 1;
    }
  }

  /** The agent: its HTTP client, which answers the internal link checks. */
  class WebCrawlerAgent {
    /** What the agent's HTTP client does for each internal URL. */
    const client: string -> InternalOutcome

    constructor(client: string -> InternalOutcome)
      ensures this.client == client
    {
      this.client := client;
    }

    /**
     * `check_links`: normalise the anchors, route each link to its checker
     * in sorted order, gather the verdicts and keep the broken-link entries;
     * parsing the base URL may raise.
     */
    method CheckLinks(baseUrl: string, anchors: Option<seq<string>>, external: string -> ExternalOutcome, ops: UrlOps)
      returns (r: Result<seq<BrokenLink>, PyException>)
      ensures r == CheckLinksResult(baseUrl, anchors, ops, LinkEnv(client, external))
    {
      var links := if anchors.Some? then anchors.value else [];
      var unique := Normalise(baseUrl, links, ops);
      var baseHost: Option<string>;
      match ops.hostname(baseUrl) {
        case HostRaised(e) =>
          return Failure(e);
        case Host(h) =>
          baseHost := h;
      }
      var tasks: seq<LinkCheck> := [];
      var i := 0;
      while i < |unique|
        invariant 0 <= i <= |unique|
        invariant tasks == Routes(unique[..i], baseHost, ops)
      {
        assert unique[..i + 1][..i] == unique[..i];
        match Route(unique[i], baseHost, ops) {
          case None =>
          case Some(t) =>
            tasks := tasks + [t];
        }
        i := i + 1;
      }
      assert unique[..i] == unique;
      var results := RunChecks(tasks, ops, LinkEnv(client, external));
      var broken: seq<BrokenLink> := [];
      var k := 0;
      while k < |results|
        invariant 0 <= k <= |results|
        invariant broken == BrokenOf(results[..k])
      {
        assert results[..k + 1][..k] == results[..k];
        if results[k].Entry? {
          broken := broken + [results[k].link];
        }
        k := k + 1;
      }
      assert results[..k] == results;
      r := Success(broken);
    }

    /**
     * `crawl`: a page that cannot be opened raises out of the crawl;
     * otherwise the page is opened, the crawl result is built, and the
     * page is closed again whatever happened.
     */
    method Crawl(browser: Browser, url: string, ops: UrlOps, site: Site) returns (r: Result<CrawlResult, PyException>)
      modifies browser
      ensures site.newPage.Some? ==>
        r == Failure(site.newPage.value) && browser.openPages == old(browser.openPages)
        && browser.pagesOpened == old(browser.pagesOpened)
      ensures site.newPage.None? ==>
        r == Success(CrawlOutcome(url, ops, client, site)) && browser.openPages == old(browser.openPages)
        && browser.pagesOpened == old(browser.pagesOpened) + 1
    {
      if site.newPage.Some? {
        return Failure(site.newPage.value);
      }
      browser.NewPage();
      var result: CrawlResult;
      match site.load {
        case LoadTimeout =>
          result := TimedOut(url);
        case LoadFailed(e) =>
          result := Errored(url, e);
        case Loaded(html) =>
          match ExtractStructuredData(site.tags, html, ops.strip) {
            case Failure(e) =>
              result := Errored(url, e);
            case Success(f) =>
              var libraries := DetectJsLibraries(site.jquery, site.react, site.vue);
              var broken := CheckLinks(url, site.anchors, site.external, ops);
              match broken {
                case Failure(e) =>
                  result := Errored(url, e);
                case Success(entries) =>
                  result := Fetched(url, f, libraries, entries);
              }
          }
      }
      browser.ClosePage();
      r := Success(result);
    }
  }
}
