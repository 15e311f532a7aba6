/**
 * The link pipeline of the crawler (crawler/web_crawler.py, `check_links`,
 * `check_internal_link`, `check_external_link`): anchor targets are
 * filtered, resolved, de-duplicated and sorted; each one is routed to the
 * internal or the external checker by hostname; each checker turns an HTTP
 * outcome into "no entry" or a broken-link entry; the entries are collected
 * in link order.
 *
 * The network is not modelled: what a request returned (a status, or the
 * exception it raised) is an input. `urljoin`, `urlparse` and `str.strip`
 * are left uninterpreted, as the fields of a `UrlOps` value.
 */
module Links {
  import opened Wrappers
  import opened PyStrings
  import opened Records

  /** `urlparse(u).hostname`: a (lower-cased, possibly absent) host name, or the exception raised. */
  datatype HostParse = Host(name: Option<string>) | HostRaised(e: PyException)

  /** The URL helpers of `urllib.parse` and `str.strip`, left uninterpreted. */
  datatype UrlOps = UrlOps(
    strip: string -> string,
    urljoin: (string, string) -> string,
    hostname: string -> HostParse,
    netloc: string -> Option<string>)  // `urlparse(u).netloc`; None when the parse raises

  // ---------------------------------------------------------------------
  // Normalisation (crawler/web_crawler.py:76-78)
  // ---------------------------------------------------------------------

  /**
   * Kept by the comprehension: non-empty, and the text as found (before
   * stripping) does not start with `javascript:`, `#`, `mailto:` or `tel:`.
   */
  predicate Navigable(link: string)
  {
    link != ""
    && !StartsWith(link, "javascript:") && !StartsWith(link, "#")
    && !StartsWith(link, "mailto:") && !StartsWith(link, "tel:")
  }

  /** `urljoin(base, l.strip())`. */
  function Resolve(base: string, link: string, ops: UrlOps): string
  {
    ops.urljoin(base, ops.strip(link))
  }

  /** A URL the comprehension produces from some kept anchor. */
  ghost predicate ResolvedFrom(u: string, base: string, links: seq<string>, ops: UrlOps)
  {
    exists l :: l in links && Navigable(l) && u == Resolve(base, l, ops)
  }

  /** The comprehension before `set`: resolved kept anchors, in anchor order. */
  function ResolvedLinks(base: string, links: seq<string>, ops: UrlOps): (r: seq<string>)
    ensures forall u :: u in r <==> ResolvedFrom(u, base, links, ops)
    decreases |links|
  {
    if |links| == 0 then []
    else
      var front := links[..|links| - 1];
      var l := links[|links| - 1];
      var r := ResolvedLinks(base, front, ops) + (if Navigable(l) then [Resolve(base, l, ops)] else []);
      assert links == front + [l];
      assert forall u :: ResolvedFrom(u, base, links, ops) ==> u in r by {
        forall u | ResolvedFrom(u, base, links, ops)
          ensures u in r
        {
          var w :| w in links && Navigable(w) && u == Resolve(base, w, ops);
          if w != l {
            assert w in front;
          }
        }
      }
      r
  }

  /**
   * `sorted(list(set(...)))` of the resolved kept anchors: strictly increasing
   * in code-point order, and holding exactly the resolved kept anchors.
   */
  function Normalise(base: string, links: seq<string>, ops: UrlOps): (r: seq<string>)
    ensures StrictlySorted(r)
    ensures forall u :: u in r <==> ResolvedFrom(u, base, links, ops)
  {
    SortedSet(ResolvedLinks(base, links, ops))
  }

  /**
   * The normalised list is the only strictly sorted list of those URLs, so it
   * depends on the anchors only through the set of URLs they resolve to:
   * order and repetition of the anchors make no difference.
   */
  lemma NormaliseIsCanonical(base: string, links: seq<string>, ops: UrlOps, s: seq<string>)
    requires StrictlySorted(s)
    requires forall u :: u in s <==> ResolvedFrom(u, base, links, ops)
    ensures Normalise(base, links, ops) == s
  {
    SortedUnique(Normalise(base, links, ops), s);
  }

  lemma NormaliseIgnoresAnchorOrder(base: string, links1: seq<string>, links2: seq<string>, ops: UrlOps)
    requires forall l :: l in links1 <==> l in links2
    ensures Normalise(base, links1, ops) == Normalise(base, links2, ops)
  {
    var n2 := Normalise(base, links2, ops);
    forall u
      ensures u in n2 <==> ResolvedFrom(u, base, links1, ops)
    {
      if ResolvedFrom(u, base, links1, ops) {
        var w :| w in links1 && Navigable(w) && u == Resolve(base, w, ops);
        assert w in links2;
      }
      if ResolvedFrom(u, base, links2, ops) {
        var w :| w in links2 && Navigable(w) && u == Resolve(base, w, ops);
        assert w in links1;
      }
    }
    NormaliseIsCanonical(base, links1, ops, n2);
  }

  /**
   * The prefix test looks at the text as found: a leading blank hides a
   * fragment prefix, and a blank-only anchor is kept (it resolves to the
   * stripped, empty reference).
   */
  lemma PrefixTestOnRawText()
    ensures Navigable(" #x") && Navigable("   ")
    ensures !Navigable("#x") && !Navigable("") && !Navigable("mailto:a@b") && !Navigable("tel:1")
    ensures !Navigable("javascript:void(0)")
  {
    FirstCharDiffers(" #x", "#");
    FirstCharDiffers("   ", "#");
  }

  lemma FirstCharDiffers(s: string, p: string)
    requires |p| > 0 && (|s| == 0 || s[0] != p[0])
    ensures !StartsWith(s, p)
  {
    if |p| <= |s| {
      assert s[..|p|][0] == s[0];
    }
  }

  // ---------------------------------------------------------------------
  // Routing (crawler/web_crawler.py:80-90)
  // ---------------------------------------------------------------------

  /** A check to run: one task appended to `tasks`. */
  datatype LinkCheck = InternalCheck(url: string) | ExternalCheck(url: string)

  /**
   * Where one link goes: nowhere when its parse raises, to the internal
   * checker when its hostname equals the base hostname, else to the external one.
   */
  function Route(link: string, baseHost: Option<string>, ops: UrlOps): (r: Option<LinkCheck>)
    ensures r.None? <==> ops.hostname(link).HostRaised?
    ensures r.Some? ==> r.value.url == link
    ensures r.Some? ==> (r.value.InternalCheck? <==> ops.hostname(link) == Host(baseHost))
  {
    match ops.hostname(link)
    case HostRaised(_) => None
    case Host(h) => Some(if h == baseHost then InternalCheck(link) else ExternalCheck(link))
  }

  /** The tasks of the routing loop, in link order. */
  function Routes(links: seq<string>, baseHost: Option<string>, ops: UrlOps): seq<LinkCheck>
    decreases |links|
  {
    if |links| == 0 then []
    else
      var front := Routes(links[..|links| - 1], baseHost, ops);
      match Route(links[|links| - 1], baseHost, ops)
      case None => front
      case Some(t) => front + [t]
  }

  /** Strictly increasing by URL: no URL is checked or reported twice. */
  predicate ChecksSortedByUrl(ts: seq<LinkCheck>)
  {
    forall i, j :: 0 <= i < j < |ts| ==> LexLess(ts[i].url, ts[j].url)
  }

  /**
   * Every task comes from a link whose parse succeeded, as `Route` sends it;
   * every link whose parse succeeds yields its task; over a sorted link list
   * the tasks are sorted too, so each link reaches exactly one checker once.
   */
  lemma {:induction false} RoutesExact(links: seq<string>, baseHost: Option<string>, ops: UrlOps)
    ensures forall t :: t in Routes(links, baseHost, ops) ==>
      t.url in links && Route(t.url, baseHost, ops) == Some(t)
    ensures forall l :: l in links && ops.hostname(l).Host? ==>
      Route(l, baseHost, ops).value in Routes(links, baseHost, ops)
    ensures StrictlySorted(links) ==> ChecksSortedByUrl(Routes(links, baseHost, ops))
    decreases |links|
  {
    if |links| > 0 {
      var front := links[..|links| - 1];
      var l := links[|links| - 1];
      assert links == front + [l];
      RoutesExact(front, baseHost, ops);
      var ts := Routes(links, baseHost, ops);
      var fs := Routes(front, baseHost, ops);
      if StrictlySorted(links) {
        assert StrictlySorted(front);
        if ops.hostname(l).Host? {
          assert ts == fs + [Route(l, baseHost, ops).value];
          forall i | 0 <= i < |fs|
            ensures LexLess(fs[i].url, l)
          {
            assert fs[i] in fs;
            var k :| 0 <= k < |front| && front[k] == fs[i].url;
            assert links[k] == front[k];
          }
        }
      }
    }
  }

  // ---------------------------------------------------------------------
  // Internal verdict (crawler/web_crawler.py:101-111)
  // ---------------------------------------------------------------------

  /** What `self.http_client.get(url)` did. */
  datatype InternalOutcome =
    | Response(status: int)                 // a response with this status
    | RequestErrorRaised(className: string) // an `httpx.RequestError` (subclass name)
    | OtherRaised(className: string)        // any other exception

  /**
   * The strict check: a status of 400 or more is broken, a lower one is
   * healthy; a request error and any other exception are recorded as broken
   * with their class name. It never raises.
   */
  function InternalVerdict(url: string, o: InternalOutcome): (r: Option<BrokenLink>)
    ensures r.None? <==> o.Response? && o.status < 400
    ensures r.Some? ==> r.value.url == url && r.value.linkType == Internal
    ensures o.Response? && r.Some? ==> r.value.statusCode == Code(o.status)
    ensures o.RequestErrorRaised? ==> r == Some(BrokenLink(url, Token("RequestError: " + o.className), Internal))
    ensures o.OtherRaised? ==> r == Some(BrokenLink(url, Token("UnknownError: " + o.className), Internal))
  {
    match o
    case Response(s) => if s >= 400 then Some(BrokenLink(url, Code(s), Internal)) else None
    case RequestErrorRaised(n) => Some(BrokenLink(url, Token("RequestError: " + n), Internal))
    case OtherRaised(n) => Some(BrokenLink(url, Token("UnknownError: " + n), Internal))
  }

  /** Reads back the outcome an internal entry's status records. */
  function InternalOutcomeOf(c: StatusCode): InternalOutcome
  {
    match c
    case Code(s) => Response(s)
    case Token(t) =>
      if StartsWith(t, "RequestError: ") then RequestErrorRaised(t[14..])
      else OtherRaised(if |t| >= 14 then t[14..] else t)
  }

  /** An internal entry records its outcome without loss. */
  lemma InternalVerdictRecordsOutcome(url: string, o: InternalOutcome)
    requires InternalVerdict(url, o).Some?
    ensures InternalOutcomeOf(InternalVerdict(url, o).value.statusCode) == o
  {
    match o
    case Response(s) =>
    case RequestErrorRaised(n) =>
      var t := "RequestError: " + n;
      assert t[..14] == "RequestError: ";
      assert t[14..] == n;
    case OtherRaised(n) =>
      var t := "UnknownError: " + n;
      assert t[..14] == "UnknownError: " && t[..14] != "RequestError: ";
      assert t[14..] == n;
  }

  // ---------------------------------------------------------------------
  // External verdict (crawler/web_crawler.py:154-184)
  // ---------------------------------------------------------------------

  /** The platforms whose links are never requested. */
  const Whitelist: seq<string> := [
    "facebook.com", "www.facebook.com", "instagram.com",
    "twitter.com", "x.com", "youtube.com", "youtu.be", "t.co",
    "accessibility.moda.gov.tw"]

  /** The raw netloc is exactly one of the listed domains. */
  predicate Whitelisted(netloc: Option<string>)
  {
    netloc.Some? && netloc.value in Whitelist
  }

  /** Subdomains, ports and other capitalisations are not on the list. */
  lemma WhitelistIsExact()
    ensures |Whitelist| == 9
    ensures Whitelisted(Some("youtube.com")) && Whitelisted(Some("accessibility.moda.gov.tw"))
    ensures !Whitelisted(Some("m.youtube.com")) && !Whitelisted(Some("x.com:443"))
    ensures !Whitelisted(Some("Facebook.com")) && !Whitelisted(None)
  {
  }

  /** What `page.request.get(url, timeout=30000)` did. */
  datatype ExternalOutcome =
    | ExtResponse(status: int)   // a response with this status
    | ExtRaised(message: string) // an exception, with `str(e)`

  /** `net::ERR_` followed by a word character starts at `i`. */
  predicate NetErrorStartsAt(msg: string, i: int)
  {
    OccursAt(msg, "net::ERR_", i) && i + 9 < |msg| && IsWordChar(msg[i + 9])
  }

  /** The leftmost place at or after `from` where `net::(ERR_\w+)` matches. */
  function NetErrorAt(msg: string, from: nat): (r: Option<nat>)
    ensures r.Some? ==> from <= r.value && NetErrorStartsAt(msg, r.value)
    ensures r.Some? ==> forall k :: from <= k < r.value ==> !NetErrorStartsAt(msg, k)
    ensures r.None? ==> forall k :: from <= k ==> !NetErrorStartsAt(msg, k)
    decreases |msg| - from
  {
    if from + 10 > |msg| then None
    else if NetErrorStartsAt(msg, from) then Some(from)
    else NetErrorAt(msg, from + 1)
  }

  /**
   * `re.search(r'net::(ERR_\w+)', msg).group(1)`: `ERR_` and the whole run
   * of word characters after it, at the leftmost match.
   */
  function NetErrorCode(msg: string): (r: Option<string>)
    ensures r.None? <==> forall k :: 0 <= k ==> !NetErrorStartsAt(msg, k)
    ensures r.Some? ==> |r.value| >= 5 && StartsWith(r.value, "ERR_")
    ensures r.Some? ==> forall k :: 4 <= k < |r.value| ==> IsWordChar(r.value[k])
    ensures r.Some? ==> Contains(msg, "net::" + r.value)
    ensures r.Some? ==>
      NetErrorAt(msg, 0).Some? && var i := NetErrorAt(msg, 0).value;
      i + 5 + |r.value| <= |msg| && msg[i + 5..i + 5 + |r.value|] == r.value
      && (i + 5 + |r.value| == |msg| || !IsWordChar(msg[i + 5 + |r.value|]))
  {
    match NetErrorAt(msg, 0)
    case None => None
    case Some(i) =>
      var n := RunOf(msg, i + 9, IsWordChar);
      NetErrorParts(msg, i, n);
      var code := msg[i + 5..i + 9 + n];
      assert i + 5 + |code| == i + 9 + n;
      Some(code)
  }


  /** The text after `net::` at a match starts with `ERR_` and follows `net::` there. */
  lemma NetErrorParts(msg: string, i: nat, n: nat)
    requires NetErrorStartsAt(msg, i) && i + 9 + n <= |msg|
    ensures StartsWith(msg[i + 5..i + 9 + n], "ERR_")
    ensures Contains(msg, "net::" + msg[i + 5..i + 9 + n])
  {
    var code := msg[i + 5..i + 9 + n];
    assert msg[i..i + 9] == "net::ERR_";
    assert code[..4] == msg[i + 5..i + 9] == msg[i..i + 9][5..] == "ERR_";
    assert msg[i..i + 5] == msg[i..i + 9][..5] == "net::";
    assert OccursAt(msg, "net::" + code, i) by {
      assert msg[i..i + 9 + n] == msg[i..i + 5] + code;
    }
    assert Find(msg, "net::" + code, 0).Some?;
  }

  /**
   * The status of an external entry for a raised request: `Timeout` whenever
   * the message mentions `Timeout` (even beside a `net::` code), else the
   * `ERR_` code after `net::`, else `Error`.
   */
  function ErrorToken(message: string): (t: string)
    ensures t == "Timeout" <==> Contains(message, "Timeout")
    ensures !Contains(message, "Timeout") && NetErrorCode(message).Some? ==> t == NetErrorCode(message).value
    ensures !Contains(message, "Timeout") && NetErrorCode(message).None? ==> t == "Error"
  {
    if Contains(message, "Timeout") then "Timeout"
    else if Contains(message, "net::") then
      match NetErrorCode(message)
      case Some(code) =>
        assert code[..4] == "ERR_";
        code
      case None => "Error"
    else
      NoNetNoCode(message);
      "Error"
  }

  lemma NoNetNoCode(message: string)
    requires !Contains(message, "net::")
    ensures NetErrorCode(message).None?
  {
    if NetErrorCode(message).Some? {
      var i := NetErrorAt(message, 0).value;
      assert message[i..i + 5] == message[i..i + 9][..5];
      assert OccursAt(message, "net::", i);
      assert false;
    }
  }

  /**
   * The lenient check: a whitelisted netloc gives no entry; otherwise a
   * status of 400 or more is broken, a lower one healthy, and an exception
   * is broken with the token `ErrorToken` derives from its message.
   */
  function ExternalVerdict(url: string, netloc: Option<string>, response: ExternalOutcome): (r: Option<BrokenLink>)
    ensures Whitelisted(netloc) ==> r.None?
    ensures !Whitelisted(netloc) ==> (r.None? <==> response.ExtResponse? && response.status < 400)
    ensures r.Some? ==> r.value.url == url && r.value.linkType == External
    ensures r.Some? && response.ExtResponse? ==> r.value.statusCode == Code(response.status)
    ensures r.Some? && response.ExtRaised? ==> r.value.statusCode == Token(ErrorToken(response.message))
  {
    if Whitelisted(netloc) then None
    else
      match response
      case ExtResponse(s) => if s >= 400 then Some(BrokenLink(url, Code(s), External)) else None
      case ExtRaised(m) => Some(BrokenLink(url, Token(ErrorToken(m)), External))
  }

  /** A whitelisted link is never requested: its verdict ignores the response. */
  lemma WhitelistSkipsRequest(url: string, netloc: Option<string>, r1: ExternalOutcome, r2: ExternalOutcome)
    requires Whitelisted(netloc)
    ensures ExternalVerdict(url, netloc, r1) == ExternalVerdict(url, netloc, r2) == None
  {
  }

  // ---------------------------------------------------------------------
  // Running the checks and collecting the entries (crawler/web_crawler.py:92-99)
  // ---------------------------------------------------------------------

  /**
   * What `asyncio.gather(..., return_exceptions=True)` hands back for one task.
   * `TaskRaised` stands for a check that raised; both verdicts here are total,
   * so `RunChecks` never produces it, and `BrokenOf` drops it like `None`.
   */
  datatype TaskResult = Entry(link: BrokenLink) | NoEntry | TaskRaised(e: PyException)

  /** The request outcomes of the two network stacks, per URL. */
  datatype LinkEnv = LinkEnv(internal: string -> InternalOutcome, external: string -> ExternalOutcome)

  function ToTaskResult(v: Option<BrokenLink>): TaskResult
  {
    match v
    case None => NoEntry
    case Some(b) => Entry(b)
  }

  /** The verdict of the checker a task names. */
  function CheckVerdict(t: LinkCheck, ops: UrlOps, env: LinkEnv): (r: Option<BrokenLink>)
    ensures r.Some? ==> r.value.url == t.url
    ensures r.Some? ==> (r.value.linkType == Internal <==> t.InternalCheck?)
  {
    match t
    case InternalCheck(u) => InternalVerdict(u, env.internal(u))
    case ExternalCheck(u) => ExternalVerdict(u, ops.netloc(u), env.external(u))
  }

  /** The gathered results, one per task, in task order. */
  function RunChecks(ts: seq<LinkCheck>, ops: UrlOps, env: LinkEnv): (r: seq<TaskResult>)
    ensures |r| == |ts|
    decreases |ts|
  {
    if |ts| == 0 then []
    else RunChecks(ts[..|ts| - 1], ops, env) + [ToTaskResult(CheckVerdict(ts[|ts| - 1], ops, env))]
  }

  /** The collecting loop: keep the dict results, drop `None` and exceptions. */
  function BrokenOf(results: seq<TaskResult>): (r: seq<BrokenLink>)
    decreases |results|
  {
    if |results| == 0 then []
    else
      var front := BrokenOf(results[..|results| - 1]);
      match results[|results| - 1]
      case Entry(b) => front + [b]
      case _ => front
  }

  /** Exactly the dict results are kept, none added, at most one per result. */
  lemma {:induction false} BrokenOfExact(results: seq<TaskResult>)
    ensures forall b :: b in BrokenOf(results) <==> Entry(b) in results
    ensures |BrokenOf(results)| <= |results|
    decreases |results|
  {
    if |results| > 0 {
      var front := results[..|results| - 1];
      assert results == front + [results[|results| - 1]];
      BrokenOfExact(front);
    }
  }

  /** What the checker a link is routed to reports about it. */
  function LinkVerdict(u: string, baseHost: Option<string>, ops: UrlOps, env: LinkEnv): (r: Option<BrokenLink>)
    ensures r.Some? ==> r.value.url == u
  {
    match Route(u, baseHost, ops)
    case None => None
    case Some(t) => CheckVerdict(t, ops, env)
  }

  /** `check_links` after the anchor query: the entries, or the exception raised by parsing the base URL. */
  function CheckLinksResult(baseUrl: string, anchors: Option<seq<string>>, ops: UrlOps, env: LinkEnv)
    : Result<seq<BrokenLink>, PyException>
  {
    var links := if anchors.Some? then anchors.value else [];
    var unique := Normalise(baseUrl, links, ops);
    match ops.hostname(baseUrl)
    case HostRaised(e) => Failure(e)
    case Host(bh) => Success(BrokenOf(RunChecks(Routes(unique, bh, ops), ops, env)))
  }

  /** Parsing the base URL is the only step of `check_links` that can raise. */
  lemma CheckLinksRaisesOnlyOnBase(baseUrl: string, anchors: Option<seq<string>>, ops: UrlOps, env: LinkEnv)
    ensures CheckLinksResult(baseUrl, anchors, ops, env).Failure? <==> ops.hostname(baseUrl).HostRaised?
    ensures ops.hostname(baseUrl).HostRaised? ==>
      CheckLinksResult(baseUrl, anchors, ops, env) == Failure(ops.hostname(baseUrl).e)
  {
  }

  /** Strictly increasing by URL: at most one entry per link, in sorted-link order. */
  predicate SortedByUrl(bs: seq<BrokenLink>)
  {
    forall i, j :: 0 <= i < j < |bs| ==> LexLess(bs[i].url, bs[j].url)
  }

  /** The entries the checks report over a list of links, in link order. */
  function Pipeline(links: seq<string>, bh: Option<string>, ops: UrlOps, env: LinkEnv): seq<BrokenLink>
  {
    BrokenOf(RunChecks(Routes(links, bh, ops), ops, env))
  }

  function AsSeq(v: Option<BrokenLink>): seq<BrokenLink>
  {
    match v
    case None => []
    case Some(b) => [b]
  }

  /** One more link adds exactly its own verdict at the end. */
  lemma PipelineStep(links: seq<string>, bh: Option<string>, ops: UrlOps, env: LinkEnv)
    requires |links| > 0
    ensures Pipeline(links, bh, ops, env)
      == Pipeline(links[..|links| - 1], bh, ops, env) + AsSeq(LinkVerdict(links[|links| - 1], bh, ops, env))
  {
    var front := links[..|links| - 1];
    var l := links[|links| - 1];
    var fs := Routes(front, bh, ops);
    match Route(l, bh, ops)
    case None =>
    case Some(t) =>
      assert Routes(links, bh, ops) == fs + [t];
      var rs := RunChecks(fs + [t], ops, env);
      assert (fs + [t])[..|fs|] == fs;
      assert rs == RunChecks(fs, ops, env) + [ToTaskResult(CheckVerdict(t, ops, env))];
      assert rs[..|rs| - 1] == RunChecks(fs, ops, env);
  }

  /** Over a sorted link list, the pipeline reports exactly the broken verdicts, in link order. */
  lemma {:induction false} PipelineExact(links: seq<string>, bh: Option<string>, ops: UrlOps, env: LinkEnv)
    requires StrictlySorted(links)
    ensures SortedByUrl(Pipeline(links, bh, ops, env))
    ensures forall b :: b in Pipeline(links, bh, ops, env) ==>
      b.url in links && LinkVerdict(b.url, bh, ops, env) == Some(b)
    ensures forall u :: u in links && LinkVerdict(u, bh, ops, env).Some? ==>
      LinkVerdict(u, bh, ops, env).value in Pipeline(links, bh, ops, env)
    decreases |links|
  {
    if |links| > 0 {
      var front := links[..|links| - 1];
      var l := links[|links| - 1];
      assert links == front + [l];
      assert StrictlySorted(front);
      PipelineExact(front, bh, ops, env);
      PipelineStep(links, bh, ops, env);
      EntriesBelowLast(links, Pipeline(front, bh, ops, env));
    }
  }

  /** Entries about the links before the last one of a sorted list all sort below it. */
  lemma EntriesBelowLast(links: seq<string>, bs: seq<BrokenLink>)
    requires StrictlySorted(links) && |links| > 0
    requires forall b :: b in bs ==> b.url in links[..|links| - 1]
    ensures forall i :: 0 <= i < |bs| ==> LexLess(bs[i].url, links[|links| - 1])
  {
    var front := links[..|links| - 1];
    forall i | 0 <= i < |bs|
      ensures LexLess(bs[i].url, links[|links| - 1])
    {
      assert bs[i] in bs;
      var k :| 0 <= k < |front| && front[k] == bs[i].url;
      assert links[k] == front[k];
    }
  }

  /** A failed anchor query and a page without anchors report nothing. */
  lemma NoAnchorsNoEntries(baseUrl: string, anchors: Option<seq<string>>, ops: UrlOps, env: LinkEnv)
    requires anchors.None? || anchors == Some([])
    requires ops.hostname(baseUrl).Host?
    ensures CheckLinksResult(baseUrl, anchors, ops, env) == Success([])
  {
    var unique := Normalise(baseUrl, [], ops);
    if |unique| > 0 {
      HeadIsElement(unique);
      assert false;
    }
  }

  /**
   * What `check_links` returns once the base URL parses: the entries are
   * exactly the broken verdicts over the normalised links, one per link at
   * most, in normalised order; each is internal exactly when its hostname
   * equals the base hostname, and no external entry has a whitelisted netloc.
   */
  lemma CheckLinksEntries(baseUrl: string, anchors: Option<seq<string>>, ops: UrlOps, env: LinkEnv)
    requires ops.hostname(baseUrl).Host?
    ensures var unique := Normalise(baseUrl, if anchors.Some? then anchors.value else [], ops);
      var bh := ops.hostname(baseUrl).name;
      var res := CheckLinksResult(baseUrl, anchors, ops, env);
      res.Success?
      && res.value == Pipeline(unique, bh, ops, env)
      && SortedByUrl(res.value)
      && (forall b :: b in res.value <==> exists u :: u in unique && LinkVerdict(u, bh, ops, env) == Some(b))
      && (forall b :: b in res.value ==>
            ops.hostname(b.url).Host?
            && (b.linkType == Internal <==> ops.hostname(b.url).name == bh)
            && (b.linkType == External ==> !Whitelisted(ops.netloc(b.url))))
  {
    var unique := Normalise(baseUrl, if anchors.Some? then anchors.value else [], ops);
    var bh := ops.hostname(baseUrl).name;
    PipelineExact(unique, bh, ops, env);
    var bs := CheckLinksResult(baseUrl, anchors, ops, env).value;
    forall b | b in bs
      ensures ops.hostname(b.url).Host?
      ensures b.linkType == Internal <==> ops.hostname(b.url).name == bh
      ensures b.linkType == External ==> !Whitelisted(ops.netloc(b.url))
    {
      var t := Route(b.url, bh, ops).value;
      assert CheckVerdict(t, ops, env) == Some(b);
    }
  }
}
