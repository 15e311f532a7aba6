/**
 * The analyzer (analyzer/content_analysis.py, `ContentAnalysisAgent`):
 * it turns a crawl result into an analysis result. It short-circuits crawl
 * errors, formats the broken-link and library summaries, builds the prompt,
 * reads the fenced JSON out of the model's reply, caps the score and picks
 * the status label.
 *
 * The model call is an input (`llm`). So is everything that turns the
 * extracted JSON text into a rounded integer total and optional notes
 * (`parse`: `json.loads`, the `.get` defaults, `float()` and `round()`).
 */
module Analysis {
  import opened Wrappers
  import opened PyStrings
  import opened Records

  // ---------------------------------------------------------------------
  // Summaries (analyzer/content_analysis.py:34-45)
  // ---------------------------------------------------------------------

  /** One line of the broken-link summary. */
  function FormatBrokenLink(b: BrokenLink): string
  {
    "- " + b.url + " (狀態: " + StatusText(b.statusCode) + ", 類型: " + LinkTypeText(b.linkType) + ")"
  }

  /** An entry's line shows its code: distinct numeric codes are printed differently. */
  lemma StatusTextShowsCode(a: int, b: int)
    requires a != b
    ensures StatusText(Code(a)) != StatusText(Code(b))
  {
    if StatusText(Code(a)) == StatusText(Code(b)) {
      IntToStringInjective(a, b);
    }
  }

  function BrokenLinkLines(bs: seq<BrokenLink>): seq<string>
  {
    seq(|bs|, i requires 0 <= i < |bs| => FormatBrokenLink(bs[i]))
  }

  /** The broken-link summary: one line per entry, or "無" when there is none. */
  function BrokenLinksSummary(bs: seq<BrokenLink>): (r: string)
    ensures r == "無" <==> |bs| == 0
  {
    if |bs| == 0 then "無"
    else
      var lines := BrokenLinkLines(bs);
      assert lines[0][0] == '-';
      JoinStartsWithFirst(lines, "\n");
      Join(lines, "\n")
  }

  /** One line of the library summary. */
  function FormatLibrary(l: DetectedLibrary): string
  {
    "- " + l.name + ": " + l.version
  }

  function LibraryLines(ls: seq<DetectedLibrary>): seq<string>
  {
    seq(|ls|, i requires 0 <= i < |ls| => FormatLibrary(ls[i]))
  }

  /** The library summary: one line per library, or "未偵測到" when there is none. */
  function LibrariesSummary(ls: seq<DetectedLibrary>): (r: string)
    ensures r == "未偵測到" <==> |ls| == 0
  {
    if |ls| == 0 then "未偵測到"
    else
      var lines := LibraryLines(ls);
      assert lines[0][0] == '-';
      JoinStartsWithFirst(lines, "\n");
      Join(lines, "\n")
  }

  /** A join of at least one part starts with the first part. */
  lemma JoinStartsWithFirst(xs: seq<string>, sep: string)
    requires |xs| > 0 && |xs[0]| > 0
    ensures |Join(xs, sep)| > 0 && Join(xs, sep)[0] == xs[0][0]
  {
    if |xs| > 1 {
      assert Join(xs, sep) == xs[0] + (sep + Join(xs[1..], sep));
    }
  }

  /** Neither the URL nor a textual status of the entry holds a line break. */
  predicate SingleLine(b: BrokenLink)
  {
    '\n' !in b.url && (b.statusCode.Token? ==> '\n' !in b.statusCode.text)
  }

  /**
   * Splitting the summary at line breaks gives back one line per entry, in
   * entry order, as long as no entry carries a line break of its own.
   */
  lemma BrokenLinksSummaryLines(bs: seq<BrokenLink>)
    requires forall i :: 0 <= i < |bs| ==> SingleLine(bs[i])
    ensures |bs| == 0 ==> BrokenLinksSummary(bs) == "無"
    ensures |bs| > 0 ==> Split(BrokenLinksSummary(bs), '\n') == BrokenLinkLines(bs)
    ensures |bs| > 0 ==> |Split(BrokenLinksSummary(bs), '\n')| == |bs|
  {
    if |bs| == 0 {
      return;
    }
    var lines := BrokenLinkLines(bs);
    forall i | 0 <= i < |lines|
      ensures '\n' !in lines[i]
    {
      FormattedLinkIsOneLine(bs[i]);
    }
    assert "\n" == ['\n'];
    SplitJoin(lines, '\n');
  }

  /** The line of an entry without line breaks has none either. */
  lemma FormattedLinkIsOneLine(b: BrokenLink)
    requires SingleLine(b)
    ensures '\n' !in FormatBrokenLink(b)
  {
    assert '\n' !in StatusText(b.statusCode) by {
      if b.statusCode.Code? {
        assert '\n' !in IntToString(b.statusCode.code);
      }
    }
  }

  /** The same for the library summary, when no name or version holds a line break. */
  lemma LibrariesSummaryLines(ls: seq<DetectedLibrary>)
    requires forall i :: 0 <= i < |ls| ==> '\n' !in ls[i].name && '\n' !in ls[i].version
    ensures |ls| == 0 ==> LibrariesSummary(ls) == "未偵測到"
    ensures |ls| > 0 ==> Split(LibrariesSummary(ls), '\n') == LibraryLines(ls)
    ensures |ls| > 0 ==> |Split(LibrariesSummary(ls), '\n')| == |ls|
  {
    if |ls| == 0 {
      return;
    }
    var lines := LibraryLines(ls);
    forall i | 0 <= i < |lines|
      ensures '\n' !in lines[i]
    {
      assert lines[i] == "- " + ls[i].name + ": " + ls[i].version;
    }
    assert "\n" == ['\n'];
    SplitJoin(lines, '\n');
  }

  // ---------------------------------------------------------------------
  // Score and status label (analyzer/content_analysis.py:64-75)
  // ---------------------------------------------------------------------

  /** `min(100, total)`. */
  function FinalScore(total: int): (s: int)
    ensures s <= 100 && s <= total
    ensures s == total || s == 100
  {
    if total <= 100 then total else 100
  }

  /** The label chain over the final score. */
  function StatusLabel(score: int): (l: string)
    ensures l in StatusLabels && l != ErrorLabel
  {
    if score >= 80 then SevereLabel
    else if score >= 50 then SuspectLabel
    else NormalLabel
  }

  /** How bad a label says a site is. */
  function Severity(status: string): nat
  {
    if status == NormalLabel then 0
    else if status == SuspectLabel then 1
    else if status == SevereLabel then 2
    else 3
  }

  /** A higher score never gives a milder label. */
  lemma StatusLabelMonotone(a: int, b: int)
    requires a <= b
    ensures Severity(StatusLabel(a)) <= Severity(StatusLabel(b))
  {
  }

  /** The label bands: 80 and up, 50 to 79, and below 50. */
  lemma StatusLabelBands(score: int)
    ensures StatusLabel(score) == SevereLabel <==> score >= 80
    ensures StatusLabel(score) == SuspectLabel <==> 50 <= score < 80
    ensures StatusLabel(score) == NormalLabel <==> score < 50
  {
  }

  // ---------------------------------------------------------------------
  // Fenced JSON (analyzer/content_analysis.py:107-113):
  //   re.search(r"```json\n({.*?})\n```", text, re.DOTALL)
  // ---------------------------------------------------------------------

  /** The opening fence followed by the group's `{`. */
  const JsonOpen := "```json\n{"

  /** The group's `}` followed by the closing fence. */
  const JsonClose := "}\n```"

  /** A match of the pattern spans from `i` to the `}` at `k`. */
  predicate FenceMatch(t: string, i: int, k: int)
  {
    OccursAt(t, JsonOpen, i) && i + 9 <= k && OccursAt(t, JsonClose, k)
  }

  /**
   * The group of the leftmost match, taking the first `}` that is followed
   * by a closing fence (the lazy `.*?`); the whole text when there is no match.
   */
  function ExtractJson(t: string): (r: string)
    ensures r == t || (|r| >= 2 && r[0] == '{' && r[|r| - 1] == '}'
      && exists a :: OccursAt(t, r, a))
  {
    match Find(t, JsonOpen, 0)
    case None => t
    case Some(i) =>
      match Find(t, JsonClose, i + 9)
      case None => t
      case Some(k) =>
        assert t[i + 8] == t[i..i + 9][8] == '{';
        assert t[k] == t[k..k + 5][0] == '}';
        assert t[i + 8..k + 1][0] == t[i + 8];
        assert OccursAt(t, t[i + 8..k + 1], i + 8);
        t[i + 8..k + 1]
  }

  /**
   * `ExtractJson` is the regex search: when the pattern matches, the result
   * is the group of the match that starts first and, among those, ends
   * first; when it does not, the result is the whole text.
   */
  lemma ExtractJsonIsLeftmostLazyMatch(t: string)
    ensures (forall i, k :: !FenceMatch(t, i, k)) ==> ExtractJson(t) == t
    ensures (exists i, k :: FenceMatch(t, i, k)) ==>
      exists i, k :: FenceMatch(t, i, k) && ExtractJson(t) == t[i + 8..k + 1]
        && forall i2, k2 :: FenceMatch(t, i2, k2) ==> i < i2 || (i == i2 && k <= k2)
  {
    match Find(t, JsonOpen, 0)
    case None =>
    case Some(i) =>
      match Find(t, JsonClose, i + 9)
      case None =>
        forall i2, k2 | FenceMatch(t, i2, k2)
          ensures false
        {
        }
      case Some(k) =>
        assert FenceMatch(t, i, k);
  }

  /** Wrapping a JSON object in a json fence and extracting it gives it back. */
  lemma FencedRoundTrip(j: string)
    requires |j| >= 2 && j[0] == '{' && j[|j| - 1] == '}'
    requires !Contains(j, JsonClose)
    ensures ExtractJson("```json\n" + j + "\n```") == j
  {
    var t := "```json\n" + j + "\n```";
    assert OccursAt(t, JsonOpen, 0) by {
      assert t[..9] == "```json\n" + [j[0]];
    }
    assert Find(t, JsonOpen, 0) == Some(0);
    var kc := |j| + 7;
    assert OccursAt(t, JsonClose, kc) by {
      assert t[kc..kc + 5] == [j[|j| - 1]] + "\n```";
    }
    forall k | 9 <= k < kc
      ensures !OccursAt(t, JsonClose, k)
    {
      NoEarlierClose(j, t, k);
    }
    assert Find(t, JsonClose, 9) == Some(kc);
    assert t[8..kc + 1] == j;
  }

  /** Inside the fenced text, no closing fence starts before the last `}` of `j`. */
  lemma NoEarlierClose(j: string, t: string, k: int)
    requires |j| >= 2 && j[|j| - 1] == '}' && !Contains(j, JsonClose)
    requires t == "```json\n" + j + "\n```"
    requires 9 <= k < |j| + 7
    ensures !OccursAt(t, JsonClose, k)
  {
    if k + 5 <= |j| + 8 {
      assert !OccursAt(j, JsonClose, k - 8);
      assert t[k..k + 5] == j[k - 8..k - 3];
    } else {
      // the `}` that ends `j` would have to be one of "\n```"
      assert t[k..k + 5][|j| + 7 - k] == '}';
    }
  }

  // ---------------------------------------------------------------------
  // The prompt (analyzer/content_analysis.py:115-183)
  // ---------------------------------------------------------------------

  /**
   * The values the prompt template is filled with; the template's fixed
   * text is not part of this model.
   */
  datatype Prompt = Prompt(
    today: string,
    url: string,
    lastUpdated: string,
    libraries: string,
    brokenLinks: string,
    body: string)

  const BodyLimit := 3000

  /** The body text as the prompt embeds it. */
  function PromptBody(bodyText: Option<string>): (b: string)
    ensures Truthy(bodyText) ==>
      |b| == (if |bodyText.value| <= BodyLimit then |bodyText.value| else BodyLimit)
      && b == bodyText.value[..|b|]
    ensures !Truthy(bodyText) ==> b == "[無內文]"
  {
    if !Truthy(bodyText) then "[無內文]"
    else if |bodyText.value| <= BodyLimit then bodyText.value
    else bodyText.value[..BodyLimit]
  }

  function BuildPrompt(today: string, cr: CrawlResult, brokenLinks: string, libraries: string): Prompt
  {
    Prompt(today, cr.url, Or(cr.updateDate, "未找到"), libraries, brokenLinks, PromptBody(cr.bodyText))
  }

  // ---------------------------------------------------------------------
  // `analyze` (analyzer/content_analysis.py:19-105)
  // ---------------------------------------------------------------------

  /**
   * What the model call did: a reply whose text could be read, a call
   * that raised, or a reply whose `.text` raised (the same exception each
   * time it is read).
   */
  datatype LlmReply = Reply(text: string) | CallRaised(e: PyException) | TextRaised(e: PyException)

  /** The extracted JSON read as scores: the rounded total and the notes, if given. */
  datatype ParsedScores = Scores(total: int, notes: Option<string>) | ParseRaised(e: PyException)

  /** The exceptions the first handler names. */
  predicate FirstClause(e: PyException)
  {
    e.className in ["JSONDecodeError", "KeyError", "TypeError", "ValueError"]
  }

  /** Reading `response` in the first handler after the call itself raised. */
  const UnboundResponse :=
    PyException("UnboundLocalError", "cannot access local variable 'response' where it is not associated with a value")

  const DefaultNotes := "AI 未提供分析說明。"

  /** The result when the crawl already failed. */
  function CrawlErrorResult(url: string, message: string): AnalysisResult
  {
    AnalysisResult(url, ErrorLabel, "N/A", 100, "無法抓取或處理網頁: " + message, "")
  }

  /** The result of either handler around the model call. */
  function AiErrorResult(cr: CrawlResult, notes: string, summary: string): AnalysisResult
  {
    AnalysisResult(cr.url, ErrorLabel, Or(cr.updateDate, "N/A"), 100, notes, summary)
  }

  function Truncate(s: string, n: nat): string
  {
    if |s| <= n then s else s[..n]
  }

  /** The first handler's notes. */
  function ParseErrorNotes(e: PyException, text: string): string
  {
    "AI 分析時發生錯誤: " + e.className + " - " + e.message + ". Raw response: " + Truncate(text, 500)
  }

  /** The second handler's notes. */
  function UnknownErrorNotes(e: PyException): string
  {
    "AI 分析時發生未知錯誤: " + e.message
  }

  /** The prompt `analyze` sends for a crawl result it does not short-circuit. */
  function PromptFor(cr: CrawlResult, today: string): Prompt
  {
    BuildPrompt(today, cr, BrokenLinksSummary(cr.brokenLinks), LibrariesSummary(cr.detectedLibraries))
  }

  /**
   * `analyze`: the analysis result, or the exception that escapes it.
   * A crawl error short-circuits. Otherwise the model reply is parsed,
   * the total capped and labelled, and every failure of the call or the
   * parse becomes an error result, except that a first-handler exception
   * from the call or from reading the reply escapes.
   */
  function Analyze(cr: CrawlResult, today: string, llm: Prompt -> LlmReply, parse: string -> ParsedScores)
    : (r: Result<AnalysisResult, PyException>)
    ensures Truthy(cr.errorMessage) ==> r == Success(CrawlErrorResult(cr.url, cr.errorMessage.value))
    ensures r.Failure? <==>
      !Truthy(cr.errorMessage) && !llm(PromptFor(cr, today)).Reply? && FirstClause(llm(PromptFor(cr, today)).e)
    ensures r.Success? ==> r.value.url == cr.url && r.value.status in StatusLabels && r.value.score <= 100
    ensures r.Success? && r.value.status == ErrorLabel ==> r.value.score == 100
    ensures r.Success? && !Truthy(cr.errorMessage) ==>
      r.value.brokenLinksSummary == BrokenLinksSummary(cr.brokenLinks)
      && (r.value.status == ErrorLabel ==> r.value.lastUpdated == Or(cr.updateDate, "N/A"))
      && (r.value.status != ErrorLabel ==>
            r.value.status == StatusLabel(r.value.score) && r.value.lastUpdated == Or(cr.updateDate, "未找到"))
    ensures !Truthy(cr.errorMessage) ==>
      var reply := llm(PromptFor(cr, today));
      var summary := BrokenLinksSummary(cr.brokenLinks);
      (reply.CallRaised? && FirstClause(reply.e) ==> r == Failure(UnboundResponse))
      && (reply.TextRaised? && FirstClause(reply.e) ==> r == Failure(reply.e))
      && (!reply.Reply? && !FirstClause(reply.e) ==>
            r == Success(AiErrorResult(cr, UnknownErrorNotes(reply.e), summary)))
      && (reply.Reply? && parse(ExtractJson(reply.text)).ParseRaised? ==>
            var e := parse(ExtractJson(reply.text)).e;
            r == Success(AiErrorResult(cr, if FirstClause(e) then ParseErrorNotes(e, reply.text) else UnknownErrorNotes(e), summary)))
  {
    if Truthy(cr.errorMessage) then Success(CrawlErrorResult(cr.url, cr.errorMessage.value))
    else
      var summary := BrokenLinksSummary(cr.brokenLinks);
      var prompt := BuildPrompt(today, cr, summary, LibrariesSummary(cr.detectedLibraries));
      match llm(prompt)
      case CallRaised(e) =>
        if FirstClause(e) then Failure(UnboundResponse)
        else Success(AiErrorResult(cr, UnknownErrorNotes(e), summary))
      case TextRaised(e) =>
        if FirstClause(e) then Failure(e)
        else Success(AiErrorResult(cr, UnknownErrorNotes(e), summary))
      case Reply(text) =>
        match parse(ExtractJson(text))
        case ParseRaised(e) =>
          if FirstClause(e) then Success(AiErrorResult(cr, ParseErrorNotes(e, text), summary))
          else Success(AiErrorResult(cr, UnknownErrorNotes(e), summary))
        case Scores(total, notes) =>
          var score := FinalScore(total);
          Success(AnalysisResult(cr.url, StatusLabel(score), Or(cr.updateDate, "未找到"), score,
            if notes.Some? then notes.value else DefaultNotes, summary))
  }

  /** A crawl error is reported without consulting the model or the parser. */
  lemma CrawlErrorSkipsModel(cr: CrawlResult, today: string,
                             llm1: Prompt -> LlmReply, parse1: string -> ParsedScores,
                             llm2: Prompt -> LlmReply, parse2: string -> ParsedScores)
    requires Truthy(cr.errorMessage)
    ensures Analyze(cr, today, llm1, parse1) == Analyze(cr, today, llm2, parse2)
    ensures Analyze(cr, today, llm1, parse1).value.brokenLinksSummary == ""
  {
  }

  /**
   * A parsed reply gives the capped total, its label and the notes, or
   * the default notes when the reply has none.
   */
  lemma ScoredReply(cr: CrawlResult, today: string, llm: Prompt -> LlmReply, parse: string -> ParsedScores)
    requires !Truthy(cr.errorMessage) && llm(PromptFor(cr, today)).Reply?
    requires parse(ExtractJson(llm(PromptFor(cr, today)).text)).Scores?
    ensures var s := parse(ExtractJson(llm(PromptFor(cr, today)).text));
      var a := Analyze(cr, today, llm, parse).value;
      a.score == FinalScore(s.total) && a.status == StatusLabel(a.score)
      && (s.total <= 100 ==> a.score == s.total)
      && a.notes == (if s.notes.Some? then s.notes.value else DefaultNotes)
  {
  }

  /**
   * Only the upper end of the documented 0..100 range is enforced: a
   * negative total comes through as a negative score.
   */
  lemma NegativeTotalIsKept(cr: CrawlResult, today: string)
    requires !Truthy(cr.errorMessage)
    ensures var a := Analyze(cr, today, p => Reply("{}"), j => Scores(-5, None));
      a.Success? && a.value.score == -5 && a.value.status == NormalLabel && !Documented(a.value)
  {
  }
}
