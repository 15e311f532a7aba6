/**
 * What the crawler extracts from a rendered page (crawler/web_crawler.py,
 * `extract_structured_data` and `detect_js_libraries`): the update date
 * found by a regular expression over the raw markup, the title, meta
 * description and h1 with their fallbacks, and the front-end libraries
 * reported by three in-page probes.
 *
 * HTML parsing is not modelled: what the parser found is an input (`Tags`).
 * The probes' script evaluation is not modelled either: what each
 * `page.evaluate` returned or raised is an input (`ProbeOutcome`).
 */
module Extraction {
  import opened Wrappers
  import opened PyStrings
  import opened Records

  // ---------------------------------------------------------------------
  // The update-date pattern (crawler/web_crawler.py:200-202):
  //   (更新|發布|建立|修改)日期?[：:\s]*(\d{3,4}[-.\/年]\d{1,2}[-.\/月]\d{1,2})[日]?
  // ---------------------------------------------------------------------

  /** `(更新|發布|建立|修改)`: updated, published, created, modified. */
  predicate IsDateKeyword(c1: char, c2: char)
  {
    (c1 == '更' && c2 == '新') || (c1 == '發' && c2 == '布')
    || (c1 == '建' && c2 == '立') || (c1 == '修' && c2 == '改')
  }

  /** `[：:\s]`: what may stand between the keyword and the date. */
  predicate IsLeadChar(c: char)
  {
    c == '：' || c == ':' || IsSpace(c)
  }

  /** `[-.\/年]`: between year and month. */
  predicate IsYearSep(c: char)
  {
    c == '-' || c == '.' || c == '/' || c == '年'
  }

  /** `[-.\/月]`: between month and day. */
  predicate IsMonthSep(c: char)
  {
    c == '-' || c == '.' || c == '/' || c == '月'
  }

  /** A keyword followed by `日` starts at `i`. */
  predicate KeywordAt(s: string, i: nat)
  {
    i + 3 <= |s| && IsDateKeyword(s[i], s[i + 1]) && s[i + 2] == '日'
  }

  /** Where the separator run begins: after `日`, and after `期` when it follows. */
  function LeadStart(s: string, i: nat): (a: nat)
    requires KeywordAt(s, i)
    ensures a <= |s|
  {
    if i + 3 < |s| && s[i + 3] == '期' then i + 4 else i + 3
  }

  /** Where the greedy separator run `[：:\s]*` ends. */
  function LeadEnd(s: string, i: nat): (p: nat)
    requires KeywordAt(s, i)
    ensures LeadStart(s, i) <= p <= |s|
  {
    LeadStart(s, i) + RunOf(s, LeadStart(s, i), IsLeadChar)
  }

  function Min(a: nat, b: nat): nat
  {
    if a <= b then a else b
  }

  /**
   * The date group starting at `p`, if the group pattern matches there.
   * Each digit run is followed by a separator, which is not a digit, so the
   * year and month runs must have exactly the allowed lengths; the day takes
   * up to two digits.
   */
  function DateFrom(s: string, p: nat): (r: Option<string>)
    requires p <= |s|
    ensures r.Some? ==> 7 <= |r.value| <= 10 && p + |r.value| <= |s| && r.value == s[p..p + |r.value|]
  {
    var n1 := RunOf(s, p, IsAsciiDigit);
    if n1 < 3 || n1 > 4 || p + n1 == |s| || !IsYearSep(s[p + n1]) then None
    else MonthDayFrom(s, p, p + n1 + 1)
  }

  /** The month and day of a date group that started at `p`, with the year already read. */
  function MonthDayFrom(s: string, p: nat, q: nat): (r: Option<string>)
    requires p + 4 <= q <= p + 5 && q <= |s|
    ensures r.Some? ==> 7 <= |r.value| <= 10 && p + |r.value| <= |s| && r.value == s[p..p + |r.value|]
  {
    var n2 := RunOf(s, q, IsAsciiDigit);
    if n2 < 1 || n2 > 2 || q + n2 == |s| || !IsMonthSep(s[q + n2]) then None
    else
      var u := q + n2 + 1;
      var n3 := RunOf(s, u, IsAsciiDigit);
      if n3 == 0 then None else Some(s[p..u + Min(n3, 2)])
  }

  /** The date group captured by a match starting at `i`, if one starts there. */
  function DateAt(s: string, i: nat): (r: Option<string>)
    ensures r.Some? ==> KeywordAt(s, i) && 7 <= |r.value| <= 10
  {
    if !KeywordAt(s, i) then None else DateFrom(s, LeadEnd(s, i))
  }

  /** `s[p..p + n]` are all digits. */
  predicate DigitsAt(s: string, p: nat, n: nat)
  {
    p + n <= |s| && forall k :: p <= k < p + n ==> IsAsciiDigit(s[k])
  }

  /**
   * `\d{3,4}[-.\/年]\d{1,2}[-.\/月]\d{1,2}` matches at `p`, with n1, n2 and
   * n3 digits.
   */
  predicate GroupShapeAt(s: string, p: nat, n1: nat, n2: nat, n3: nat)
  {
    3 <= n1 <= 4 && 1 <= n2 <= 2 && 1 <= n3 <= 2 && p + n1 + n2 + n3 + 2 <= |s|
    && DigitsAt(s, p, n1) && IsYearSep(s[p + n1])
    && DigitsAt(s, p + n1 + 1, n2) && IsMonthSep(s[p + n1 + n2 + 1])
    && DigitsAt(s, p + n1 + n2 + 2, n3)
  }

  /** `s[a..p]` is a run of separator characters. */
  predicate LeadRunBetween(s: string, a: nat, p: nat)
  {
    a <= p <= |s| && forall k :: a <= k < p ==> IsLeadChar(s[k])
  }

  /** The optional `期` is skipped exactly when present. */
  predicate LeadStartsAt(s: string, i: nat, a: nat)
  {
    a == i + 3 || (a == i + 4 && i + 3 < |s| && s[i + 3] == '期')
  }

  /**
   * The pattern, read as a language: some way of matching it starting at
   * `i` captures `g` as the date group. (The trailing `[日]?` always matches.)
   */
  ghost predicate PatternMatch(s: string, i: nat, g: string)
  {
    KeywordAt(s, i)
    && exists a: nat, p: nat, n1: nat, n2: nat, n3: nat ::
         LeadStartsAt(s, i, a) && LeadRunBetween(s, a, p)
         && GroupShapeAt(s, p, n1, n2, n3) && g == s[p..p + n1 + n2 + n3 + 2]
  }

  /** What `DateFrom` captures has the shape of the date group. */
  lemma DateFromSound(s: string, p: nat)
    requires p <= |s| && DateFrom(s, p).Some?
    ensures exists n1: nat, n2: nat, n3: nat ::
      GroupShapeAt(s, p, n1, n2, n3) && DateFrom(s, p).value == s[p..p + n1 + n2 + n3 + 2]
  {
    var n1 := RunOf(s, p, IsAsciiDigit);
    var q := p + n1 + 1;
    var n2 := RunOf(s, q, IsAsciiDigit);
    var u := q + n2 + 1;
    var n3 := Min(RunOf(s, u, IsAsciiDigit), 2);
    assert GroupShapeAt(s, p, n1, n2, n3);
  }

  /** Where the group shape matches, `DateFrom` captures it or a longer group. */
  lemma DateFromComplete(s: string, p: nat, n1: nat, n2: nat, n3: nat)
    requires GroupShapeAt(s, p, n1, n2, n3)
    ensures DateFrom(s, p).Some? && n1 + n2 + n3 + 2 <= |DateFrom(s, p).value|
  {
    RunOfExact(s, p, IsAsciiDigit, n1);
    var q := p + n1 + 1;
    RunOfExact(s, q, IsAsciiDigit, n2);
    RunOfAtLeast(s, q + n2 + 1, IsAsciiDigit, n3);
  }

  /** A separator run that ends at a digit ends where the scanner's run ends. */
  lemma LeadEndExact(s: string, i: nat, a: nat, p: nat)
    requires KeywordAt(s, i) && LeadStartsAt(s, i, a) && LeadRunBetween(s, a, p)
    requires p < |s| && IsAsciiDigit(s[p])
    ensures LeadEnd(s, i) == p
  {
    // `期` is neither a separator nor a digit, so it cannot be left unconsumed
    assert LeadStart(s, i) == a;
    RunOfExact(s, a, IsLeadChar, p - a);
  }

  /** What the scanner captures is a match of the pattern. */
  lemma DateAtSound(s: string, i: nat)
    requires DateAt(s, i).Some?
    ensures PatternMatch(s, i, DateAt(s, i).value)
  {
    var a := LeadStart(s, i);
    var p := LeadEnd(s, i);
    DateFromSound(s, p);
    var n1: nat, n2: nat, n3: nat :|
      GroupShapeAt(s, p, n1, n2, n3) && DateFrom(s, p).value == s[p..p + n1 + n2 + n3 + 2];
    assert LeadStartsAt(s, i, a) && LeadRunBetween(s, a, p);
  }

  /**
   * Every match of the pattern at `i` is found by the scanner, and the
   * scanner's group is the longest of them (the greedy `\d{1,2}` at the end),
   * with every other one as a prefix.
   */
  lemma DateAtComplete(s: string, i: nat, g: string)
    requires PatternMatch(s, i, g)
    ensures DateAt(s, i).Some?
    ensures |g| <= |DateAt(s, i).value| && DateAt(s, i).value[..|g|] == g
  {
    var a: nat, p: nat, n1: nat, n2: nat, n3: nat :|
      LeadStartsAt(s, i, a) && LeadRunBetween(s, a, p)
      && GroupShapeAt(s, p, n1, n2, n3) && g == s[p..p + n1 + n2 + n3 + 2];
    MatchFound(s, i, a, p, n1, n2, n3);
  }

  /** `DateAtComplete` for one given way of matching. */
  lemma MatchFound(s: string, i: nat, a: nat, p: nat, n1: nat, n2: nat, n3: nat)
    requires KeywordAt(s, i) && LeadStartsAt(s, i, a) && LeadRunBetween(s, a, p)
    requires GroupShapeAt(s, p, n1, n2, n3)
    ensures DateAt(s, i).Some? && n1 + n2 + n3 + 2 <= |DateAt(s, i).value|
    ensures DateAt(s, i).value[..n1 + n2 + n3 + 2] == s[p..p + n1 + n2 + n3 + 2]
  {
    LeadEndExact(s, i, a, p);
    assert DateAt(s, i) == DateFrom(s, p);
    DateFromComplete(s, p, n1, n2, n3);
    SlicePrefix(s, p, n1 + n2 + n3 + 2, |DateFrom(s, p).value|);
  }

  lemma SlicePrefix(s: string, p: nat, m: nat, n: nat)
    requires m <= n && p + n <= |s|
    ensures s[p..p + n][..m] == s[p..p + m]
  {
  }

  /**
   * The leftmost position at or after `from` where the pattern matches:
   * `re.search` tries each start position in turn.
   */
  function FindDate(s: string, from: nat): (r: Option<nat>)
    ensures r.Some? ==> from <= r.value && DateAt(s, r.value).Some?
    decreases |s| - from
  {
    if from >= |s| then None
    else if DateAt(s, from).Some? then Some(from)
    else FindDate(s, from + 1)
  }

  /** The search passes over no capture: none before what it finds, none at all when it finds nothing. */
  lemma {:induction false} NoCaptureBefore(s: string, from: nat, j: nat)
    requires from <= j
    requires FindDate(s, from).None? || j < FindDate(s, from).value
    ensures DateAt(s, j).None?
    decreases j - from
  {
    if from >= |s| {
      NoDatePastEnd(s, j);
    } else if j > from && DateAt(s, from).None? {
      NoCaptureBefore(s, from + 1, j);
    }
  }

  /** No match starts where fewer than three characters are left. */
  lemma NoDatePastEnd(s: string, k: nat)
    requires k + 3 > |s|
    ensures DateAt(s, k).None?
  {
    assert !KeywordAt(s, k);
  }

  /** `match.group(2) if match else ""` for `re.search` over the raw markup. */
  function ExtractUpdateDate(html: string): string
  {
    match FindDate(html, 0)
    case None => ""
    case Some(i) => DateAt(html, i).value
  }

  /**
   * The update date is the group of the leftmost match, taking the longest
   * group there; it is empty exactly when the pattern matches nowhere.
   */
  lemma UpdateDateIsLeftmostMatch(html: string)
    ensures ExtractUpdateDate(html) == "" <==> forall i: nat, g :: !PatternMatch(html, i, g)
    ensures ExtractUpdateDate(html) != "" ==>
      exists i: nat ::
        PatternMatch(html, i, ExtractUpdateDate(html))
        && (forall j: nat, g :: j < i ==> !PatternMatch(html, j, g))
        && (forall g :: PatternMatch(html, i, g) ==> |g| <= |ExtractUpdateDate(html)|)
  {
    match FindDate(html, 0)
    case None =>
      NoCaptureNoMatch(html);
    case Some(i) =>
      CaptureIsLeftmost(html, i);
  }

  /** Where the scanner captures nothing, the pattern matches nowhere. */
  lemma NoCaptureNoMatch(html: string)
    requires FindDate(html, 0).None?
    ensures forall i: nat, g :: !PatternMatch(html, i, g)
  {
    forall i: nat, g | PatternMatch(html, i, g)
      ensures false
    {
      DateAtComplete(html, i, g);
      NoCaptureBefore(html, 0, i);
    }
  }

  /** The scanner's first capture is a match, no match starts earlier, and none there is longer. */
  lemma CaptureIsLeftmost(html: string, i: nat)
    ensures FindDate(html, 0) == Some(i) ==>
      DateAt(html, i).Some? && PatternMatch(html, i, DateAt(html, i).value)
      && (forall j: nat, g :: j < i ==> !PatternMatch(html, j, g))
      && (forall g :: PatternMatch(html, i, g) ==> |g| <= |DateAt(html, i).value|)
  {
    if FindDate(html, 0) != Some(i) {
      return;
    }
    DateAtSound(html, i);
    forall j: nat, g | j < i && PatternMatch(html, j, g)
      ensures false
    {
      DateAtComplete(html, j, g);
      NoCaptureBefore(html, 0, j);
    }
    forall g | PatternMatch(html, i, g)
      ensures |g| <= |DateAt(html, i).value|
    {
      DateAtComplete(html, i, g);
    }
  }

  // The example lemmas take the page text as a parameter equal to the literal,
  // so that each one unfolds the literal only for the step it proves.

  /** The scenario of a page saying "更新日期:2023/05/01". */
  lemma UpdateDateExample(s: string)
    requires s == "更新日期:2023/05/01"
    ensures ExtractUpdateDate(s) == "2023/05/01"
  {
    ExampleMatch(s);
    ExampleSlice(s);
  }

  lemma ExampleSlice(s: string)
    requires s == "更新日期:2023/05/01"
    ensures s[5..15] == "2023/05/01"
  {
  }

  lemma ExampleMatch(s: string)
    requires s == "更新日期:2023/05/01"
    ensures FindDate(s, 0) == Some(0) && DateAt(s, 0) == Some(s[5..15])
  {
    ExampleLead(s);
    ExampleGroup(s);
  }

  lemma ExampleLead(s: string)
    requires s == "更新日期:2023/05/01"
    ensures KeywordAt(s, 0) && LeadEnd(s, 0) == 5
  {
    assert s[0] == '更' && s[1] == '新' && s[2] == '日' && s[3] == '期';
    RunOfExact(s, 4, IsLeadChar, 1);
  }

  lemma ExampleGroup(s: string)
    requires s == "更新日期:2023/05/01"
    ensures DateFrom(s, 5) == Some(s[5..15])
  {
    RunOfExact(s, 5, IsAsciiDigit, 4);
    RunOfExact(s, 10, IsAsciiDigit, 2);
    RunOfExact(s, 13, IsAsciiDigit, 2);
    assert MonthDayFrom(s, 5, 10) == Some(s[5..15]);
  }

  /** Markup without the character `日` has no update date. */
  lemma NoDayCharNoDate(html: string)
    requires '日' !in html
    ensures ExtractUpdateDate(html) == ""
  {
  }

  // ---------------------------------------------------------------------
  // Title, meta description, h1 and body text (crawler/web_crawler.py:186-204)
  // ---------------------------------------------------------------------

  /** What the HTML parser found on the page. */
  datatype Tags = Tags(
    title: Option<Option<string>>,  // the <title> tag, if any, and its single string, if it has one
    meta: Option<Option<string>>,   // the description <meta> tag, if any, and its `content`, if set
    h1: Option<string>,             // the stripped text of the first <h1>, if any
    bodyText: string)               // the text left once nav, footer, script, style and header are gone

  /** The five values `extract_structured_data` returns. */
  datatype PageFields = PageFields(
    title: string,
    metaDescription: string,
    h1: string,
    bodyText: string,
    updateDate: string)

  /** `None.strip()` on a title tag without a single string. */
  const TitleRaises := PyException("AttributeError", "'NoneType' object has no attribute 'strip'")

  /** `tag["content"]` on a description meta tag without that attribute. */
  const MetaRaises := PyException("KeyError", "'content'")

  /**
   * The fields of one page: a missing tag gives "", a title tag without a
   * single string or a meta tag without `content` raises (the title is
   * looked at first), and the update date comes from the raw markup.
   */
  function ExtractStructuredData(tags: Tags, html: string, strip: string -> string): (r: Result<PageFields, PyException>)
    ensures r.Failure? <==> tags.title == Some(None) || tags.meta == Some(None)
    ensures tags.title == Some(None) ==> r == Failure(TitleRaises)
    ensures tags.title != Some(None) && tags.meta == Some(None) ==> r == Failure(MetaRaises)
    ensures r.Success? ==> r.value.title == (if tags.title.Some? then strip(tags.title.value.value) else "")
    ensures r.Success? ==> r.value.metaDescription == (if tags.meta.Some? then strip(tags.meta.value.value) else "")
    ensures r.Success? ==> r.value.h1 == (if tags.h1.Some? then tags.h1.value else "")
    ensures r.Success? ==> r.value.bodyText == tags.bodyText && r.value.updateDate == ExtractUpdateDate(html)
  {
    if tags.title == Some(None) then Failure(TitleRaises)
    else if tags.meta == Some(None) then Failure(MetaRaises)
    else
      var title := if tags.title.Some? then strip(tags.title.value.value) else "";
      var meta := if tags.meta.Some? then strip(tags.meta.value.value) else "";
      var h1 := if tags.h1.Some? then tags.h1.value else "";
      Success(PageFields(title, meta, h1, tags.bodyText, ExtractUpdateDate(html)))
  }

  // ---------------------------------------------------------------------
  // Library probes (crawler/web_crawler.py:115-152)
  // ---------------------------------------------------------------------

  /** What one `page.evaluate` probe did: returned a version (or null), or raised. */
  datatype ProbeOutcome = Returned(version: Option<string>) | ProbeRaised(e: PyException)

  /** The probes, in the order they run. */
  const LibraryNames: seq<string> := ["jQuery", "React", "Vue"]

  /**
   * The probe sequence inside its `try`: each truthy version adds an entry;
   * the first probe that raises ends the sequence, keeping what was found.
   */
  function ProbeFold(names: seq<string>, outcomes: seq<ProbeOutcome>): (r: seq<DetectedLibrary>)
    requires |names| == |outcomes|
    ensures |r| <= |names|
    decreases |names|
  {
    if |names| == 0 || outcomes[0].ProbeRaised? then []
    else
      (if Truthy(outcomes[0].version) then [DetectedLibrary(names[0], outcomes[0].version.value)] else [])
      + ProbeFold(names[1..], outcomes[1..])
  }

  /** The index of the first probe that raises, or the number of probes. */
  function FirstRaise(outcomes: seq<ProbeOutcome>): (f: nat)
    ensures f <= |outcomes|
    ensures forall j :: 0 <= j < f ==> outcomes[j].Returned?
    ensures f < |outcomes| ==> outcomes[f].ProbeRaised?
  {
    if |outcomes| == 0 || outcomes[0].ProbeRaised? then 0 else 1 + FirstRaise(outcomes[1..])
  }

  /** An entry for every probe that returned a truthy version, in probe order. */
  function TruthyEntries(names: seq<string>, outcomes: seq<ProbeOutcome>): seq<DetectedLibrary>
    requires |names| == |outcomes|
    decreases |names|
  {
    if |names| == 0 then []
    else
      (if outcomes[0].Returned? && Truthy(outcomes[0].version)
       then [DetectedLibrary(names[0], outcomes[0].version.value)] else [])
      + TruthyEntries(names[1..], outcomes[1..])
  }

  /** Probe `k` returned a truthy version, which `e` reports. */
  predicate ProbeEntry(names: seq<string>, outcomes: seq<ProbeOutcome>, k: int, e: DetectedLibrary)
  {
    0 <= k < |names| && k < |outcomes| && outcomes[k].Returned? && Truthy(outcomes[k].version)
    && e == DetectedLibrary(names[k], outcomes[k].version.value)
  }

  /** An entry is produced for exactly the probes that returned a truthy version. */
  lemma {:induction false} TruthyEntriesExact(names: seq<string>, outcomes: seq<ProbeOutcome>, e: DetectedLibrary)
    requires |names| == |outcomes|
    ensures e in TruthyEntries(names, outcomes) <==> exists k :: ProbeEntry(names, outcomes, k, e)
    decreases |names|
  {
    if |names| > 0 {
      var rest := TruthyEntries(names[1..], outcomes[1..]);
      var head := if outcomes[0].Returned? && Truthy(outcomes[0].version)
        then [DetectedLibrary(names[0], outcomes[0].version.value)] else [];
      assert TruthyEntries(names, outcomes) == head + rest;
      TruthyEntriesExact(names[1..], outcomes[1..], e);
      if e in head {
        assert ProbeEntry(names, outcomes, 0, e);
      }
      if e in rest {
        var k :| ProbeEntry(names[1..], outcomes[1..], k, e);
        assert ProbeEntry(names, outcomes, k + 1, e);
      }
      if exists k :: ProbeEntry(names, outcomes, k, e) {
        var k :| ProbeEntry(names, outcomes, k, e);
        if k > 0 {
          assert ProbeEntry(names[1..], outcomes[1..], k - 1, e);
          assert e in rest;
        } else {
          assert e in head;
        }
      }
    }
  }

  /**
   * The probes are independent of each other up to the first that raises:
   * the result is the truthy entries of the probes before it.
   */
  lemma {:induction false} ProbeFoldStopsAtFirstRaise(names: seq<string>, outcomes: seq<ProbeOutcome>)
    requires |names| == |outcomes|
    ensures ProbeFold(names, outcomes)
      == TruthyEntries(names[..FirstRaise(outcomes)], outcomes[..FirstRaise(outcomes)])
    decreases |names|
  {
    if |names| > 0 && outcomes[0].Returned? {
      var f := FirstRaise(outcomes);
      ProbeFoldStopsAtFirstRaise(names[1..], outcomes[1..]);
      assert names[..f][1..] == names[1..][..f - 1];
      assert outcomes[..f][1..] == outcomes[1..][..f - 1];
    }
  }

  /** A probe that raises keeps the entries of the probes before it. */
  lemma {:induction false} RaiseKeepsEarlier(names: seq<string>, outcomes: seq<ProbeOutcome>, k: nat)
    requires |names| == |outcomes| && k < |outcomes| && outcomes[k].ProbeRaised?
    ensures ProbeFold(names, outcomes) == ProbeFold(names[..k], outcomes[..k])
    decreases k
  {
    if k > 0 && outcomes[0].Returned? {
      assert names[1..][..k - 1] == names[..k][1..];
      assert outcomes[1..][..k - 1] == outcomes[..k][1..];
      RaiseKeepsEarlier(names[1..], outcomes[1..], k - 1);
    }
  }

  /** The jQuery scenario, and a page with no markers. */
  lemma DetectionExamples()
    ensures ProbeFold(LibraryNames, [Returned(Some("1.12.4")), Returned(None), Returned(None)])
      == [DetectedLibrary("jQuery", "1.12.4")]
    ensures ProbeFold(LibraryNames, [Returned(None), Returned(None), Returned(None)]) == []
  {
  }

  /**
   * `detect_js_libraries`: the three probes in order, each adding an entry
   * for a truthy version, the whole sequence abandoned at the first probe
   * that raises.
   */
  method DetectJsLibraries(jquery: ProbeOutcome, react: ProbeOutcome, vue: ProbeOutcome)
    returns (libraries: seq<DetectedLibrary>)
    ensures libraries == ProbeFold(LibraryNames, [jquery, react, vue])
  {
    assert LibraryNames[1..] == ["React", "Vue"] && LibraryNames[1..][1..] == ["Vue"];
    assert [jquery, react, vue][1..] == [react, vue] && [react, vue][1..] == [vue];
    libraries := [];
    if jquery.ProbeRaised? {
      return;
    }
    if Truthy(jquery.version) {
      libraries := libraries + [DetectedLibrary("jQuery", jquery.version.value)];
    }
    if react.ProbeRaised? {
      return;
    }
    if Truthy(react.version) {
      libraries := libraries + [DetectedLibrary("React", react.version.value)];
    }
    if vue.ProbeRaised? {
      return;
    }
    if Truthy(vue.version) {
      libraries := libraries + [DetectedLibrary("Vue", vue.version.value)];
    }
  }
}
