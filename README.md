# Check_TCGweb: the decision logic of the site checker, in Dafny

Check_TCGweb checks a list of government web sites. Each site goes through three agents:

- The **crawler** (`WebCrawlerAgent`) loads the page in a browser and extracts the title, the meta description, the h1, the body text and an update date. It then probes the page for jQuery, React and Vue, and checks every link.
- The **analyzer** (`ContentAnalysisAgent`) asks a language model for scores. From them it derives an outdatedness score and a status label.
- The **reporter** (`ReportGenerationAgent`) writes one spreadsheet row per site.

This project models the decisions inside that plumbing and proves what they promise. The browser, the HTTP clients, the HTML parser and the language model are not modelled. What they returned or raised is an explicit input value to the model.

| module | file | models |
|---|---|---|
| `Wrappers` | Wrappers.dfy | `Option`, `Result`, and a Python exception as its class name and `str(e)` |
| `PyStrings` | PyStrings.dfy | the Python string behaviour the core relies on: code-point ordering, `sorted(set(...))`, `startswith`, `find`, `join`/`split`, `str(int)`, `or` on optional strings |
| `Records` | Records.dfy | `CrawlResult` with its defaults, `AnalysisResult`, and the four status labels |
| `Links` | Links.dfy | `check_links`: anchor normalisation, routing by hostname, the internal and external verdicts, and collection of the entries |
| `Extraction` | Extraction.dfy | the update-date regular expression as a scanner, the tag fallbacks of `extract_structured_data`, and the library probes of `detect_js_libraries` |
| `Crawler` | Crawler.dfy | `crawl`: result assembly and the page's open/close lifecycle (class `Browser`), plus the agent's `check_links` loop (class `WebCrawlerAgent`) |
| `Analysis` | Analysis.dfy | `analyze`: the error short-circuit, the summaries, the fenced-JSON extraction, the score cap, the label chain, the prompt body and both exception handlers |
| `Report` | Report.dfy | `generate`: the column selection, the rows and the output path |

Where the code works step by step, the model does too:

- `check_links` appends to `tasks` and to `broken_links` in loops. It is the method `Crawler.WebCrawlerAgent.CheckLinks`, with loop invariants.
- `detect_js_libraries` appends inside one `try`. It is the method `Extraction.DetectJsLibraries`.
- `crawl` acquires a page and releases it in `finally`. It is the method `Crawler.WebCrawlerAgent.Crawl`, over a `Browser` object that counts open pages.

Each of these methods is proved equal to a specification function, and the properties are proved about those functions.

Three modelling choices apply throughout:

- **URL helpers.** `urljoin`, `urlparse(...).hostname`, `urlparse(...).netloc` and `str.strip` are uninterpreted functions, the fields of `Links.UrlOps`.
- **Regex classes.** The regular expressions are modelled over ASCII:
  - `\d` is `0`-`9`;
  - `\w` is `[A-Za-z0-9_]`;
  - `\s` is space, tab, line feed, carriage return, form feed and vertical tab.
- **The score.** `json.loads`, the `.get` defaults, `float()` and `round()` are folded into one input function. It returns the rounded integer total and the notes, or the exception raised.

## Model

| member | source | states |
|---|---|---|
| Records.NewCrawlResult | common/data_structures.py:4-16 | a crawl result built from a URL and a status has every optional field `None` and both lists empty |
| Records.DefaultsAreNotWellFormed | common/data_structures.py:9-16 | the record type alone does not keep the "extraction fields xor error message" invariant: a record from the defaults has neither |
| Records.LinkTypeText | crawler/web_crawler.py:106 | the `type` of a broken-link entry is `"internal"` or `"external"` |
| PyStrings.SortedSet | crawler/web_crawler.py:76 | `sorted(set(xs))` is strictly increasing in code-point order and holds exactly the elements of `xs` |
| PyStrings.SortedUnique | crawler/web_crawler.py:76 | two strictly sorted lists with the same elements are equal, so `sorted(set(...))` has one possible value |
| PyStrings.Or | analyzer/content_analysis.py:80 | `v or d` is `v` when `v` is a non-empty string, and `d` otherwise |
| PyStrings.SplitJoin | analyzer/content_analysis.py:38 | joining lines without line breaks with `"\n"` and splitting again gives the lines back |
| PyStrings.IntToStringInjective | analyzer/content_analysis.py:35 | `str()` of an integer status code tells different codes apart |
| Analysis.StatusTextShowsCode | analyzer/content_analysis.py:35 | in a summary line, distinct numeric status codes print as distinct texts |
| Links.ResolvedLinks | crawler/web_crawler.py:76-78 | the comprehension yields exactly `urljoin(base, l.strip())` for the kept anchors: non-empty, and without a `javascript:`, `#`, `mailto:` or `tel:` prefix |
| Links.Navigable | crawler/web_crawler.py:77 | an anchor is kept exactly when it is non-empty and its raw text starts with none of `javascript:`, `#`, `mailto:` and `tel:` |
| Links.Resolve | crawler/web_crawler.py:77 | a kept anchor becomes `urljoin(base, l.strip())` |
| Links.Normalise | crawler/web_crawler.py:76-78 | the normalised links are strictly increasing (so free of duplicates) and are exactly the resolved kept anchors |
| Links.NormaliseIsCanonical | crawler/web_crawler.py:76-78 | every strictly sorted list of exactly those URLs is the normalised list |
| Links.NormaliseIgnoresAnchorOrder | crawler/web_crawler.py:76-78 | anchors with the same set of hrefs normalise identically, whatever their order and repetition |
| Links.PrefixTestOnRawText | crawler/web_crawler.py:77 | the prefix test sees the unstripped text: `" #x"` and `"   "` are kept; `"#x"`, `""`, `mailto:`, `tel:` and `javascript:` links are dropped |
| Links.Route | crawler/web_crawler.py:82-90 | a link whose parse raises gets no task; otherwise it gets exactly one, the internal check exactly when its hostname equals the base hostname |
| Links.Routes | crawler/web_crawler.py:80-90 | the routing loop over the links: one task per link whose hostname parse does not raise, in link order |
| Links.RoutesExact | crawler/web_crawler.py:80-90 | every task comes from a link whose parse succeeded; every such link gets its task; over sorted links the tasks are strictly sorted by URL, so each link reaches exactly one checker once |
| Links.InternalVerdict | crawler/web_crawler.py:101-111 | no entry exactly when a response has a status below 400; otherwise an internal entry with the status, `"RequestError: <class>"` or `"UnknownError: <class>"`; it never raises |
| Links.InternalVerdictRecordsOutcome | crawler/web_crawler.py:104-111 | an internal entry's status determines the outcome that produced it |
| Links.WhitelistIsExact | crawler/web_crawler.py:156-165 | nine domains, matched exactly on the raw netloc: subdomains, ports and other capitalisations are not whitelisted |
| Links.NetErrorAt | crawler/web_crawler.py:181 | the leftmost position at which `net::ERR_` is followed by a word character |
| Links.NetErrorCode | crawler/web_crawler.py:181-183 | `net::(ERR_\w+)` matches nowhere, or the group is taken at the leftmost match: `ERR_` followed by the whole run of word characters there, ending at the end of the message or at a non-word character |
| Links.NetErrorParts | crawler/web_crawler.py:181-183 | the captured code starts with `ERR_`, and `net::` followed by the code occurs in the message |
| Links.ErrorToken | crawler/web_crawler.py:175-184 | `"Timeout"` exactly when the message mentions `Timeout` (even beside a `net::` code); otherwise the `ERR_` code when there is one; otherwise `"Error"` |
| Links.ExternalVerdict | crawler/web_crawler.py:154-184 | a whitelisted netloc gives no entry; otherwise no entry exactly when a response has a status below 400; an entry is external, with the status or the error token |
| Links.WhitelistSkipsRequest | crawler/web_crawler.py:162-170 | the verdict for a whitelisted link does not depend on the request's outcome, so no request matters |
| Links.CheckVerdict | crawler/web_crawler.py:85-88 | an entry names the task's URL and is internal exactly for an internal task |
| Links.RunChecks | crawler/web_crawler.py:92 | one gathered result per task |
| Links.BrokenOf | crawler/web_crawler.py:94-99 | the collecting loop over the gathered results: the entries of the dict results, in order |
| Links.BrokenOfExact | crawler/web_crawler.py:94-99 | the collected list holds exactly the dict results, at most one per result; `None` and raised exceptions add nothing |
| Links.LinkVerdict | crawler/web_crawler.py:82-88 | the verdict for a link, if any, names that link |
| Links.PipelineStep | crawler/web_crawler.py:81-99 | one more link at the end adds exactly its own verdict at the end |
| Links.EntriesBelowLast | crawler/web_crawler.py:76-99 | entries about the links before the last one of a sorted list all sort below it |
| Links.PipelineExact | crawler/web_crawler.py:81-99 | over sorted links the entries are strictly sorted by URL; each is the verdict of a link in the list, and every broken verdict is reported |
| Links.NoAnchorsNoEntries | crawler/web_crawler.py:71-74 | a failed anchor query or a page without anchors reports nothing |
| Links.CheckLinksResult | crawler/web_crawler.py:69-99 | `check_links` after the anchor query: normalise, parse the base URL (which may raise), route, run the checks and keep the entries |
| Links.CheckLinksRaisesOnlyOnBase | crawler/web_crawler.py:69-99 | `check_links` raises exactly when parsing the base URL raises, and then with that exception |
| Links.CheckLinksEntries | crawler/web_crawler.py:69-99 | once the base URL parses, the entries are exactly the broken verdicts over the normalised links, in order; internal exactly when the hostname equals the base hostname; never a whitelisted external |
| Extraction.LeadEnd | crawler/web_crawler.py:200 | the separator run after `日`, or after `日期`, ends inside the text |
| Extraction.DateFrom | crawler/web_crawler.py:200 | a captured date group is 7 to 10 characters of the text, starting where the scan started |
| Extraction.MonthDayFrom | crawler/web_crawler.py:200 | the same, once the year and its separator are read |
| Extraction.DateAt | crawler/web_crawler.py:200-201 | a group is captured at a position only where a keyword followed by `日` starts |
| Extraction.DateFromSound | crawler/web_crawler.py:200 | what the scanner captures has the shape `\d{3,4}[-./年]\d{1,2}[-./月]\d{1,2}` |
| Extraction.DateFromComplete | crawler/web_crawler.py:200 | wherever that shape matches, the scanner captures it or a longer group |
| Extraction.LeadEndExact | crawler/web_crawler.py:200 | a separator run that reaches a digit ends where the scanner's greedy run ends |
| Extraction.DateAtSound | crawler/web_crawler.py:200-201 | every capture of the scanner is a match of the whole pattern |
| Extraction.DateAtComplete | crawler/web_crawler.py:200-201 | every match of the pattern at a position is found by the scanner, whose group is the longest there and has the others as prefixes |
| Extraction.MatchFound | crawler/web_crawler.py:200-201 | the same, for one given way of matching |
| Extraction.FindDate | crawler/web_crawler.py:201 | the search returns a position at or after where it started, and the scanner captures a group there |
| Extraction.NoDatePastEnd | crawler/web_crawler.py:200-201 | no match starts within the last two characters |
| Extraction.NoCaptureBefore | crawler/web_crawler.py:201 | the search passes over no capture: none before the position it returns, none anywhere when it returns nothing |
| Extraction.NoCaptureNoMatch | crawler/web_crawler.py:201-202 | when the search finds nothing, the pattern matches nowhere |
| Extraction.CaptureIsLeftmost | crawler/web_crawler.py:201-202 | the position the search finds holds a match, no match starts earlier, and no match there has a longer group |
| Extraction.ExtractUpdateDate | crawler/web_crawler.py:200-202 | the group the scanner captures at the position the search returns, or `""` when it returns none |
| Extraction.UpdateDateIsLeftmostMatch | crawler/web_crawler.py:200-202 | the update date is `""` exactly when the pattern matches nowhere; otherwise it is the group of the leftmost match, the longest one there |
| Extraction.UpdateDateExample | crawler/web_crawler.py:200-202 | `更新日期:2023/05/01` yields `2023/05/01` |
| Extraction.NoDayCharNoDate | crawler/web_crawler.py:200-202 | markup without `日` has no update date |
| Extraction.ExtractStructuredData | crawler/web_crawler.py:186-204 | a title tag without a single string raises first, then a meta tag without `content` raises; otherwise the title and the description are the stripped tag texts, and the h1 is the parser's text, each `""` when its tag is missing; the body text is the parser's, and the date comes from the raw markup |
| Extraction.FirstRaise | crawler/web_crawler.py:118-150 | the index of the first probe that raises: all earlier probes returned |
| Extraction.TruthyEntriesExact | crawler/web_crawler.py:123-146 | there is an entry exactly for each probe that returned a truthy version, with that probe's name and version |
| Extraction.ProbeFold | crawler/web_crawler.py:117-152 | at most one entry per probe (which entries, and in what order, is `TruthyEntriesExact` and `ProbeFoldStopsAtFirstRaise`) |
| Extraction.ProbeFoldStopsAtFirstRaise | crawler/web_crawler.py:117-152 | the probe sequence reports the truthy entries of the probes before the first one that raises, in probe order |
| Extraction.RaiseKeepsEarlier | crawler/web_crawler.py:118-150 | a probe that raises keeps the entries of the probes before it and skips the rest |
| Extraction.DetectionExamples | crawler/web_crawler.py:120-146 | jQuery `1.12.4` alone yields `[{"name": "jQuery", "version": "1.12.4"}]`; no signals yield `[]` |
| Extraction.DetectJsLibraries | crawler/web_crawler.py:115-152 | the probe method returns the fold of jQuery, React and Vue in that order |
| Crawler.TimedOut | crawler/web_crawler.py:54-59 | status `"Timeout"`, message `頁面載入超時 (60秒)`, no extraction field, empty lists |
| Crawler.Errored | crawler/web_crawler.py:60-65 | status `"Error"`, message `爬取時發生未知錯誤: ` plus `str(e)`, no extraction field, empty lists |
| Crawler.Fetched | crawler/web_crawler.py:43-53 | status 200, every extraction field set, no error message, the libraries and the entries |
| Crawler.CrawlOutcome | crawler/web_crawler.py:32-65 | the result keeps the URL; exactly one of the extraction fields and an error message is set; the status is 200, `"Timeout"` or `"Error"`; no error message exactly on 200 |
| Crawler.CrawlOutcomeCases | crawler/web_crawler.py:32-65 | a timeout exactly when the load timed out, and then the result is the timeout record (`TimedOut`: no extraction field, both lists empty); success exactly when the load, the extraction and the base URL's parse went through, with their values; otherwise an error carrying the exception of the first step that raised: the load, else the extraction, else the base URL's hostname parse |
| Crawler.Browser.constructor | crawler/web_crawler.py:8 | the Playwright `Browser` the crawls share starts with no pages open; the repository never launches it, so this is an assumption about a freshly launched browser |
| Crawler.Browser.NewPage | crawler/web_crawler.py:31 | opening a page adds one open page |
| Crawler.Browser.ClosePage | crawler/web_crawler.py:66-67 | closing a page removes one open page |
| Crawler.WebCrawlerAgent.constructor | crawler/web_crawler.py:15-27 | the agent keeps the HTTP client it was given |
| Crawler.WebCrawlerAgent.CheckLinks | crawler/web_crawler.py:69-99 | the routing loop and the collecting loop return the specification `Links.CheckLinksResult` |
| Crawler.WebCrawlerAgent.Crawl | crawler/web_crawler.py:29-67 | a failing `new_page` propagates with no page opened; otherwise the result is `CrawlOutcome`, one page was opened and the number of open pages is unchanged, so it was closed |
| Analysis.BrokenLinksSummary | analyzer/content_analysis.py:34-38 | the summary is `無` exactly when there are no broken links |
| Analysis.BrokenLinksSummaryLines | analyzer/content_analysis.py:34-38 | without entries the summary is `無`; otherwise splitting it at line breaks gives one `- url (狀態: …, 類型: …)` line per entry, in order |
| Analysis.LibrariesSummary | analyzer/content_analysis.py:41-45 | the summary is `未偵測到` exactly when no library was detected |
| Analysis.LibrariesSummaryLines | analyzer/content_analysis.py:41-45 | without libraries the summary is `未偵測到`; otherwise splitting it at line breaks gives one `- name: version` line per library, in order |
| Analysis.FinalScore | analyzer/content_analysis.py:65 | the score is the total or 100, whichever is smaller |
| Analysis.StatusLabel | analyzer/content_analysis.py:70-75 | the label is one of the documented labels, and never the error label |
| Analysis.StatusLabelBands | analyzer/content_analysis.py:70-75 | `❌ 嚴重過時` exactly from 80, `⚠️ 疑似過時` exactly from 50 to 79, `✅ 正常` exactly below 50 |
| Analysis.StatusLabelMonotone | analyzer/content_analysis.py:70-75 | a higher score never gives a milder label |
| Analysis.ExtractJson | analyzer/content_analysis.py:107-113 | the result is the whole text, or a substring of it that starts with `{` and ends with `}` |
| Analysis.ExtractJsonIsLeftmostLazyMatch | analyzer/content_analysis.py:109-113 | without a match the result is the whole text; otherwise it is the group of the match that starts first and, among those, ends first |
| Analysis.FencedRoundTrip | analyzer/content_analysis.py:109-111 | extracting from a json fence around `j` gives `j` back, when `j` starts with `{`, ends with `}` and has no `}\n` followed by a closing fence |
| Analysis.NoEarlierClose | analyzer/content_analysis.py:109 | inside such a fence no closing fence starts before the last `}` of `j` |
| Analysis.BuildPrompt | analyzer/content_analysis.py:115-139 | the values `_build_prompt` fills in: date, URL, `update_date or '未找到'`, the two summaries and the body text |
| Analysis.PromptBody | analyzer/content_analysis.py:139 | the first `min(3000, len)` characters of the body text, or `[無內文]` when it is `None` or empty |
| Analysis.CrawlErrorResult | analyzer/content_analysis.py:21-29 | the record for a crawl error: `🔥 錯誤`, `N/A`, score 100, the error message in the notes, an empty summary |
| Analysis.AiErrorResult | analyzer/content_analysis.py:86-105 | the record of either handler: `🔥 錯誤`, `update_date or 'N/A'`, score 100, the handler's notes and the broken-link summary |
| Analysis.Analyze | analyzer/content_analysis.py:19-105 | a crawl error short-circuits; only a first-handler exception from the call or from reading the reply escapes (an `UnboundLocalError` for a raising call, the exception itself for a raising `.text`); any other failure of the call, and a parse that raises, give the error result: `🔥 錯誤`, score 100, `last_updated` falling back to `N/A`, and the parse-error notes for a first-handler parse exception or the unknown-error notes otherwise; the label is a documented one, the score at most 100; the broken-link summary and `last_updated` fall back as each branch says |
| Analysis.CrawlErrorSkipsModel | analyzer/content_analysis.py:21-29 | with a crawl error the result does not depend on the model or the parser, and its summary is empty |
| Analysis.ScoredReply | analyzer/content_analysis.py:57-84 | a parsed reply gives the capped total, its label, and the notes or the default notes |
| Analysis.NegativeTotalIsKept | analyzer/content_analysis.py:63-75 | a negative total comes through as a negative score labelled `✅ 正常`, outside the documented 0 to 100 |
| Report.SelectColumns | reporter/report_generation.py:29 | a column is selected exactly when it is in the order and among the record fields |
| Report.SelectColumnsKeepsOrder | reporter/report_generation.py:29 | the selected columns keep the order of `column_order` |
| Report.SelectAllPresent | reporter/report_generation.py:29 | when every requested column is a field, all are kept |
| Report.SelectDropsMissingLast | reporter/report_generation.py:29 | a requested last column that is not a field is dropped |
| Report.ReportColumns | reporter/report_generation.py:17-29 | a column is kept exactly when it is in `column_order`, there are records, and it is a field of `AnalysisResult` |
| Report.ReportColumnsExact | reporter/report_generation.py:17-29 | with records the columns are exactly url, status, last_updated, score and notes; `broken_links_summary` is dropped and `broken_links` matches nothing; without records there are no columns |
| Report.FullColumns | reporter/report_generation.py:21-29 | selecting `column_order` by the fields of `AnalysisResult` keeps the first five fields |
| Report.FirstFiveFields | common/data_structures.py:21-25 | the first five fields are url, status, last_updated, score and notes, and neither `broken_links_summary` nor `broken_links` is among them |
| Report.LinksColumnMissing | reporter/report_generation.py:27 | no field of `AnalysisResult` is called `broken_links` |
| Report.FieldValue | reporter/report_generation.py:17 | a record has a value exactly under its six field names |
| Report.Row | reporter/report_generation.py:17-18 | a row holds, column by column, the record's value under that column |
| Report.ReportRows | reporter/report_generation.py:17-18 | one row per record, in record order |
| Report.JoinPath | reporter/report_generation.py:32 | POSIX `os.path.join` of two parts: an absolute second part replaces the first; otherwise one `/` between them unless the first is empty or ends in one |
| Report.OutputPath | reporter/report_generation.py:31-32 | the output directory joined with `report_<date>.xlsx` |
| Report.OutputPathInDirectory | reporter/report_generation.py:31-32 | the path is the output directory, one separator unless it already ends in one, and `report_<date>.xlsx` |
| Report.Generate | reporter/report_generation.py:16-34 | the workbook goes to the output path; its columns are the five selected fields, or none without records; there is one row per record, each the record's values under those columns |

## Left out

- Playwright (navigation, `page.content`, `page.evaluate`, `page.request`, `eval_on_selector_all`), the httpx client and its pool settings: their results are input values (`Crawler.Site`, `Links.LinkEnv`, `Extraction.ProbeOutcome`).
- `asyncio.gather` fan-out: the checks are modelled as running one after another, in task order. This is the order in which `gather` returns their results.
- BeautifulSoup parsing, tag removal and `get_text`: what the parser found is an input (`Extraction.Tags`). Only the `""` fallbacks and the two raising cases are modelled.
- `urljoin`, `urlparse` and `str.strip`: uninterpreted functions.
- Links.ResolvedLinks: `urljoin` is total here. CPython's `urljoin` raises `ValueError` on a malformed IPv6 host such as `http://[::1/x`, which would make `check_links` raise and `crawl` return its error result; that path is not modelled.
- Python's Unicode-aware `\d`, `\w` and `\s`: modelled over ASCII.
- The model call, `json.loads`, `float()` and banker's rounding in `round()`: they are input functions, `llm` and `parse`.
- The fixed wording of the prompt template: `Analysis.Prompt` holds only the values filled into it.
- `ContentAnalysisAgent.__init__` (reading `GEMINI_API_KEY` and configuring the model): environment and library calls.
- Matching `except` clauses by class: exceptions are matched by class name. A subclass of `ValueError` such as `json.JSONDecodeError` is named in its own right. Any other subclass of the four classes the first handler lists, such as `UnicodeDecodeError`, goes to the unknown-error branch in the model, while Python would catch it in the first handler.
- Analysis.Analyze: the message of the `UnboundLocalError` follows recent Python wording. Which exception escapes is what matters.
- Analysis.Analyze: the parsed notes are a string or absent. Absent stands for a missing `notes` key, which gives the default notes. A `notes` key that is present but null or not a string is not modelled; Python stores that value unchanged as the notes.
- Analysis.Analyze: a reply whose `.text` raises is taken to raise the same exception when the first handler reads it again.
- Analysis.FinalScore: the documented lower bound of 0 is not enforced by the code. The model keeps that behaviour, and Analysis.NegativeTotalIsKept shows it.
- The probes' versions are modelled as optional strings. A probe that returns a non-string truthy value is not modelled.
- Crawler.WebCrawlerAgent.Crawl: a `page.close()` that raises is not modelled.
- `Records.CrawlResult.statusCode`: the `int | str` union is a two-case datatype.
- pandas `DataFrame` and `reindex`, `to_excel`, `os.makedirs` and `ReportGenerationAgent.__init__`: the table is modelled as column names and rows of cells, and nothing is written.
- `datetime.now()` and `strftime`: the date is passed in as a string.
- Report.JoinPath: models `os.path.join` on POSIX only; the Windows rules for drives and `\` separators are not modelled.
- `print`: left out.
- main.py (CSV input and the sequential driver) is not part of this model.
