/**
 * The report (reporter/report_generation.py, `ReportGenerationAgent.generate`):
 * one row per analysis result, the columns of a fixed order that the records
 * actually have, and the path of the workbook the table is written to.
 *
 * The table is modelled as its column names and rows of cells; writing the
 * workbook and creating the output directory are not modelled, and the date
 * is passed in already formatted.
 */
module Report {
  import opened Wrappers
  import opened PyStrings
  import opened Records

  /** The fields of an analysis result, as `asdict` names them. */
  const FieldNames: seq<string> := ["url", "status", "last_updated", "score", "notes", "broken_links_summary"]

  /** The column order the report asks for. */
  const ColumnOrder: seq<string> := ["url", "status", "last_updated", "score", "notes", "broken_links"]

  /** `a` is `b` with some entries left out, the rest in their order. */
  predicate IsSubsequence(a: seq<string>, b: seq<string>)
    decreases |b|
  {
    |a| == 0
    || (|b| > 0 && ((a[0] == b[0] && IsSubsequence(a[1..], b[1..])) || IsSubsequence(a, b[1..])))
  }

  /** `[col for col in order if col in present]`. */
  function SelectColumns(order: seq<string>, present: seq<string>): (r: seq<string>)
    ensures forall c :: c in r <==> c in order && c in present
    decreases |order|
  {
    if |order| == 0 then []
    else (if order[0] in present then [order[0]] else []) + SelectColumns(order[1..], present)
  }

  /** The selection keeps the requested order: it is a subsequence of it. */
  lemma {:induction false} SelectColumnsKeepsOrder(order: seq<string>, present: seq<string>)
    ensures IsSubsequence(SelectColumns(order, present), order)
    decreases |order|
  {
    if |order| > 0 {
      SelectColumnsKeepsOrder(order[1..], present);
      var rest := SelectColumns(order[1..], present);
      if order[0] in present {
        assert SelectColumns(order, present) == [order[0]] + rest;
        assert ([order[0]] + rest)[1..] == rest;
      } else {
        assert SelectColumns(order, present) == rest;
      }
    }
  }

  /** Selecting by a list that has every column keeps them all. */
  lemma {:induction false} SelectAllPresent(order: seq<string>, present: seq<string>)
    requires forall c :: c in order ==> c in present
    ensures SelectColumns(order, present) == order
    decreases |order|
  {
    if |order| > 0 {
      SelectAllPresent(order[1..], present);
      assert [order[0]] + order[1..] == order;
    }
  }

  /** A last column the list does not have is dropped. */
  lemma {:induction false} SelectDropsMissingLast(order: seq<string>, x: string, present: seq<string>)
    requires x !in present
    ensures SelectColumns(order + [x], present) == SelectColumns(order, present)
    decreases |order|
  {
    if |order| == 0 {
      assert SelectColumns([x][1..], present) == [];
    } else {
      assert (order + [x])[1..] == order[1..] + [x];
      SelectDropsMissingLast(order[1..], x, present);
    }
  }

  /**
   * The columns of the report: those of the order that the frame built from
   * the records has. A frame built from no records has no columns at all.
   */
  function ReportColumns(results: seq<AnalysisResult>): (r: seq<string>)
    ensures forall c :: c in r <==> c in ColumnOrder && |results| > 0 && c in FieldNames
  {
    SelectColumns(ColumnOrder, if |results| == 0 then [] else FieldNames)
  }

  /**
   * With at least one record the report has exactly the five named fields,
   * in order; the summary field is dropped and the requested
   * "broken_links" matches no field. With none it has no columns.
   */
  lemma ReportColumnsExact(results: seq<AnalysisResult>)
    ensures |results| > 0 ==> ReportColumns(results) == ["url", "status", "last_updated", "score", "notes"]
    ensures |results| == 0 ==> ReportColumns(results) == []
    ensures "broken_links_summary" !in ReportColumns(results) && "broken_links" !in ReportColumns(results)
  {
    if |results| > 0 {
      FullColumns(ColumnOrder, FieldNames);
      FirstFiveFields(FieldNames);
    }
  }

  // The next three lemmas take the two constant lists as parameters equal to
  // them, so that a caller's proof does not unfold the literal lists.

  /** The selection of the column order by the record fields, worked out. */
  lemma FullColumns(order: seq<string>, present: seq<string>)
    requires order == ColumnOrder && present == FieldNames
    ensures SelectColumns(order, present) == present[..5]
  {
    var kept := present[..5];
    assert forall k :: 0 <= k < 5 ==> order[k] == present[k];
    assert order == kept + [order[5]];
    LinksColumnMissing(order[5], present);
    SelectDropsMissingLast(kept, order[5], present);
    SelectAllPresent(kept, present);
  }

  /** The first five fields, which the report keeps. */
  lemma FirstFiveFields(present: seq<string>)
    requires present == FieldNames
    ensures present[..5] == ["url", "status", "last_updated", "score", "notes"]
    ensures "broken_links_summary" !in present[..5] && "broken_links" !in present[..5]
  {
    LinksColumnMissing("broken_links", present);
    assert forall k :: 0 <= k < 5 ==> |present[k]| < |"broken_links_summary"|;
  }

  /** No record field is called "broken_links". */
  lemma LinksColumnMissing(c: string, present: seq<string>)
    requires c == "broken_links" && present == FieldNames
    ensures c !in present
  {
    assert c[0] == 'b' && present[2][0] == 'l';
    assert forall k :: 0 <= k < |present| && k != 2 ==> |present[k]| != |c|;
  }

  /** One cell of the table. */
  datatype Cell = Text(text: string) | Number(n: int)

  /** The value a record holds under a field name, if it has that field. */
  function FieldValue(r: AnalysisResult, name: string): (v: Option<Cell>)
    ensures v.Some? <==> name in FieldNames
  {
    if name == "url" then Some(Text(r.url))
    else if name == "status" then Some(Text(r.status))
    else if name == "last_updated" then Some(Text(r.lastUpdated))
    else if name == "score" then Some(Number(r.score))
    else if name == "notes" then Some(Text(r.notes))
    else if name == "broken_links_summary" then Some(Text(r.brokenLinksSummary))
    else None
  }

  /** Every column names a field of the records. */
  predicate AllFields(columns: seq<string>)
  {
    forall c :: c in columns ==> c in FieldNames
  }

  /** The row of one record under the given columns. */
  function Row(r: AnalysisResult, columns: seq<string>): (row: seq<Cell>)
    requires AllFields(columns)
    ensures |row| == |columns|
    ensures forall k :: 0 <= k < |columns| ==> Some(row[k]) == FieldValue(r, columns[k])
  {
    seq(|columns|, k requires 0 <= k < |columns| => FieldValue(r, columns[k]).value)
  }

  /** The rows of the report: one per record, in record order. */
  function ReportRows(results: seq<AnalysisResult>): (rows: seq<seq<Cell>>)
    ensures |rows| == |results|
    ensures forall i :: 0 <= i < |results| ==> rows[i] == Row(results[i], ReportColumns(results))
  {
    var columns := ReportColumns(results);
    seq(|results|, i requires 0 <= i < |results| => Row(results[i], columns))
  }

  /** `f"report_{today}.xlsx"`. */
  function ReportFileName(today: string): string
  {
    "report_" + today + ".xlsx"
  }

  /** `os.path.join(a, b)` on POSIX. */
  function JoinPath(a: string, b: string): (p: string)
  {
    if |b| > 0 && b[0] == '/' then b
    else if |a| == 0 || a[|a| - 1] == '/' then a + b
    else a + "/" + b
  }

  /** The path `generate` writes to and returns. */
  function OutputPath(outputDir: string, today: string): string
  {
    JoinPath(outputDir, ReportFileName(today))
  }

  /**
   * The report lands directly inside the output directory: the path is the
   * directory, one separator unless it already ends in one, and the file name.
   */
  lemma OutputPathInDirectory(outputDir: string, today: string)
    ensures var p := OutputPath(outputDir, today);
      var name := ReportFileName(today);
      StartsWith(p, outputDir) && p[|p| - |name|..] == name
      && (|outputDir| > 0 && outputDir[|outputDir| - 1] != '/' ==> p == outputDir + "/" + name)
      && (|outputDir| == 0 || outputDir[|outputDir| - 1] == '/' ==> p == outputDir + name)
  {
    var name := ReportFileName(today);
    assert name[0] == 'r';
    var p := OutputPath(outputDir, today);
    assert p[..|outputDir|] == outputDir;
  }

  /** What `generate` produces: the table and where it is written. */
  datatype Workbook = Workbook(path: string, columns: seq<string>, rows: seq<seq<Cell>>)

  /** `generate`, for the output directory the agent was built with and today's date. */
  function Generate(outputDir: string, results: seq<AnalysisResult>, today: string): (w: Workbook)
    ensures w.path == OutputPath(outputDir, today)
    ensures |results| > 0 ==> w.columns == ["url", "status", "last_updated", "score", "notes"]
    ensures |results| == 0 ==> w.columns == [] && w.rows == []
    ensures |w.rows| == |results|
    ensures AllFields(w.columns)
    ensures forall i :: 0 <= i < |results| ==> w.rows[i] == Row(results[i], w.columns)
  {
    ReportColumnsExact(results);
    var rows := ReportRows(results);
    assert |results| == 0 ==> rows == [];
    Workbook(OutputPath(outputDir, today), ReportColumns(results), rows)
  }
}
