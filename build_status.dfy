/**
 * `parse_build_status` of check_ci_build.py: turns one CI build page into a BuildReport.
 * The page is given as the record of what the parser reads from it (`Document`); the
 * parser is a fold over that record.
 */
module BuildStatus {
  import opened Wrappers
  import opened Text
  import opened Patterns
  import opened TestNames
  import opened AsanDetails
  import opened Report

  // ----- The page -----

  /** A table cell: its stripped text, the stripped texts of its `span.test-class`,
      its `a.test-name` and its first link, when present. */
  datatype Cell = Cell(text: string, suite: Option<string>, name: Option<string>, link: Option<string>)

  /** A table row: its `td` cells, its stripped text and its raw text. */
  datatype Row = Row(cells: seq<Cell>, text: string, rawText: string)

  /** A table as the list of its rows; `rows[0]` is the header row and `rows[i + 1]` is the
      row that follows `rows[i]`. */
  datatype Table = Table(rows: seq<Row>)

  /** A job list item `li#job-...`: its first class ("" without one), title, job key, and
      the job log page the CI server returns for that key (`None` when it cannot be fetched). */
  datatype JobItem = JobItem(status: string, title: string, key: string, log: Option<LogPage>)

  /** An entry of the page's own ASAN error list. */
  datatype PageAsanError = PageAsanError(testPath: string, testName: string, leakCount: Option<string>)

  /** What the parser reads from a build page. */
  datatype Document = Document(
    url: string,
    h1: Option<string>,            // text of the first h1
    buildH1: Option<string>,       // text of the first h1 whose string mentions "Build"
    textNodes: seq<string>,        // all text nodes of the page, in order
    pageText: string,              // the text of the whole page
    hasFailingSince: bool,         // a `dt.failing-since` exists
    completedTime: Option<string>, // the text of the time element after `dt.completed`
    tables: seq<Table>,            // all tables, in order
    fixedTable: Option<Table>,     // the table under the "Fixed tests" heading
    existingTable: Option<Table>,  // the table under the "Existing test failures" heading
    jobs: seq<JobItem>,
    pageAsan: seq<PageAsanError>,
    page: LogPage)                 // the page itself, read as a log page

  // ----- Status -----

  /** Status named by a text: a whole word "failed" first, then "successful"/"success". */
  function WordStatus(text: string): (st: Status)
    ensures st == Failed <==> HasWord(Lower(text), "failed")
    ensures st == Success <==>
      (!HasWord(Lower(text), "failed") && (HasWord(Lower(text), "successful") || HasWord(Lower(text), "success")))
  {
    var low := Lower(text);
    if HasWord(low, "failed") then Failed
    else if HasWord(low, "successful") || HasWord(low, "success") then Success
    else Unknown
  }

  /** The first text node matching `Build.*#\d+.*(failed|successful)`. */
  function FirstBuildLine(nodes: seq<string>): (r: Option<string>)
    ensures r.Some? ==> r.value in nodes && BuildStatusLine(r.value)
    ensures r.None? ==> forall i :: 0 <= i < |nodes| ==> !BuildStatusLine(nodes[i])
  {
    if nodes == [] then None
    else if BuildStatusLine(nodes[0]) then Some(nodes[0])
    else FirstBuildLine(nodes[1..])
  }

  /** The text of the secondary status source. */
  function SecondaryText(doc: Document): Option<string> {
    if doc.buildH1.Some? then doc.buildH1 else FirstBuildLine(doc.textNodes)
  }

  /** Numeric value of a digit group (a group of `\d+` is all digits). */
  function GroupValue(g: string): nat {
    if AllDigits(g) then DigitsValue(g) else 0
  }

  /** A "New/Existing test failures N" counter with N > 0. */
  predicate CounterPositive(pat: Pat, text: string) {
    match Search(pat, text)
    case Some(m) => GroupValue(m.groups[0]) > 0
    case None => false
  }

  /** The heuristics in priority order; each runs only while the status is still Unknown. */
  function StatusChain(doc: Document): (st: Status)
  {
    var s1 := if doc.h1.Some? then WordStatus(doc.h1.value) else Unknown;
    var s2 := if s1 != Unknown then s1
              else if SecondaryText(doc).Some? then WordStatus(SecondaryText(doc).value)
              else Unknown;
    var s3 := if s2 != Unknown then s2
              else if CounterPositive(NewCounter, doc.pageText) || CounterPositive(ExistingCounter, doc.pageText)
              then Failed else Unknown;
    if s3 != Unknown then s3 else if doc.hasFailingSince then Failed else Unknown
  }

  /** The two passes after parsing: any failure makes an Unknown build FAILED; a positive
      test count with no failures makes it SUCCESS. */
  function Reconcile(st: Status, news: seq<Failure>, existing: seq<Failure>, jobs: seq<FailedJob>, total: nat): (r: Status)
  {
    if st == Unknown && (news != [] || existing != [] || jobs != []) then Failed
    else if st == Unknown && total > 0 && news == [] && existing == [] && jobs == [] then Success
    else st
  }

  // ----- Numbers and times -----

  /** The build number: `#N` from `FRR-FRR-N` in the URL, replaced by `#...` from the h1. */
  function BuildNumber(doc: Document): (r: Option<string>)
    ensures r.Some? ==> "#" <= r.value
  {
    var fromUrl := match Search(UrlBuild, doc.url)
      case Some(m) => Some("#" + m.groups[0])
      case None => None;
    if doc.h1.Some? then
      match Search(HeadingNumber, doc.h1.value)
      case Some(m) => (HeadingGroupHash(doc.h1.value, m); Some(m.groups[0]))
      case None => fromUrl
    else fromUrl
  }

  lemma HeadingGroupHash(s: string, m: Match)
    requires Search(HeadingNumber, s) == Some(m)
    ensures "#" <= m.groups[0]
  {
    assert m.start <= |s| && MatchAt(HeadingNumber, s, m.start) == Some(m);
  }

  /** The value of the number captured by `pat` in the page text, or 0. */
  function CountIn(pat: Pat, text: string): nat {
    match Search(pat, text)
    case Some(m) => GroupValue(m.groups[0])
    case None => 0
  }

  /** Where `\s*.*$` ends when tried right after the dash at `q`: the white space run, then
      the rest of a line that must be the last one (Python's `$` without MULTILINE matches at
      the end and before a final newline). `None` when a newline that is not the final
      character follows the white space run. */
  function DashTailEnd(t: string, q: nat): (e: Option<nat>)
    requires q < |t|
    ensures e.None? <==> exists i :: RunEnd(t, q + 1, Spaces) <= i < |t| - 1 && t[i] == '\n'
    ensures e.Some? ==> RunEnd(t, q + 1, Spaces) <= e.value <= |t| && NoNewline(t, RunEnd(t, q + 1, Spaces), e.value)
    ensures e.Some? ==> e.value == |t| || (e.value == |t| - 1 && t[|t| - 1] == '\n')
  {
    var w := RunEnd(t, q + 1, Spaces);
    if NoNewline(t, w, |t|) then Some(|t|)
    else if w < |t| && t[|t| - 1] == '\n' && NoNewline(t, w, |t| - 1) then Some(|t| - 1)
    else None
  }

  /** The leftmost en dash at or after `from` after which `\s*.*$` can match. */
  function FirstCut(t: string, from: nat): (q: Option<nat>)
    ensures q.Some? ==> from <= q.value < |t| && t[q.value] == '–' && DashTailEnd(t, q.value).Some?
    ensures q.Some? ==> forall j :: from <= j < q.value && t[j] == '–' ==> DashTailEnd(t, j).None?
    ensures q.None? ==> forall j :: from <= j < |t| && t[j] == '–' ==> DashTailEnd(t, j).None?
    decreases |t| - from
  {
    if from >= |t| then None
    else if t[from] == '–' && DashTailEnd(t, from).Some? then Some(from)
    else FirstCut(t, from + 1)
  }

  /** `re.sub(r"\s*–\s*.*$", "", t)`: the leftmost match starts at the white space before
      the first en dash whose tail is the last line, and runs to the end of the text or to
      its final newline, which is kept. Without such a dash the text is unchanged. */
  function TrimAgo(t: string): (r: string)
    ensures FirstCut(t, 0).None? ==> r == t
    ensures FirstCut(t, 0).Some? ==>
      var q := FirstCut(t, 0).value;
      var k := SpaceRunStart(t, q);
      (k == 0 || !IsSpace(t[k - 1])) && (forall j :: k <= j < q ==> IsSpace(t[j]))
      && (DashTailEnd(t, q) == Some(|t|) ==> r == t[..k] && (|r| == 0 || !IsSpace(r[|r| - 1])))
      && (DashTailEnd(t, q) == Some(|t| - 1) ==> r == t[..k] + "\n")
  {
    match FirstCut(t, 0)
    case None => t
    case Some(q) => t[..SpaceRunStart(t, q)] + t[DashTailEnd(t, q).value..]
  }

  function CompletedTime(doc: Document): Option<string> {
    if doc.completedTime.Some? then Some(TrimAgo(doc.completedTime.value)) else None
  }

  // ----- Test tables -----

  /** The name of a test as a cell gives it, with its suite and case. */
  datatype TestRef = TestRef(test: string, suite: Option<string>, case_: string)

  /** New-failure rows: `suite [case]` from both spans; otherwise from the link or the cell
      text, split again by `extract_test_suite_and_case`. */
  function NewTestRef(c: Cell): (r: TestRef)
    ensures c.suite.Some? && c.name.Some? ==> r == TestRef(c.suite.value + " [" + c.name.value + "]", c.suite, c.name.value)
    ensures !(c.suite.Some? && c.name.Some?) ==> r.suite == SuiteAndCase(r.test).0 && r.case_ == SuiteAndCase(r.test).1
    ensures !(c.suite.Some? && c.name.Some?) ==> r.test == (if c.name.Some? then c.name.value else c.text)
  {
    if c.suite.Some? && c.name.Some? then TestRef(c.suite.value + " [" + c.name.value + "]", c.suite, c.name.value)
    else
      var t := if c.name.Some? then c.name.value else c.text;
      var sc := SuiteAndCase(t);
      TestRef(t, sc.0, sc.1)
  }

  /** Section rows: as new-failure rows, except that a link alone is the case, with no suite. */
  function SectionTestRef(c: Cell): (r: TestRef)
    ensures c.name.Some? && c.suite.None? ==> r == TestRef(c.name.value, None, c.name.value)
    ensures c.name.None? ==> r == NewTestRef(c)
    ensures c.suite.Some? && c.name.Some? ==> r == NewTestRef(c)
  {
    if c.suite.Some? && c.name.Some? then NewTestRef(c)
    else if c.name.Some? then TestRef(c.name.value, None, c.name.value)
    else NewTestRef(c)
  }

  /** The job named in a cell: its link's text, else its text. */
  function JobText(c: Cell): string {
    if c.link.Some? then c.link.value else c.text
  }

  const NewSkip: seq<string> := ["test", "status", "view job", "failed", "collapse"]
  const SectionSkip: seq<string> := ["test", "status", "failed", "expand"]
  const ExcerptWords: seq<string> := ["Error", "Failure", "Assert", "RFC", "MUST", "Exception"]

  /** A table is read for new failures when its header row mentions both status and test. */
  predicate FailureTable(t: Table) {
    t.rows != [] && Contains(Lower(t.rows[0].rawText), "status") && Contains(Lower(t.rows[0].rawText), "test")
  }

  /** The error excerpt of row `i`: the next row's text when it has at most two cells and
      names an error. */
  function Excerpt(rows: seq<Row>, i: nat): (e: string)
    requires i < |rows|
    ensures e == "" || (i + 1 < |rows| && e == rows[i + 1].text)
    ensures e != "" <==>
      (i + 1 < |rows| && |rows[i + 1].cells| <= 2
       && exists k :: 0 <= k < |ExcerptWords| && Contains(rows[i + 1].text, ExcerptWords[k]))
  {
    if i + 1 < |rows| && |rows[i + 1].cells| <= 2
       && exists k :: 0 <= k < |ExcerptWords| && Contains(rows[i + 1].text, ExcerptWords[k])
    then
      ContainsNonEmpty(rows[i + 1].text);
      rows[i + 1].text
    else ""
  }

  lemma ContainsNonEmpty(s: string)
    requires exists k :: 0 <= k < |ExcerptWords| && Contains(s, ExcerptWords[k])
    ensures s != ""
  {
    var k :| 0 <= k < |ExcerptWords| && Contains(s, ExcerptWords[k]);
    var p :| 0 <= p <= |s| && HasAt(s, p, ExcerptWords[k]);
    assert |ExcerptWords[k]| > 0;
  }

  /** The new failure reported by data row `i` of a failure table, if any. */
  function NewFailureAt(rows: seq<Row>, i: nat): (r: Option<Failure>)
    requires 1 <= i < |rows|
  {
    var cells := rows[i].cells;
    if |cells| < 2 then None
    else
      var status := Lower(cells[0].text);
      if !(Contains(status, "fail") || Contains(status, "collapse")) then None
      else
        var ref := NewTestRef(if |cells| >= 3 then cells[2] else cells[1]);
        if ref.test == "" || Lower(ref.test) in NewSkip then None
        else
          var job := if |cells| >= 4 then JobText(cells[3]) else "";
          Some(Failure(ref.test, ref.suite, FormatCase(ref.suite, ref.case_), job, Excerpt(rows, i)))
  }

  /** The new failures of data rows `1 .. n - 1`, in order. */
  function RowFailures(rows: seq<Row>, n: nat): (fs: seq<Failure>)
    requires 1 <= n <= |rows|
    ensures |fs| <= n - 1
  {
    if n == 1 then []
    else RowFailures(rows, n - 1) + (match NewFailureAt(rows, n - 1) case Some(f) => [f] case None => [])
  }

  function TableFailures(t: Table): seq<Failure> {
    if FailureTable(t) then RowFailures(t.rows, |t.rows|) else []
  }

  /** The new failures of the first `n` tables. */
  function NewFailures(tables: seq<Table>, n: nat): seq<Failure>
    requires n <= |tables|
  {
    if n == 0 then [] else NewFailures(tables, n - 1) + TableFailures(tables[n - 1])
  }

  /** A section table is read when its header mentions a test or a status and no artifact. */
  predicate SectionTable(t: Table) {
    t.rows != [] && !Contains(Lower(t.rows[0].rawText), "artifact") && !Contains(Lower(t.rows[0].rawText), "file size")
    && (Contains(Lower(t.rows[0].rawText), "test") || Contains(Lower(t.rows[0].rawText), "status"))
  }

  /** Column of the job: 4 in six-column (existing failure) rows, else 3. */
  function JobColumn(cells: seq<Cell>): nat
  {
    if |cells| >= 6 then 4 else 3
  }

  /** The test reported by data row `i` of a section table and its job, if any. */
  function SectionEntry(rows: seq<Row>, i: nat): (r: Option<(TestRef, string)>)
    requires 1 <= i < |rows|
  {
    var cells := rows[i].cells;
    if |cells| < 3 then None
    else
      var ref := SectionTestRef(cells[2]);
      if ref.test == "" || Lower(ref.test) in SectionSkip then None
      else
        var col := JobColumn(cells);
        Some((ref, if |cells| > col then JobText(cells[col]) else ""))
  }

  /** A fixed test row is kept when its status says success or does not say expand. */
  predicate FixedStatus(cells: seq<Cell>)
    requires cells != []
  {
    var st := Lower(cells[0].text);
    Contains(st, "success") || !Contains(st, "expand")
  }

  function FixedAt(rows: seq<Row>, i: nat): (r: Option<string>)
    requires 1 <= i < |rows|
  {
    match SectionEntry(rows, i)
    case Some(e) => if FixedStatus(rows[i].cells) then Some(e.0.test) else None
    case None => None
  }

  function ExistingAt(rows: seq<Row>, i: nat): (r: Option<Failure>)
    requires 1 <= i < |rows|
  {
    match SectionEntry(rows, i)
    case Some(e) => Some(Failure(e.0.test, e.0.suite, FormatCase(e.0.suite, e.0.case_), e.1, ""))
    case None => None
  }

  function FixedRows(rows: seq<Row>, n: nat): seq<string>
    requires 1 <= n <= |rows|
  {
    if n == 1 then []
    else FixedRows(rows, n - 1) + (match FixedAt(rows, n - 1) case Some(f) => [f] case None => [])
  }

  function ExistingRows(rows: seq<Row>, n: nat): seq<Failure>
    requires 1 <= n <= |rows|
  {
    if n == 1 then []
    else ExistingRows(rows, n - 1) + (match ExistingAt(rows, n - 1) case Some(f) => [f] case None => [])
  }

  function FixedTests(t: Option<Table>): seq<string> {
    if t.Some? && SectionTable(t.value) then FixedRows(t.value.rows, |t.value.rows|) else []
  }

  function ExistingFailures(t: Option<Table>): seq<Failure> {
    if t.Some? && SectionTable(t.value) then ExistingRows(t.value.rows, |t.value.rows|) else []
  }

  // ----- Jobs -----

  const HungReason := "Hung build detected (logs quiet for extended period)"
  const GenericAsanReason := "AddressSanitizer detected issue - check job logs for details"

  /** Some text node mentions a hung build. */
  predicate HungPage(nodes: seq<string>) {
    exists i :: 0 <= i < |nodes| && Contains(nodes[i], "Detected hung build state")
  }

  /** The job title names an AddressSanitizer job (`AddressSanitizer|ASAN`, any case). */
  predicate AsanTitle(title: string) {
    Contains(Lower(title), "addresssanitizer") || Contains(Lower(title), "asan")
  }

  /** The first page ASAN error that names a test. */
  function FirstNamed(errs: seq<PageAsanError>): (r: Option<PageAsanError>)
    ensures r.Some? ==> r.value in errs && r.value.testName != ""
    ensures r.None? ==> forall i :: 0 <= i < |errs| ==> errs[i].testName == ""
  {
    if errs == [] then None
    else if errs[0].testName != "" then Some(errs[0])
    else FirstNamed(errs[1..])
  }

  /** The ASAN details of a failed ASAN job: from the page's ASAN list, else parsed from
      the page, else from the job log. */
  function AsanJob(doc: Document, item: JobItem): (r: (string, Option<JobAsan>))
    ensures r.0 != ""
  {
    match FirstNamed(doc.pageAsan)
    case Some(e) =>
      var reason := if Truthy(e.leakCount)
        then "Memory leak detected (" + e.leakCount.value + " leak(s)) in " + e.testName
        else "AddressSanitizer error in " + e.testName;
      (reason, Some(PageReport(if Truthy(e.leakCount) then "memory-leak" else "asan-error",
                               e.testName, e.testPath, e.leakCount, reason)))
    case None =>
      var fromPage := AsanDetailsOf(doc.page);
      var d :=
        if fromPage.Some? && Truthy(fromPage.value.leakSummary) then fromPage
        else if item.key != "" && item.log.Some? && AsanDetailsOf(item.log.value).Some? then AsanDetailsOf(item.log.value)
        else fromPage;
      var reason := if d.Some? && Truthy(d.value.leakSummary) then d.value.leakSummary.value else GenericAsanReason;
      (reason, if d.Some? then Some(LogReport(d.value)) else None)
  }

  /** The entry of a job item: only "Failed" and "Unknown" items are reported. */
  function JobEntry(doc: Document, item: JobItem): (r: Option<FailedJob>)
    ensures r.Some? <==> item.status == "Failed" || item.status == "Unknown"
    ensures r.Some? ==> r.value.name == item.title && r.value.key == item.key
  {
    if item.status == "Unknown" then
      Some(FailedJob(item.title, JobUnknown, if HungPage(doc.textNodes) then HungReason else "Unknown status", item.key, None))
    else if item.status == "Failed" then
      if AsanTitle(item.title) then
        var (reason, asan) := AsanJob(doc, item);
        Some(FailedJob(item.title, JobFailed, reason, item.key, asan))
      else Some(FailedJob(item.title, JobFailed, "Job failed", item.key, None))
    else None
  }

  function FailedJobs(doc: Document, n: nat): seq<FailedJob>
    requires n <= |doc.jobs|
  {
    if n == 0 then []
    else FailedJobs(doc, n - 1) + (match JobEntry(doc, doc.jobs[n - 1]) case Some(j) => [j] case None => [])
  }

  // ----- The whole page -----

  /** `parse_build_status` as one function of the page. */
  function BuildReportOf(doc: Document): (r: BuildReport)
  {
    var news := NewFailures(doc.tables, |doc.tables|);
    var existing := ExistingFailures(doc.existingTable);
    var jobs := FailedJobs(doc, |doc.jobs|);
    var total := CountIn(TotalTests, doc.pageText);
    BuildReport(doc.url, BuildNumber(doc),
                Reconcile(StatusChain(doc), news, existing, jobs, total),
                CompletedTime(doc), news, existing, FixedTests(doc.fixedTable), jobs,
                CountIn(Quarantined, doc.pageText), total)
  }

  // ----- The parser as the script runs it -----

  /** One more data row appends that row's new failure, if any. */
  lemma RowFailuresStep(rows: seq<Row>, j: nat)
    requires 1 <= j < |rows|
    ensures RowFailures(rows, j + 1) == RowFailures(rows, j) + (match NewFailureAt(rows, j) case Some(f) => [f] case None => [])
  {
  }

  lemma FixedRowsStep(rows: seq<Row>, j: nat)
    requires 1 <= j < |rows|
    ensures FixedRows(rows, j + 1) == FixedRows(rows, j) + (match FixedAt(rows, j) case Some(f) => [f] case None => [])
  {
  }

  lemma ExistingRowsStep(rows: seq<Row>, j: nat)
    requires 1 <= j < |rows|
    ensures ExistingRows(rows, j + 1) == ExistingRows(rows, j) + (match ExistingAt(rows, j) case Some(f) => [f] case None => [])
  {
  }

  /** Reads the data rows of one failure table. */
  method CollectRowFailures(rows: seq<Row>) returns (fs: seq<Failure>)
    requires rows != []
    ensures fs == RowFailures(rows, |rows|)
  {
    fs := [];
    var j := 1;
    while j < |rows|
      invariant 1 <= j <= |rows|
      invariant fs == RowFailures(rows, j)
    {
      fs := AddRowFailure(rows, j, fs);
      j := j + 1;
    }
  }

  /** The loop body of `CollectRowFailures`: appends row `j`'s new failure, if any. */
  method AddRowFailure(rows: seq<Row>, j: nat, fs: seq<Failure>) returns (fs': seq<Failure>)
    requires 1 <= j < |rows| && fs == RowFailures(rows, j)
    ensures fs' == RowFailures(rows, j + 1)
  {
    var f := NewFailureAt(rows, j);
    RowFailuresStep(rows, j);
    fs' := if f.Some? then fs + [f.value] else fs;
  }

  lemma NewFailuresStep(tables: seq<Table>, i: nat)
    requires i < |tables|
    ensures NewFailures(tables, i + 1) == NewFailures(tables, i) + TableFailures(tables[i])
  {
  }

  /** The new failures of one table: none unless it is a failure table. */
  method CollectTable(t: Table) returns (fs: seq<Failure>)
    ensures fs == TableFailures(t)
  {
    fs := [];
    if FailureTable(t) {
      fs := CollectRowFailures(t.rows);
    }
  }

  /** Collects the new failures table by table and row by row. */
  method CollectNewFailures(tables: seq<Table>) returns (fs: seq<Failure>)
    ensures fs == NewFailures(tables, |tables|)
  {
    fs := [];
    var i := 0;
    while i < |tables|
      invariant 0 <= i <= |tables|
      invariant fs == NewFailures(tables, i)
    {
      var more := CollectTable(tables[i]);
      NewFailuresStep(tables, i);
      fs := fs + more;
      i := i + 1;
    }
  }

  /** Reads a section table row by row: fixed tests for the "Fixed tests" section,
      existing failures for the other. */
  method CollectSection(t: Option<Table>, fixedSection: bool) returns (fixed: seq<string>, existing: seq<Failure>)
    ensures fixed == (if fixedSection then FixedTests(t) else [])
    ensures existing == (if fixedSection then [] else ExistingFailures(t))
  {
    fixed := [];
    existing := [];
    if t.None? || !SectionTable(t.value) {
      return;
    }
    var rows := t.value.rows;
    var j := 1;
    while j < |rows|
      invariant 1 <= j <= |rows|
      invariant fixed == (if fixedSection then FixedRows(rows, j) else [])
      invariant existing == (if fixedSection then [] else ExistingRows(rows, j))
    {
      if fixedSection {
        var f := FixedAt(rows, j);
        FixedRowsStep(rows, j);
        if f.Some? {
          fixed := fixed + [f.value];
        }
      } else {
        var e := ExistingAt(rows, j);
        ExistingRowsStep(rows, j);
        if e.Some? {
          existing := existing + [e.value];
        }
      }
      j := j + 1;
    }
  }

  /** Collects an entry for every Failed or Unknown job item. */
  method CollectFailedJobs(doc: Document) returns (jobs: seq<FailedJob>)
    ensures jobs == FailedJobs(doc, |doc.jobs|)
  {
    jobs := [];
    var i := 0;
    while i < |doc.jobs|
      invariant 0 <= i <= |doc.jobs|
      invariant jobs == FailedJobs(doc, i)
    {
      var e := JobEntry(doc, doc.jobs[i]);
      if e.Some? {
        jobs := jobs + [e.value];
      }
      i := i + 1;
    }
  }

  /** The build number and the status from the heuristics, in the order the script tries them. */
  method ParseHeading(doc: Document) returns (number: Option<string>, status: Status)
    ensures number == BuildNumber(doc) && status == StatusChain(doc)
  {
    number := None;
    status := Unknown;
    var urlMatch := Search(UrlBuild, doc.url);
    if urlMatch.Some? {
      number := Some("#" + urlMatch.value.groups[0]);
    }
    if doc.h1.Some? {
      var num := Search(HeadingNumber, doc.h1.value);
      if num.Some? {
        number := Some(num.value.groups[0]);
      }
      status := WordStatus(doc.h1.value);
    }
    if status == Unknown {
      var summary := SecondaryText(doc);
      if summary.Some? {
        status := WordStatus(summary.value);
      }
    }
    if status == Unknown {
      if CounterPositive(NewCounter, doc.pageText) {
        status := Failed;
      }
      if CounterPositive(ExistingCounter, doc.pageText) {
        status := Failed;
      }
    }
    if status == Unknown && doc.hasFailingSince {
      status := Failed;
    }
  }

  /** `parse_build_status`: fills the result record field by field. */
  method ParseBuildStatus(doc: Document) returns (r: BuildReport)
    ensures r == BuildReportOf(doc)
    ensures r.status == Unknown ==>
      r.newFailures == [] && r.existingFailures == [] && r.failedJobs == [] && r.totalTests == 0
  {
    var number, status := ParseHeading(doc);
    r := BuildReport(doc.url, number, status, None, [], [], [], [], 0, 0);
    r := r.(completedTime := CompletedTime(doc));
    r := r.(totalTests := CountIn(TotalTests, doc.pageText));
    r := r.(quarantined := CountIn(Quarantined, doc.pageText));
    var news := CollectNewFailures(doc.tables);
    r := r.(newFailures := news);
    var fixed, _ := CollectSection(doc.fixedTable, true);
    var _, existing := CollectSection(doc.existingTable, false);
    r := r.(fixedTests := fixed, existingFailures := existing);
    var jobs := CollectFailedJobs(doc);
    r := r.(failedJobs := jobs);
    if r.status == Unknown && (r.newFailures != [] || r.existingFailures != [] || r.failedJobs != []) {
      r := r.(status := Failed);
    }
    if r.status == Unknown && r.totalTests > 0 && r.newFailures == [] && r.existingFailures == [] && r.failedJobs == [] {
      r := r.(status := Success);
    }
    ReconcileUnknown(status, news, existing, jobs, r.totalTests);
  }

  // ----- Properties -----

  /** Reconciliation leaves Unknown exactly when there is nothing to go on: no failure of
      any kind and no test count. */
  lemma ReconcileUnknown(st: Status, news: seq<Failure>, existing: seq<Failure>, jobs: seq<FailedJob>, total: nat)
    ensures Reconcile(st, news, existing, jobs, total) == Unknown <==>
      st == Unknown && news == [] && existing == [] && jobs == [] && total == 0
  {
  }

  /** A status decided by an earlier heuristic is never changed later. */
  lemma DecidedStatusSticks(doc: Document)
    requires StatusChain(doc) != Unknown
    ensures BuildReportOf(doc).status == StatusChain(doc)
  {
  }

  /** The first heading decides when it says failed or success; "failed" wins over "success". */
  lemma HeadingDecides(doc: Document)
    requires doc.h1.Some? && WordStatus(doc.h1.value) != Unknown
    ensures BuildReportOf(doc).status == WordStatus(doc.h1.value)
    ensures HasWord(Lower(doc.h1.value), "failed") ==> BuildReportOf(doc).status == Failed
  {
  }

  /** With no status from the headings, a positive failure counter makes the build FAILED. */
  lemma CounterMakesFailed(doc: Document)
    requires doc.h1.None? || WordStatus(doc.h1.value) == Unknown
    requires SecondaryText(doc).None? || WordStatus(SecondaryText(doc).value) == Unknown
    requires CounterPositive(NewCounter, doc.pageText) || CounterPositive(ExistingCounter, doc.pageText)
    ensures BuildReportOf(doc).status == Failed
  {
  }

  /** With no status from the heuristics, any failure makes the build FAILED, and a positive
      test count without failures makes it SUCCESS. */
  lemma EvidenceAfterParsing(doc: Document)
    requires StatusChain(doc) == Unknown
    ensures var r := BuildReportOf(doc);
      (r.newFailures != [] || r.existingFailures != [] || r.failedJobs != [] ==> r.status == Failed)
      && (r.newFailures == [] && r.existingFailures == [] && r.failedJobs == [] && r.totalTests > 0 ==> r.status == Success)
  {
  }

  /** The acceptance rule of a new-failure row. */
  lemma NewFailureRule(rows: seq<Row>, i: nat)
    requires 1 <= i < |rows|
    ensures var cells := rows[i].cells;
      NewFailureAt(rows, i).Some? <==>
        (|cells| >= 2
         && (Contains(Lower(cells[0].text), "fail") || Contains(Lower(cells[0].text), "collapse"))
         && NewTestRef(if |cells| >= 3 then cells[2] else cells[1]).test != ""
         && Lower(NewTestRef(if |cells| >= 3 then cells[2] else cells[1]).test) !in NewSkip)
    ensures var cells := rows[i].cells;
      NewFailureAt(rows, i).Some? ==>
        var f := NewFailureAt(rows, i).value;
        var ref := NewTestRef(if |cells| >= 3 then cells[2] else cells[1]);
        f.test == ref.test && f.suite == ref.suite && f.case_ == FormatCase(ref.suite, ref.case_)
        && f.job == (if |cells| >= 4 then JobText(cells[3]) else "")
        && f.error == Excerpt(rows, i)
  {
  }

  /** Every recorded new failure names a test that is not a header word. */
  lemma {:induction false} RowFailuresNamed(rows: seq<Row>, n: nat)
    requires 1 <= n <= |rows|
    ensures forall k :: 0 <= k < |RowFailures(rows, n)| ==>
      RowFailures(rows, n)[k].test != "" && Lower(RowFailures(rows, n)[k].test) !in NewSkip
  {
    if n > 1 {
      RowFailuresNamed(rows, n - 1);
    }
  }

  /** Existing failures take their job from column 4 in six-column rows, else column 3, and
      carry no excerpt. */
  lemma ExistingRowJob(rows: seq<Row>, i: nat)
    requires 1 <= i < |rows| && ExistingAt(rows, i).Some?
    ensures var cells := rows[i].cells;
      var col := if |cells| >= 6 then 4 else 3;
      ExistingAt(rows, i).value.job == (if |cells| > col then JobText(cells[col]) else "")
      && ExistingAt(rows, i).value.error == ""
  {
  }

  /** A fixed-test row is kept exactly when it names a test and its status says success or
      does not say expand. */
  lemma FixedRowRule(rows: seq<Row>, i: nat)
    requires 1 <= i < |rows|
    ensures FixedAt(rows, i).Some? <==> SectionEntry(rows, i).Some? && FixedStatus(rows[i].cells)
  {
  }

  /** Only Failed and Unknown items are reported; Unknown means hung exactly when the page
      says "Detected hung build state"; a Failed non-ASAN job just failed. */
  lemma JobReasons(doc: Document, item: JobItem)
    ensures item.status == "Unknown" ==>
      JobEntry(doc, item).value.state == JobUnknown
      && (JobEntry(doc, item).value.reason == HungReason <==> HungPage(doc.textNodes))
      && (JobEntry(doc, item).value.reason == "Unknown status" <==> !HungPage(doc.textNodes))
    ensures item.status == "Failed" && !AsanTitle(item.title) ==>
      JobEntry(doc, item).value.reason == "Job failed" && JobEntry(doc, item).value.state == JobFailed
    ensures item.status != "Failed" && item.status != "Unknown" ==> JobEntry(doc, item).None?
  {
  }

  /** A failed ASAN job with a named page ASAN error reports the first such error. */
  lemma AsanJobFromPage(doc: Document, item: JobItem, e: PageAsanError)
    requires FirstNamed(doc.pageAsan) == Some(e)
    ensures var reason := AsanJob(doc, item).0;
      AsanJob(doc, item).1 == Some(PageReport(if Truthy(e.leakCount) then "memory-leak" else "asan-error",
                                              e.testName, e.testPath, e.leakCount, reason))
    ensures var reason := AsanJob(doc, item).0;
      |e.testName| + 4 <= |reason| && reason[|reason| - |e.testName| - 4..] == " in " + e.testName
    ensures Truthy(e.leakCount) ==> "Memory leak detected (" + e.leakCount.value + " leak(s))" <= AsanJob(doc, item).0
    ensures !Truthy(e.leakCount) ==> "AddressSanitizer error" <= AsanJob(doc, item).0
  {
    var tail := " in " + e.testName;
    if Truthy(e.leakCount) {
      var head := "Memory leak detected (" + e.leakCount.value + " leak(s))";
      assert AsanJob(doc, item).0 == head + tail;
    } else {
      assert AsanJob(doc, item).0 == "AddressSanitizer error" + tail;
    }
  }

  /** Without a page ASAN error, the reason is the page's own ASAN summary if it has one,
      else the job log's, else the generic reason. */
  lemma AsanJobFromLogs(doc: Document, item: JobItem)
    requires FirstNamed(doc.pageAsan).None?
    ensures AsanDetailsOf(doc.page).Some? ==> AsanJob(doc, item).0 == AsanDetailsOf(doc.page).value.leakSummary.value
    ensures AsanDetailsOf(doc.page).None? && item.key != "" && item.log.Some? && AsanDetailsOf(item.log.value).Some? ==>
      AsanJob(doc, item).0 == AsanDetailsOf(item.log.value).value.leakSummary.value
    ensures AsanDetailsOf(doc.page).None? && (item.key == "" || item.log.None? || AsanDetailsOf(item.log.value).None?) ==>
      AsanJob(doc, item).0 == GenericAsanReason
  {
    NoneExactlyWithoutReport(doc.page);
    if item.log.Some? {
      NoneExactlyWithoutReport(item.log.value);
    }
  }

  /** A time text `date – tail` is cut back to `date` when `date` has no en dash and does
      not end in white space, and the tail is one line. */
  lemma TrimAgoTail(date: string, tail: string)
    requires date != [] && !IsSpace(date[|date| - 1])
    requires forall j :: 0 <= j < |date| ==> date[j] != '–'
    requires forall j :: 0 <= j < |tail| ==> tail[j] != '\n'
    ensures TrimAgo(date + " – " + tail) == date
  {
    var t := date + " – " + tail;
    var q := |date| + 1;
    assert t[q] == '–';
    forall j | 0 <= j < q ensures t[j] != '–' {
      if j < |date| { assert t[j] == date[j]; } else { assert t[j] == ' '; }
    }
    var w := RunEnd(t, q + 1, Spaces);
    assert IsSpace(t[q + 1]);
    forall i | w <= i < |t| ensures t[i] != '\n' {
      assert t[i] == tail[i - q - 2];
    }
    assert DashTailEnd(t, q) == Some(|t|);
    assert FirstCut(t, 0) == Some(q) by { FirstCutIs(t, 0, q); }
    var k := SpaceRunStart(t, q);
    assert t[|date| - 1] == date[|date| - 1];
    assert IsSpace(t[|date|]);
    assert k == |date|;
    assert t[..k] == date;
  }

  /** When the text after the dash runs on over a further line, `.*$` cannot match there:
      a one-dash text is left unchanged. */
  lemma TrimAgoKeepsMultiline(date: string, tail: string, more: string)
    requires forall j :: 0 <= j < |date| ==> date[j] != '–'
    requires forall j :: 0 <= j < |tail| ==> tail[j] != '–'
    requires forall j :: 0 <= j < |more| ==> more[j] != '–'
    requires tail != [] && !IsSpace(tail[0]) && more != []
    ensures TrimAgo(date + " – " + tail + "\n" + more) == date + " – " + tail + "\n" + more
  {
    var t := date + " – " + tail + "\n" + more;
    var q := |date| + 1;
    assert t[q] == '–';
    assert IsSpace(t[q + 1]) && t[q + 2] == tail[0];
    assert RunEnd(t, q + 1, Spaces) == q + 2 by {
      assert RunEnd(t, q + 1, Spaces) == RunEnd(t, q + 2, Spaces);
    }
    var nl := q + 2 + |tail|;
    assert t[nl] == '\n' && nl < |t| - 1;
    assert DashTailEnd(t, q).None?;
    forall j | 0 <= j < |t| && j != q ensures t[j] != '–' {
      if j < |date| { assert t[j] == date[j]; }
      else if j <= q + 1 || j == nl { }
      else if j < nl { assert t[j] == tail[j - q - 2]; }
      else { assert t[j] == more[j - nl - 1]; }
    }
    FirstCutNone(t, 0);
  }

  lemma {:induction false} FirstCutIs(t: string, from: nat, q: nat)
    requires from <= q < |t| && t[q] == '–' && DashTailEnd(t, q).Some?
    requires forall j :: from <= j < q && t[j] == '–' ==> DashTailEnd(t, j).None?
    ensures FirstCut(t, from) == Some(q)
    decreases q - from
  {
    if from < q {
      FirstCutIs(t, from + 1, q);
    }
  }

  lemma {:induction false} FirstCutNone(t: string, from: nat)
    requires forall j :: from <= j < |t| && t[j] == '–' ==> DashTailEnd(t, j).None?
    ensures FirstCut(t, from).None?
    decreases |t| - from
  {
    if from < |t| {
      FirstCutNone(t, from + 1);
    }
  }

  /** The time text drops an "– 18 hours ago" tail. */
  lemma TrimAgoExample()
    ensures TrimAgo("17 Oct 2025, 1:43:42 PM – 18 hours ago") == "17 Oct 2025, 1:43:42 PM"
  {
    var date := "17 Oct 2025, 1:43:42 PM";
    assert "17 Oct 2025, 1:43:42 PM – 18 hours ago" == date + " – " + "18 hours ago";
    TrimAgoTail(date, "18 hours ago");
  }
}
