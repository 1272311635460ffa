/**
 * `parse_asan_details` of check_ci_build.py: reads a job log for AddressSanitizer reports
 * and fills a details record through successive passes (leak line, SUMMARY line, ERROR
 * line, associated test, summary message).
 */
module AsanDetails {
  import opened Wrappers
  import opened Text
  import opened Patterns

  /** The parts of a log page the parser looks at: the raw page, the text of the first
      `<pre>` whose class contains "log" (if any), the texts of all `<pre>` elements in
      document order, and the text of the whole page. */
  datatype LogPage = LogPage(html: string, logPre: Option<string>, pres: seq<string>, allText: string)

  /** The details record. A field set to `None` is Python's `None`. */
  datatype Details = Details(
    hasIssue: bool,
    errorType: Option<string>,
    leakType: Option<string>,
    testName: Option<string>,
    leakSummary: Option<string>,
    leakSize: Option<string>)

  const Empty := Details(false, None, None, None, None, None)

  /** Python truthiness of an optional string. */
  predicate Truthy(o: Option<string>) {
    o.Some? && o.value != ""
  }

  /** `a or b` on optional strings, with `b` a plain string. */
  function OrElse(a: Option<string>, b: string): (r: string)
    ensures Truthy(a) ==> r == a.value
    ensures !Truthy(a) ==> r == b
  {
    if Truthy(a) then a.value else b
  }

  /** The first text longer than 1000 characters, or "". */
  function FirstLong(pres: seq<string>): (r: string)
    ensures r == "" || (|r| > 1000 && r in pres)
    ensures r == "" <==> forall i :: 0 <= i < |pres| ==> |pres[i]| <= 1000
  {
    if pres == [] then ""
    else if |pres[0]| > 1000 then pres[0]
    else FirstLong(pres[1..])
  }

  /** The text searched: the log `<pre>`, else the first long `<pre>`; when that is empty,
      the whole page text. */
  function LogText(page: LogPage): (log: string)
    ensures page.logPre.Some? && page.logPre.value != "" ==> log == page.logPre.value
    ensures page.logPre.None? && FirstLong(page.pres) != "" ==> log == FirstLong(page.pres)
    ensures log == page.allText || log == FirstLong(page.pres) || Some(log) == page.logPre
  {
    var t := if page.logPre.Some? then page.logPre.value else FirstLong(page.pres);
    if t == "" then page.allText else t
  }

  /** Pass 1: a `(Direct|Indirect) leak of N byte(s) in M object` line. */
  function LeakPass(log: string, d: Details): (r: Details)
  {
    match Search(Leak, log)
    case None => d
    case Some(m) =>
      var g := m.groups;
      if |g| < 3 then d
      else d.(hasIssue := true, errorType := Some("memory-leak"), leakType := Some(g[0]),
              leakSize := Some(g[1] + " bytes in " + g[2] + " object(s)"))
  }

  /** The error kind named by a non-leak summary. */
  function SummaryKind(summary: string): (k: string)
    ensures k != ""
  {
    var low := Lower(summary);
    if Contains(low, "heap-buffer-overflow") then "heap-buffer-overflow"
    else if Contains(low, "use-after-free") then "use-after-free"
    else if Contains(low, "stack-buffer-overflow") then "stack-buffer-overflow"
    else if Contains(low, "global-buffer-overflow") then "global-buffer-overflow"
    else if summary != "" && Words(summary) != [] then Words(summary)[0]
    else "unknown"
  }

  /** Pass 2: the `SUMMARY: AddressSanitizer: ...` line. */
  function SummaryPass(log: string, d: Details): (r: Details)
  {
    match Search(SanSummary, log)
    case None => d
    case Some(m) =>
      var summary := Strip(m.groups[0]);
      var d1 := d.(hasIssue := true);
      if Contains(Lower(summary), "leak") then
        var d2 := if Truthy(d1.errorType) then d1 else d1.(errorType := Some("memory-leak"));
        match Search(ByteCount, summary)
        case Some(b) =>
          if Truthy(d2.leakSize) then d2 else d2.(leakSize := Some(b.groups[0] + " bytes"))
        case None => d2
      else d1.(errorType := Some(SummaryKind(summary)))
  }

  /** Pass 3: the `ERROR: AddressSanitizer: ...` line, used only while no error type is set. */
  function ErrorPass(log: string, d: Details): (r: Details)
  {
    match Search(SanError, log)
    case Some(m) =>
      if Truthy(d.errorType) then d
      else d.(hasIssue := true, errorType := Some(Strip(m.groups[0])))
    case None => d
  }

  /** The markers whose first occurrence locates the report. */
  const Markers: seq<string> := ["leak of", "ERROR:", "SUMMARY:"]

  /** The test-name patterns, in the order they are tried. */
  const TestPatterns: seq<Pat> := [RunningTest, Banner, TestPath, TestPrefix, PytestId]

  /** Position of the first of `Markers[i..]` whose first occurrence is past position 0, or -1. */
  function MarkerPos(log: string, i: nat): (pos: int)
    requires i <= |Markers|
    ensures pos == -1 || 0 < pos <= |log|
    decreases |Markers| - i
  {
    if i == |Markers| then -1
    else
      var p := Find(log, Markers[i]);
      if p > 0 then p else MarkerPos(log, i + 1)
  }

  /** The window searched for a test name: at most 10000 characters ending at `pos`. */
  function Window(log: string, pos: nat): (w: string)
    requires pos <= |log|
    ensures |w| <= 10000 && |w| <= pos && w == log[pos - |w|..pos]
    ensures pos <= 10000 ==> w == log[..pos]
  {
    if pos >= 10000 then log[pos - 10000..pos] else log[..pos]
  }

  /** `re.sub(r'\.pyc?$', '', name)`: a final `.pyc` or `.py` is removed. */
  function DropPySuffix(name: string): (r: string)
    ensures |name| >= 4 && name[|name| - 4..] == ".pyc" ==> r == name[..|name| - 4]
    ensures !(|name| >= 4 && name[|name| - 4..] == ".pyc") && |name| >= 3 && name[|name| - 3..] == ".py" ==>
      r == name[..|name| - 3]
    ensures !(|name| >= 4 && name[|name| - 4..] == ".pyc") && !(|name| >= 3 && name[|name| - 3..] == ".py") ==>
      r == name
  {
    if |name| >= 4 && name[|name| - 4..] == ".pyc" then name[..|name| - 4]
    else if |name| >= 3 && name[|name| - 3..] == ".py" then name[..|name| - 3]
    else name
  }

  /** The cleaned test name: suffix dropped, `test_` prefixed unless it starts with `test`. */
  function CleanTestName(name: string): (r: string)
    ensures "test" <= r
    ensures "test" <= DropPySuffix(name) ==> r == DropPySuffix(name)
    ensures !("test" <= DropPySuffix(name)) ==> r == "test_" + DropPySuffix(name)
  {
    var n := DropPySuffix(name);
    if "test" <= n then n else "test_" + n
  }

  /** The matches of every test-name pattern in `context`, pattern by pattern. */
  function TestMatches(context: string): (found: seq<seq<Match>>)
    ensures |found| == |TestPatterns|
    ensures forall k :: 0 <= k < |TestPatterns| ==> found[k] == FindAll(TestPatterns[k], context)
  {
    seq(|TestPatterns|, k requires 0 <= k < |TestPatterns| => FindAll(TestPatterns[k], context))
  }

  /** `m.group(1)`; every pattern of the model has that group, so "" is never taken. */
  function FirstGroup(m: Match): string {
    if m.groups == [] then "" else m.groups[0]
  }

  /** Test name from the first of `found[i..]` whose last match has a non-empty first group,
      cleaned. */
  function TestNameFrom(found: seq<seq<Match>>, i: nat): (r: Option<string>)
    requires i <= |found|
    ensures r.Some? ==> "test" <= r.value
    decreases |found| - i
  {
    if i == |found| then None
    else
      var ms := found[i];
      if ms != [] && FirstGroup(ms[|ms| - 1]) != "" then Some(CleanTestName(FirstGroup(ms[|ms| - 1])))
      else TestNameFrom(found, i + 1)
  }

  /** Pass 4: the associated test, looked up only when an issue was found. */
  function TestNamePass(log: string, d: Details): (r: Details)
  {
    if !d.hasIssue then d
    else
      var pos := MarkerPos(log, 0);
      if pos <= 0 then d
      else
        match TestNameFrom(TestMatches(Window(log, pos)), 0)
        case Some(t) => d.(testName := Some(t))
        case None => d
  }

  /** The summary message of an issue. */
  function Message(d: Details): (msg: string)
  {
    var test := OrElse(d.testName, "unknown test");
    if d.errorType == Some("memory-leak") then
      OrElse(d.leakType, "Memory") + " leak detected (" + OrElse(d.leakSize, "unknown size") + ") in " + test
    else
      var kind := if Truthy(d.errorType) then d.errorType.value else OrElse(d.leakType, "Unknown issue");
      if Truthy(d.leakSize) then kind + " (" + d.leakSize.value + ") in " + test
      else kind + " in " + test
  }

  /** `parse_asan_details`: `None` for an empty page and for a page with no report. */
  function AsanDetailsOf(page: LogPage): (r: Option<Details>)
  {
    if page.html == "" then None
    else
      var log := LogText(page);
      var d := TestNamePass(log, ErrorPass(log, SummaryPass(log, LeakPass(log, Empty))));
      if d.hasIssue then Some(d.(leakSummary := Some(Message(d)))) else None
  }

  /** The marker search: the first marker found past position 0. */
  method FindMarker(log: string) returns (errorPos: int)
    ensures errorPos == MarkerPos(log, 0)
  {
    errorPos := -1;
    var i := 0;
    while i < |Markers|
      invariant 0 <= i <= |Markers|
      invariant MarkerPos(log, 0) == MarkerPos(log, i)
    {
      var p := Find(log, Markers[i]);
      if p > 0 {
        errorPos := p;
        return;
      }
      i := i + 1;
    }
  }

  /** The pattern search: the last match of the first pattern that matches. */
  method FindTestName(context: string) returns (found: Option<string>)
    ensures found == TestNameFrom(TestMatches(context), 0)
  {
    ghost var all := TestMatches(context);
    var k := 0;
    while k < |TestPatterns|
      invariant 0 <= k <= |TestPatterns|
      invariant TestNameFrom(all, 0) == TestNameFrom(all, k)
    {
      var ms := FindAll(TestPatterns[k], context);
      assert ms == all[k];
      if ms != [] {
        var name := FirstGroup(ms[|ms| - 1]);
        if name != "" {
          return Some(CleanTestName(name));
        }
      }
      k := k + 1;
    }
    return None;
  }

  /** The parser as the script runs it: passes that update one record in turn. */
  method ParseAsanDetails(page: LogPage) returns (r: Option<Details>)
    ensures r == AsanDetailsOf(page)
  {
    if page.html == "" {
      return None;
    }
    var log := LogText(page);
    var d := Empty;
    d := LeakPass(log, d);
    d := SummaryPass(log, d);
    d := ErrorPass(log, d);
    ghost var before := d;
    if d.hasIssue {
      var errorPos := FindMarker(log);
      if errorPos > 0 {
        var found := FindTestName(Window(log, errorPos));
        if found.Some? {
          d := d.(testName := found);
        }
      }
    }
    assert d == TestNamePass(log, before);
    if d.hasIssue {
      d := d.(leakSummary := Some(Message(d)));
      return Some(d);
    }
    return None;
  }

  // ----- Properties -----

  /** Each pass keeps an issue once found; the leak and summary passes find one exactly
      when their line is present, and the test-name pass never changes the verdict. */
  lemma LeakPassIssue(log: string, d: Details)
    ensures LeakPass(log, d).hasIssue == (d.hasIssue || Search(Leak, log).Some?)
  {
    match Search(Leak, log)
    case Some(m) => assert m.start <= |log| && MatchAt(Leak, log, m.start) == Some(m);
    case None =>
  }

  lemma SummaryPassIssue(log: string, d: Details)
    ensures SummaryPass(log, d).hasIssue == (d.hasIssue || Search(SanSummary, log).Some?)
  {
  }

  lemma ErrorPassIssue(log: string, d: Details)
    ensures d.hasIssue ==> ErrorPass(log, d).hasIssue
    ensures !d.hasIssue && d.errorType.None? ==> ErrorPass(log, d).hasIssue == Search(SanError, log).Some?
  {
  }

  lemma TestNamePassIssue(log: string, d: Details)
    ensures TestNamePass(log, d).hasIssue == d.hasIssue
  {
  }

  /** No report, or an empty page, gives `None`; any of the three report lines gives a
      record with an issue and a message. */
  lemma NoneExactlyWithoutReport(page: LogPage)
    ensures AsanDetailsOf(page).None? <==>
      page.html == "" ||
      (Search(Leak, LogText(page)).None? && Search(SanSummary, LogText(page)).None?
       && Search(SanError, LogText(page)).None?)
    ensures AsanDetailsOf(page).Some? ==>
      AsanDetailsOf(page).value.hasIssue && Truthy(AsanDetailsOf(page).value.leakSummary)
  {
    var log := LogText(page);
    var d1 := LeakPass(log, Empty);
    LeakPassIssue(log, Empty);
    var d2 := SummaryPass(log, d1);
    SummaryPassIssue(log, d1);
    var d3 := ErrorPass(log, d2);
    ErrorPassIssue(log, d2);
    TestNamePassIssue(log, d3);
    if !d2.hasIssue {
      assert d2 == Empty;
    }
    if d3.hasIssue {
      MessageNonEmpty(TestNamePass(log, d3));
    }
  }

  lemma MessageNonEmpty(d: Details)
    ensures Message(d) != ""
  {
  }

  /** A leak line fixes the leak kind and size; a leak summary keeps them, and keeps the
      error type at "memory-leak". */
  lemma LeakLineWins(log: string, m: Match)
    requires Search(Leak, log) == Some(m)
    requires Search(SanSummary, log).None? || Contains(Lower(Strip(Search(SanSummary, log).value.groups[0])), "leak")
    ensures var d := ErrorPass(log, SummaryPass(log, LeakPass(log, Empty)));
      d.errorType == Some("memory-leak") && d.leakType == Some(m.groups[0])
      && d.leakSize == Some(m.groups[1] + " bytes in " + m.groups[2] + " object(s)")
  {
    LeakPassFound(log, Empty, m);
    var d1 := LeakPass(log, Empty);
    SummaryPassKeepsLeak(log, d1);
    ErrorPassKeeps(log, d1);
  }

  /** A leak line sets the issue, the error type, the leak kind and the leak size. */
  lemma LeakPassFound(log: string, d: Details, m: Match)
    requires Search(Leak, log) == Some(m)
    ensures |m.groups| == 3
    ensures LeakPass(log, d) == d.(hasIssue := true, errorType := Some("memory-leak"), leakType := Some(m.groups[0]),
                                   leakSize := Some(m.groups[1] + " bytes in " + m.groups[2] + " object(s)"))
  {
    assert m.start <= |log| && MatchAt(Leak, log, m.start) == Some(m);
  }

  /** With an error type and a leak size already set, a leak summary changes nothing. */
  lemma SummaryPassKeepsLeak(log: string, d: Details)
    requires d.hasIssue && Truthy(d.errorType) && Truthy(d.leakSize)
    requires Search(SanSummary, log).None? || Contains(Lower(Strip(Search(SanSummary, log).value.groups[0])), "leak")
    ensures SummaryPass(log, d) == d
  {
  }

  /** Once an error type is set, the ERROR line changes nothing. */
  lemma ErrorPassKeeps(log: string, d: Details)
    requires Truthy(d.errorType)
    ensures ErrorPass(log, d) == d
  {
  }

  /** A summary line always leaves an error type set, so the ERROR line then changes nothing. */
  lemma SummaryShadowsErrorLine(log: string, d: Details)
    requires Search(SanSummary, log).Some?
    ensures Truthy(SummaryPass(log, d).errorType)
    ensures ErrorPass(log, SummaryPass(log, d)) == SummaryPass(log, d)
  {
    SummarySetsType(log, d);
    ErrorPassKeeps(log, SummaryPass(log, d));
  }

  lemma SummarySetsType(log: string, d: Details)
    requires Search(SanSummary, log).Some?
    ensures Truthy(SummaryPass(log, d).errorType)
  {
    var summary := Strip(Search(SanSummary, log).value.groups[0]);
    if !Contains(Lower(summary), "leak") {
      assert SummaryPass(log, d).errorType == Some(SummaryKind(summary));
    }
  }

  /** A non-leak summary overrides an error type set by a leak line. */
  lemma NonLeakSummaryOverrides(log: string, d: Details)
    requires Search(SanSummary, log).Some?
    requires !Contains(Lower(Strip(Search(SanSummary, log).value.groups[0])), "leak")
    ensures SummaryPass(log, d).errorType == Some(SummaryKind(Strip(Search(SanSummary, log).value.groups[0])))
    ensures SummaryPass(log, d).leakType == d.leakType && SummaryPass(log, d).leakSize == d.leakSize
  {
  }

  /** With only an ERROR line, its stripped description is the error type. */
  lemma ErrorLineAlone(log: string)
    requires Search(Leak, log).None? && Search(SanSummary, log).None?
    requires Search(SanError, log).Some?
    ensures ErrorPass(log, SummaryPass(log, LeakPass(log, Empty))).errorType
      == Some(Strip(Search(SanError, log).value.groups[0]))
  {
  }

  /** The test name comes from the last match of the first pattern that matches in the
      window before the first marker. */
  lemma TestNameFromFirstMatchingPattern(context: string, i: nat)
    requires i < |TestPatterns|
    requires forall k :: 0 <= k < i ==> FindAll(TestPatterns[k], context) == []
    requires FindAll(TestPatterns[i], context) != []
    ensures var ms := FindAll(TestPatterns[i], context);
      |ms[|ms| - 1].groups| >= 1
      && TestNameFrom(TestMatches(context), 0) == Some(CleanTestName(ms[|ms| - 1].groups[0]))
  {
    var all := TestMatches(context);
    var ms := FindAll(TestPatterns[i], context);
    LastGroupNonEmpty(TestPatterns[i], context);
    assert all[i] == ms;
    TestNameFound(all, i);
    for k := 0 to i
      invariant TestNameFrom(all, 0) == TestNameFrom(all, k)
    {
      assert all[k] == [];
      TestNameSkip(all, k);
    }
  }

  /** Every pattern captures at least one character in its first group. */
  lemma LastGroupNonEmpty(pat: Pat, context: string)
    requires FindAll(pat, context) != []
    ensures var ms := FindAll(pat, context);
      |ms[|ms| - 1].groups| >= 1 && FirstGroup(ms[|ms| - 1]) == ms[|ms| - 1].groups[0] != ""
  {
    var ms := FindAll(pat, context);
    var m := ms[|ms| - 1];
    assert m.start <= |context| && MatchAt(pat, context, m.start) == Some(m);
  }

  /** A pattern whose last match has a non-empty first group gives it, cleaned. */
  lemma TestNameFound(found: seq<seq<Match>>, i: nat)
    requires i < |found| && found[i] != [] && FirstGroup(found[i][|found[i]| - 1]) != ""
    ensures TestNameFrom(found, i) == Some(CleanTestName(FirstGroup(found[i][|found[i]| - 1])))
  {
  }

  /** A pattern without matches passes the lookup on to the next one. */
  lemma TestNameSkip(found: seq<seq<Match>>, k: nat)
    requires k < |found| && found[k] == []
    ensures TestNameFrom(found, k) == TestNameFrom(found, k + 1)
  {
  }

  /** The window never exceeds 10000 characters and ends right before the marker. */
  lemma WindowBeforeMarker(log: string)
    requires MarkerPos(log, 0) > 0
    ensures var pos := MarkerPos(log, 0);
      |Window(log, pos)| == (if pos >= 10000 then 10000 else pos)
      && Window(log, pos) == log[pos - |Window(log, pos)|..pos]
  {
  }

  /** Every summary ends by naming the test, or `unknown test` when none was found. */
  lemma MessageEndsWithTest(d: Details)
    ensures var tail := " in " + OrElse(d.testName, "unknown test");
      |tail| < |Message(d)| && Message(d)[|Message(d)| - |tail|..] == tail
  {
    var test := OrElse(d.testName, "unknown test");
    var tail := " in " + test;
    var head: string;
    if d.errorType == Some("memory-leak") {
      head := OrElse(d.leakType, "Memory") + " leak detected (" + OrElse(d.leakSize, "unknown size") + ")";
    } else {
      var kind := if Truthy(d.errorType) then d.errorType.value else OrElse(d.leakType, "Unknown issue");
      head := if Truthy(d.leakSize) then kind + " (" + d.leakSize.value + ")" else kind;
    }
    assert head != [];
    assert Message(d) == head + tail;
  }

  /** A page whose log has a `Direct leak of N byte(s) in M object(s)` line, and no summary
      of another kind, is reported as a memory leak whose summary starts
      `Direct leak detected (N bytes in M object(s))` (or `Indirect …`). */
  lemma LeakMessage(page: LogPage, m: Match)
    requires page.html != ""
    requires Search(Leak, LogText(page)) == Some(m)
    requires var log := LogText(page);
      Search(SanSummary, log).None? || Contains(Lower(Strip(Search(SanSummary, log).value.groups[0])), "leak")
    ensures |m.groups| == 3
    ensures AsanDetailsOf(page).Some? && AsanDetailsOf(page).value.errorType == Some("memory-leak")
      && AsanDetailsOf(page).value.leakSummary.Some?
    ensures var size := m.groups[1] + " bytes in " + m.groups[2] + " object(s)";
      m.groups[0] + " leak detected (" + size + ")" <= AsanDetailsOf(page).value.leakSummary.value
  {
    var log := LogText(page);
    var d := TestNamePass(log, ErrorPass(log, SummaryPass(log, LeakPass(log, Empty))));
    LeakDetails(log, m);
    LeakHead(d, m.groups[0], m.groups[1] + " bytes in " + m.groups[2] + " object(s)");
    assert AsanDetailsOf(page) == Some(d.(leakSummary := Some(Message(d))));
  }

  /** After all passes, a leak line (with no summary of another kind) leaves a memory-leak
      issue whose kind and size come from that line. */
  lemma LeakDetails(log: string, m: Match)
    requires Search(Leak, log) == Some(m)
    requires Search(SanSummary, log).None? || Contains(Lower(Strip(Search(SanSummary, log).value.groups[0])), "leak")
    ensures |m.groups| == 3
    ensures var d := TestNamePass(log, ErrorPass(log, SummaryPass(log, LeakPass(log, Empty))));
      d.hasIssue && d.errorType == Some("memory-leak") && d.leakType == Some(m.groups[0]) && m.groups[0] != ""
      && d.leakSize == Some(m.groups[1] + " bytes in " + m.groups[2] + " object(s)")
  {
    LeakLineWins(log, m);
    LeakPassFound(log, Empty, m);
    var d1 := LeakPass(log, Empty);
    var d3 := ErrorPass(log, SummaryPass(log, d1));
    LeakPassIssue(log, Empty);
    SummaryPassIssue(log, d1);
    ErrorPassIssue(log, SummaryPass(log, d1));
    TestNamePassKeeps(log, d3);
  }

  /** A memory-leak summary starts with the leak kind and its size. */
  lemma LeakHead(d: Details, kind: string, size: string)
    requires d.errorType == Some("memory-leak") && d.leakType == Some(kind) && d.leakSize == Some(size)
    requires kind != "" && size != ""
    ensures kind + " leak detected (" + size + ")" <= Message(d)
  {
    assert Message(d) == kind + " leak detected (" + size + ")" + (" in " + OrElse(d.testName, "unknown test"));
  }

  /** The test-name pass changes nothing but the test name. */
  lemma TestNamePassKeeps(log: string, d: Details)
    ensures TestNamePass(log, d) == d.(testName := TestNamePass(log, d).testName)
  {
  }

  /** The cleaning rule on a name with a `.py` or `.pyc` suffix: the suffix goes, and `test_`
      is put in front unless the rest already starts with `test`. */
  lemma CleanTestNameRule(base: string)
    ensures CleanTestName(base + ".pyc") == (if "test" <= base then base else "test_" + base)
    ensures CleanTestName(base + ".py") == (if "test" <= base then base else "test_" + base)
  {
    DropPyc(base);
    DropPy(base);
  }

  lemma DropPyc(base: string)
    ensures DropPySuffix(base + ".pyc") == base
  {
    var c := base + ".pyc";
    assert c[|c| - 4..] == ".pyc" && c[..|c| - 4] == base;
  }

  lemma DropPy(base: string)
    ensures DropPySuffix(base + ".py") == base
  {
    var p := base + ".py";
    assert p[|p| - 1] == 'y';
    assert !(|p| >= 4 && p[|p| - 4..] == ".pyc") by {
      if |p| >= 4 { assert p[|p| - 4..][3] == p[|p| - 1]; }
    }
    assert p[|p| - 3..] == ".py" && p[..|p| - 3] == base;
  }

  /** A cleaned name loses a `.py`/`.pyc` suffix and is left alone when it already starts
      with "test" and has no such suffix. */
  lemma CleanTestNameExamples()
    ensures CleanTestName("bgp_basic.py") == "test_bgp_basic"
    ensures CleanTestName("test_ospf.pyc") == "test_ospf"
    ensures CleanTestName("testbed") == "testbed"
  {
    assert "bgp_basic.py"[9..] == ".py" && "bgp_basic.py"[..9] == "bgp_basic";
    assert "bgp_basic"[0] != 't';
    assert "test_ospf.pyc"[9..] == ".pyc" && "test_ospf.pyc"[..9] == "test_ospf";
    assert "test_ospf"[..4] == "test";
    assert "testbed"[3..] != ".pyc" && "testbed"[4..] != ".py" && "testbed"[..4] == "test";
  }
}
