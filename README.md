# track_mainstream_frr, modelled in Dafny

These scripts follow FRR's Bamboo CI. Each build has an HTML summary page.

- check_ci_build.py classifies one build page. It finds the status, the counters, the new and existing test failures, the fixed tests and the failed jobs. It also reads the AddressSanitizer (ASAN) report of a job log.
- analyze_ci.py walks the builds of the last days and aggregates them into counters.
- analyze_ci_week.py does the same with a window relative to "now" and fewer counters.
- download_test_logs.py derives plan, job and build keys from Bamboo keys and URLs.

This project models the logic of these four scripts. The network, the HTML library and the clock are replaced by inputs.

Modules, one per component:

- `Wrappers`: `Option`.
- `Text`: the Python `str` operations the scripts use, as functions on `seq<char>`. These cover `find`, `replace`, `split`, `strip`, `lower` and `join`.
- `Patterns`: each regular expression of the scripts, as a matcher at a position. It also models `re.search` and `re.finditer` over those matchers.
- `TestNames`: `extract_test_case_name`, `extract_test_suite_and_case`, and the `suite.case` display form.
- `AsanDetails`: `parse_asan_details`, as a method over the log text. The layered passes are specified by functions.
- `Report`: the result record of one build page.
- `BuildStatus`: `parse_build_status`, as methods over an already-extracted `Document` record, specified by the function `BuildReportOf`. The record holds the h1 text, page text, text nodes, tables of rows of cells and job items.
- `JobNames`: `normalize_job_name` and `jobs_match`. analyze_ci_week.py carries an identical copy of both (analyze_ci_week.py:92-137), so one definition serves both scripts.
- `Aggregate`: `analyze_builds` of analyze_ci.py, as nested loops over builds, failures and jobs. The loops update a statistics record of counter maps.
- `WeekAggregate`: the `analyze_builds` of analyze_ci_week.py. It is proved to compute exactly the weekly projection of analyze_ci.py's statistics.
- `Walker`: both `get_builds_from_week` walkers. The fetch-and-parse of a build number and the date parser are oracle functions.
- `Signatures`: the grouping half of `print_detailed_failures`. It covers the sorted failure signature of each non-successful build, the groups of builds by signature, and the groups ordered by size. The copy at analyze_ci_week.py:305-348 is the same code.
- `BambooKeys`: `extract_plan_key`, `extract_job_short_name`, the job-directory name sanitiser, the first-occurrence dedupe of jobs, and the chunk-mode key derivation.

Python's `0.66` threshold in `jobs_match` is written in integers as `100 * shared >= 66 * min`.

## Model

Model functions that carry no contract of their own (`ExtractPlanKey`, `JobShortName`, `SafeJobName`, `ChunkBuildKey`, `Unique`, `Message`, `AsanDetailsOf`, `BuildReportOf`, `Normalized`, `Walk` and the like) are described through the rows of the lemmas and methods that state their properties.

| member | source | states |
|---|---|---|
| TestNames.ExtractTestCaseName | check_ci_build.py:15-27 | the non-empty, `]`-free text inside the leftmost bracket pair; the whole string when there is no bracket pair |
| TestNames.CaseNameShape | check_ci_build.py:15-27 | `p[c]q` with no `[` in `p` and a non-empty `c` without `]` gives `c` |
| TestNames.RfcCaseNameExample | check_ci_build.py:18-20 | the documented example `RFC-Compliance-tests [ANVL-LDP-9.5]` gives `ANVL-LDP-9.5` |
| TestNames.IsisCaseNameExample | check_ci_build.py:18-20 | the documented example `test_isis_srv6_topo1 [test_rib_ipv6_step3]` gives `test_rib_ipv6_step3` |
| TestNames.SuiteAndCase | check_ci_build.py:30-40 | without a match the result is `(None, stripped input)`; with one, the suite is the stripped newline-free text before the white space preceding a bracket pair at position 1 or later, and the case is the stripped bracketed text |
| TestNames.SuiteAndCaseShape | check_ci_build.py:30-40 | `suite ws [case] rest`, with a suite free of `[` and newlines that does not end in white space, splits into the stripped suite and case |
| TestNames.SuiteAndCaseAt | check_ci_build.py:30-40 | when the first bracket pair from position 1 is at `m`, the white space before it starts at `k`, and no newline precedes `k`, the split is exactly `(strip(s[..k]), strip(case at m))`: a match forces a suite, taken up to the first `[` |
| TestNames.SuiteAndCaseFound | check_ci_build.py:30-40 | a split that names a suite takes its case from the first bracket pair at position 1 or later |
| TestNames.SuiteAndCaseSimple | check_ci_build.py:30-40 | `Suite [Case]` with bracket-free, already-stripped parts splits into exactly `(Suite, Case)` |
| TestNames.NoBracketNoSuite | check_ci_build.py:30-40 | a string without `[` has no suite, and its case is the stripped string |
| TestNames.SplitAgreesWithCaseName | check_ci_build.py:15-40 | for a string not opening with `[`, a split that finds a suite has as case the stripped name `extract_test_case_name` gives |
| TestNames.FormatCase | check_ci_build.py:485-489 | `suite.case` exactly when both parts are non-empty, else the case alone |
| TestNames.BgpSuiteExample | check_ci_build.py:30-40 | `BGP Suite [test_peer_down]` splits into `BGP Suite` and `test_peer_down` |
| TestNames.BgpFormatExample | check_ci_build.py:485-489 | and is displayed as `BGP Suite.test_peer_down` |
| Patterns.RunEnd | check_ci_build.py:259 | a greedy character-class run: every character up to the end is in the class and the next one is not |
| Patterns.LastPy | check_ci_build.py:189 | finds the last `.py` (any case) in a range, or proves there is none |
| Patterns.MatchAt | check_ci_build.py:133-191 | any match of a script pattern starts where it is tried, ends inside the text and has a non-empty first group |
| Patterns.Search | check_ci_build.py:133 | `re.search` gives the leftmost position where the pattern matches, and None exactly when no position matches |
| Patterns.FindAll | check_ci_build.py:208 | `re.finditer`: every element is a match at its start, and the list is empty exactly when the search fails |
| Patterns.FirstSome | check_ci_build.py:208 | the first successful attempt at or after a position, or the end when none succeeds |
| AsanDetails.LogText | check_ci_build.py:87-104 | the text of the log `pre` element; without one, the first `pre` text longer than 1000 characters; when that gives nothing, the whole page text |
| AsanDetails.ParseAsanDetails | check_ci_build.py:79-238 | the loop-based parser returns exactly the value of the layered-pass specification `AsanDetailsOf` |
| AsanDetails.NoneExactlyWithoutReport | check_ci_build.py:81-238 | the result is None exactly when the page is empty or no leak, `SUMMARY:` or `ERROR:` pattern matches |
| AsanDetails.LeakPassFound | check_ci_build.py:133-142 | a leak line sets the issue flag, error type `memory-leak`, the leak type and `N bytes in M object(s)` |
| AsanDetails.LeakLineWins | check_ci_build.py:133-171 | with a leak line and no summary other than a leak summary, the final error type is `memory-leak` and the leak type is the line's |
| AsanDetails.SummaryPassKeepsLeak | check_ci_build.py:145-171 | once an error type and a leak size are set, a leak summary (or none) changes nothing: it fills only unset fields |
| AsanDetails.NonLeakSummaryOverrides | check_ci_build.py:145-171 | a summary of any other kind overwrites the error type with its kind and keeps the leak type and size |
| AsanDetails.SummarySetsType | check_ci_build.py:145-171 | a summary line always leaves an error type set |
| AsanDetails.ErrorPassKeeps | check_ci_build.py:174-182 | the `ERROR:` line does not replace an error type that is already set |
| AsanDetails.ErrorLineAlone | check_ci_build.py:174-182 | with neither a leak nor a summary, the `ERROR:` line decides the error type |
| AsanDetails.SummaryShadowsErrorLine | check_ci_build.py:145-182 | with a summary present, the `ERROR:` line changes nothing |
| AsanDetails.LeakPassIssue | check_ci_build.py:133-142 | after the leak pass an issue is flagged iff one was flagged before or the leak pattern matches |
| AsanDetails.SummaryPassIssue | check_ci_build.py:145-171 | the summary pass flags an issue iff one was flagged before or its pattern matches |
| AsanDetails.ErrorPassIssue | check_ci_build.py:174-182 | the error pass keeps a flagged issue; on an unflagged record without error type it flags one iff its pattern matches |
| AsanDetails.TestNamePassIssue | check_ci_build.py:195-220 | the test-name pass never changes the issue flag |
| AsanDetails.FindMarker | check_ci_build.py:197-202 | the marker loop returns the position of the first marker, in the order `leak of`, `ERROR:`, `SUMMARY:`, found at a position above 0 |
| AsanDetails.WindowBeforeMarker | check_ci_build.py:206 | the search window is at most 10000 characters and ends at the marker |
| AsanDetails.FindTestName | check_ci_build.py:207-220 | the pattern loop with `break` returns the specification's test name |
| AsanDetails.TestNameFromFirstMatchingPattern | check_ci_build.py:186-220 | patterns are tried in list order; the first one with a match in the window wins, and its last match gives the cleaned name |
| AsanDetails.LastGroupNonEmpty | check_ci_build.py:208-214 | every match has a non-empty group, so the empty default is never used |
| AsanDetails.TestNameFound | check_ci_build.py:207-220 | a pattern whose last match has a non-empty group gives that group, cleaned |
| AsanDetails.TestNameSkip | check_ci_build.py:207-220 | a pattern without matches passes the search on to the next pattern |
| AsanDetails.DropPySuffix | check_ci_build.py:216 | a final `.pyc` is cut, else a final `.py`, else the name is unchanged |
| AsanDetails.CleanTestName | check_ci_build.py:216-218 | the result always starts with `test`; it is the suffix-stripped name when that starts with `test`, else `test_` prepended to it |
| AsanDetails.DropPyc | check_ci_build.py:216 | `base.pyc` loses exactly its `.pyc` |
| AsanDetails.DropPy | check_ci_build.py:216 | `base.py` loses exactly its `.py` |
| AsanDetails.CleanTestNameRule | check_ci_build.py:216-218 | for every base, `base.py` and `base.pyc` both clean to `base` when it starts with `test`, else to `test_base` |
| AsanDetails.CleanTestNameExamples | check_ci_build.py:216-218 | three worked examples: `bgp_basic.py` gives `test_bgp_basic`, `test_ospf.pyc` gives `test_ospf`, `testbed` stays `testbed` |
| AsanDetails.MessageNonEmpty | check_ci_build.py:223-236 | a parsed report always carries a non-empty leak summary |
| AsanDetails.MessageEndsWithTest | check_ci_build.py:223-236 | every summary ends with ` in ` and the test name, or ` in unknown test` when there is none |
| AsanDetails.LeakDetails | check_ci_build.py:133-171 | after every pass, a leak line, with no summary of another kind, leaves a memory-leak issue whose leak type (non-empty) and `N bytes in M object(s)` size come from that line |
| AsanDetails.LeakHead | check_ci_build.py:226-230 | a memory-leak summary with a known kind and size starts `<kind> leak detected (<size>)` |
| AsanDetails.LeakMessage | check_ci_build.py:133-238 | for a non-empty page whose log has a `Direct/Indirect leak of N byte(s) in M object` line and no summary of another kind, the parse result is a memory-leak report whose summary starts `Direct leak detected (N bytes in M object(s))` (or `Indirect …`) |
| BuildStatus.WordStatus | check_ci_build.py:277-280 | FAILED iff the text has the whole word `failed`; SUCCESS iff it does not but has `successful` or `success`; else Unknown |
| BuildStatus.FirstBuildLine | check_ci_build.py:284-288 | the first text node matching `Build.*#N.*(failed\|successful)`, or None when no node matches |
| BuildStatus.BuildNumber | check_ci_build.py:259-271 | a build number always has the form `#...` |
| BuildStatus.HeadingDecides | check_ci_build.py:274-280 | an h1 naming failed or success decides the final status, and `failed` wins over `success` |
| BuildStatus.DecidedStatusSticks | check_ci_build.py:263-320 | a status decided by any heuristic survives everything after it, the reconciliation included |
| BuildStatus.CounterMakesFailed | check_ci_build.py:302-312 | with no status from the headings, a positive new or existing failure counter gives FAILED |
| BuildStatus.ParseHeading | check_ci_build.py:259-320 | computes the build number and the status of the heuristic chain |
| BuildStatus.ReconcileUnknown | check_ci_build.py:703-719 | the status stays Unknown iff it was Unknown, all three lists are empty and the total is 0 |
| BuildStatus.EvidenceAfterParsing | check_ci_build.py:703-719 | with no status from the heuristics, any failure gives FAILED, and otherwise a positive total gives SUCCESS |
| BuildStatus.ParseBuildStatus | check_ci_build.py:241-721 | the method computes `BuildReportOf`; an Unknown result has empty failure, fixed and job lists and total 0 |
| BuildStatus.DashTailEnd | check_ci_build.py:335 | after a dash, `\s*.*$` fails iff a newline that is not the final character follows the white space run; otherwise it ends at the end of the text or before its final newline |
| BuildStatus.FirstCut | check_ci_build.py:335 | the leftmost en dash whose tail can match; every earlier dash cannot, and None means no dash can |
| BuildStatus.TrimAgo | check_ci_build.py:335 | with no matching dash the text is unchanged; otherwise it is cut before the whole white space run preceding the first matching dash, keeping only a final newline, so the cut text never ends in white space |
| BuildStatus.TrimAgoTail | check_ci_build.py:335 | `date – tail` with a one-line tail gives back `date` |
| BuildStatus.TrimAgoKeepsMultiline | check_ci_build.py:335 | a one-dash text whose tail runs over another line is left unchanged |
| BuildStatus.TrimAgoExample | check_ci_build.py:333-335 | the documented `17 Oct 2025, 1:43:42 PM – 18 hours ago` example |
| BuildStatus.NewTestRef | check_ci_build.py:437-456 | both spans give `suite [case]`; otherwise the name comes from the link or the cell text and is split |
| BuildStatus.SectionTestRef | check_ci_build.py:558-576 | in a section row, a link alone is the case and there is no suite; otherwise the row is read as a new-failure row |
| BuildStatus.Excerpt | check_ci_build.py:491-512 | the excerpt is the next row's text iff that row has at most two cells and one of Error/Failure/Assert/RFC/MUST/Exception, else empty |
| BuildStatus.NewFailureRule | check_ci_build.py:418-520 | a row is recorded iff it has at least two cells, a status containing `fail` or `collapse` and a test name that is not a header word; the test is from cell 2 or 1 and the job from cell 3 or empty |
| BuildStatus.RowFailuresNamed | check_ci_build.py:461-476 | every recorded new failure names a non-empty test that is not a header word |
| BuildStatus.CollectRowFailures | check_ci_build.py:418-522 | the row loop of one table collects the failures of its data rows, in order |
| BuildStatus.AddRowFailure | check_ci_build.py:418-522 | one iteration appends that row's failure, if it has one |
| BuildStatus.CollectTable | check_ci_build.py:405-416 | only tables whose header mentions both status and test are read |
| BuildStatus.CollectNewFailures | check_ci_build.py:405-522 | the table loop collects the failures of every failure table, in order |
| BuildStatus.CollectSection | check_ci_build.py:526-626 | the fixed-tests section yields only fixed tests and any other section only existing failures, row by row |
| BuildStatus.ExistingRowJob | check_ci_build.py:593-626 | an existing failure takes its job from `cells[4]` in rows of six or more cells and from `cells[3]` otherwise (empty when the row is too short), and carries no error text |
| BuildStatus.FixedRowRule | check_ci_build.py:579-617 | a fixed-test row is kept iff it names a test and its status says success or does not ask to expand |
| BuildStatus.FirstNamed | check_ci_build.py:653 | the first page ASAN error that names a test, or None when none does |
| BuildStatus.AsanJob | check_ci_build.py:649-689 | a failed ASAN job always gets a non-empty reason |
| BuildStatus.JobEntry | check_ci_build.py:629-691 | an entry exists iff the item is Failed or Unknown, and it keeps the item's title and key |
| BuildStatus.JobReasons | check_ci_build.py:640-691 | Unknown items get the hung reason iff the page mentions a hung build, else `Unknown status`; non-ASAN Failed items get `Job failed` |
| BuildStatus.AsanJobFromPage | check_ci_build.py:655-672 | a named page ASAN error gives details of type `memory-leak` (when it has a leak count) or `asan-error`, with its test name, path, leak count and the reason; the reason begins `Memory leak detected (N leak(s))` or `AddressSanitizer error` and ends with ` in ` and the test name |
| BuildStatus.AsanJobFromLogs | check_ci_build.py:674-689 | otherwise the page's own ASAN summary is used, then the fetched job log's, then the generic ASAN reason |
| BuildStatus.CollectFailedJobs | check_ci_build.py:629-701 | the job loop reports every Failed or Unknown item, in order |
| JobNames.NormalizeJobName | analyze_ci.py:129-153 | the filler-word loop computes the normalised name, which has no leading, trailing or doubled white space |
| JobNames.NormalizedCollapsed | analyze_ci.py:129-153 | a normalised name is collapsed |
| JobNames.NormalizedLowerCase | analyze_ci.py:129-153 | a normalised name has no upper-case letter |
| JobNames.WordSet | analyze_ci.py:174-175 | the word set has exactly the words of the split |
| JobNames.JobsMatch | analyze_ci.py:156-184 | containment either way matches; otherwise both significant word sets must be non-empty and share at least 66% of the smaller |
| JobNames.JobsMatchReflexive | analyze_ci.py:156-184 | every name matches itself |
| JobNames.JobsMatchEmpty | analyze_ci.py:156-184 | the empty name matches everything, on either side |
| JobNames.JobsMatchSymmetric | analyze_ci.py:156-184 | the order of the arguments does not matter |
| JobNames.SameWordsMatch | analyze_ci.py:174-184 | names with the same non-empty significant words match |
| JobNames.DisjointWordsMatch | analyze_ci.py:156-184 | names with disjoint significant words match iff one contains the other |
| Aggregate.AnalyzeBuilds | analyze_ci.py:187-293 | the nested counting loops compute `Analyze` |
| Aggregate.AnalyzeBuild | analyze_ci.py:197-291 | one build's counters are updated in the script's order |
| Aggregate.CountNewFailures | analyze_ci.py:220-245 | the new-failure loop updates the test, combined and error-type counters and tracks the jobs |
| Aggregate.CountExistingFailures | analyze_ci.py:247-261 | the existing-failure loop updates the test and combined counters and tracks the jobs |
| Aggregate.CountFailedJobs | analyze_ci.py:264-291 | the job loop counts hung jobs and the unmatched failed jobs |
| Aggregate.IsTracked | analyze_ci.py:277-281 | the matching loop is true iff some tracked job name matches |
| Aggregate.ErrorCategory | analyze_ci.py:236-245 | None iff the excerpt is empty; each category holds iff its own test passes and every earlier one fails: AssertionError, then RFC or MUST, then timeout or hung in any case, then Other Error for any other non-empty excerpt |
| Aggregate.TotalInc | analyze_ci.py:220-291 | an increment adds exactly one to the total of a counter map |
| Aggregate.BuildCounts | analyze_ci.py:192-214 | `successful + failed == total == len(builds)`, and the SUCCESS and FAILED lists hold exactly the matching build numbers, with Unknown listed as FAILED |
| Aggregate.TestEntriesConsistent | analyze_ci.py:219-261 | each test's count is the sum of its per-job counts and at least its number of builds |
| Aggregate.HungNeverSuppressed | analyze_ci.py:264-272 | every Unknown job item of every build is counted as hung |
| Aggregate.CombinedCounts | analyze_ci.py:219-291 | the combined entries are one per new or existing failure plus one per unmatched Failed job item |
| Aggregate.ErrorTypeCounts | analyze_ci.py:236-245 | each new failure with a non-empty excerpt is counted once, under one of the four categories |
| Aggregate.JobSuppression | analyze_ci.py:264-291 | a Failed job adds a `(Job Failed)` combined entry iff it is not matched; an Unknown job is always counted as hung and adds no combined entry |
| Aggregate.JobWithTestsNotCounted | analyze_ci.py:264-291 | a Failed job whose own name is a test job of the build adds nothing |
| WeekAggregate.AnalyzeWeekBuilds | analyze_ci_week.py:140-222 | the weekly loops compute `WeekAnalyze` |
| WeekAggregate.CountWeekNewFailures | analyze_ci_week.py:168-188 | the new-failure loop of the weekly script |
| WeekAggregate.CountWeekExistingFailures | analyze_ci_week.py:190-199 | the existing-failure loop of the weekly script |
| WeekAggregate.CountWeekFailedJobs | analyze_ci_week.py:202-220 | the job loop of the weekly script |
| WeekAggregate.WeekAgrees | analyze_ci_week.py:140-222 | the weekly statistics are exactly the corresponding counters of analyze_ci.py's statistics |
| WeekAggregate.WeekCounts | analyze_ci_week.py:157-220 | the build, combined, hung and error-type counts carry over to the weekly script |
| Walker.WalkLoop | analyze_ci.py:85-123 | the bounded downward loop with its `break` and `continue` computes `Walk` |
| Walker.GetBuildsFromWeek | analyze_ci.py:37-126 | the day walker computes `DayWindow` from the reference build's date, returning None where `reference_date - timedelta(days=days)` raises `OverflowError` |
| Walker.GetBuildsFromWeekNow | analyze_ci_week.py:32-89 | the week walker computes `WeekWindow`, with the cutoff at `now - days` |
| Walker.WalkFacts | analyze_ci.py:85-123 | at most `cap` builds, numbered at least 1 and strictly descending; each is the fetched page and none is dated before the cutoff |
| Walker.WalkStartsAt | analyze_ci.py:85-123 | a fetchable, recent build at the current number is the first one collected |
| Walker.WalkSkipsOnlyUnfetched | analyze_ci.py:91-95 | every number the walk passes over was either unfetched or collected |
| Walker.DayWindowNeedsReference | analyze_ci.py:49-75 | an unfetched or undated reference build gives no builds |
| Walker.DayWindowOverflow | analyze_ci.py:77-78 | the walker raises iff the reference build is fetched and dated and the cutoff leaves `timedelta`'s ±999999999 days or `datetime`'s ordinals 1..3652059; for a reference date in range that is exactly `days > refDay - 1` or `days < refDay - 3652059` |
| Walker.DayWindowStartsAtReference | analyze_ci.py:49-123 | with `days >= 0` and a cutoff inside `datetime`'s range, the reference build is the first one collected |
| Walker.DayWindowFacts | analyze_ci.py:78-123 | when no overflow is raised: at most 200 builds, none numbered above the reference nor by 200 or more below it, strictly descending |
| Walker.WeekWindowFacts | analyze_ci_week.py:39-86 | at most 100 builds, strictly descending, none dated before `now - days` |
| Signatures.Sort | analyze_ci.py:420 | the result is sorted and a permutation of the input |
| Signatures.SortedUnique | analyze_ci.py:420 | two sorted lists with the same elements are equal |
| Signatures.SortEqualIff | analyze_ci.py:420 | two item lists sort to the same tuple iff they have the same elements with multiplicity |
| Signatures.SignatureOf | analyze_ci.py:394-420 | the signature loop computes the sorted `Signature` |
| Signatures.CombinedItems | analyze_ci.py:399-409 | a `combined` item is present iff some new or existing failure displays as `job - case` |
| Signatures.HungItems | analyze_ci.py:414-415 | a `hung` item is present iff an Unknown job has that name |
| Signatures.JobOnlyItems | analyze_ci.py:411-417 | a `job_only` item is present iff a Failed job has that name and no new or existing failure of the build names that exact job |
| Signatures.SameSignatureIff | analyze_ci.py:394-420 | two builds have the same signature iff their items agree as multisets |
| Signatures.FindGroup | analyze_ci.py:422 | returns the index of the group with the signature, or None when no group has it |
| Signatures.GroupBuilds | analyze_ci.py:386-422 | the grouping loop computes `Grouped` |
| Signatures.GroupsAreExact | analyze_ci.py:386-422 | the signatures are distinct; each group lists exactly the non-SUCCESS builds with its signature, in build order; every non-SUCCESS build is in a group |
| Signatures.GroupSizes | analyze_ci.py:386-422 | the group sizes add up to the number of non-SUCCESS builds |
| Signatures.SortBySize | analyze_ci.py:430-432 | ordering by size is a permutation of the groups |
| Signatures.SortBySizeFacts | analyze_ci.py:430-432 | sizes are descending, and groups of equal size keep their order, as Python's stable sort does |
| BambooKeys.WithoutLast | download_test_logs.py:123 | `rsplit('-', 1)[0]`: the key up to its last dash, or the whole key without one |
| BambooKeys.PlanKeyShape | download_test_logs.py:140-158 | a key without a dash is unchanged; otherwise the plan key is a strictly shorter prefix of the key with at most one dash |
| BambooKeys.PlanKeyOfBuildKey | download_test_logs.py:140-158 | `a-b-n` gives `a-b` |
| BambooKeys.PlanKeyOfJobKey | download_test_logs.py:140-158 | `a-b-j-n` gives `a-b` |
| BambooKeys.PlanKeyExampleBuild | download_test_logs.py:143 | the documented `FRR-PULLREQ3-12091` example gives `FRR-PULLREQ3` |
| BambooKeys.PlanKeyExampleJob | download_test_logs.py:144 | the documented `FRR-PULLREQ3-TOPO0D12ARM8-12091` example gives `FRR-PULLREQ3` |
| BambooKeys.ExtractJobShortName | download_test_logs.py:117-137 | the downward loop with early return computes `JobShortName` |
| BambooKeys.ShortSuffixChoice | download_test_logs.py:132-136 | the downward search returns the shortest suffix longer than 4 characters that starts at segment 1 or later, else the last segment |
| BambooKeys.JobShortNameChoice | download_test_logs.py:129-136 | with three or more segments before the build number: the shortest suffix longer than 4 characters that leaves segment 0 out, else the last segment |
| BambooKeys.JobShortNameOf | download_test_logs.py:117-137 | `a-b-j-n` with a dash-free `j` longer than 4 characters gives `j` |
| BambooKeys.JobShortNameExample | download_test_logs.py:120 | the documented example gives `TOPO0D12ARM8` |
| BambooKeys.SafeJobNameChars | download_test_logs.py:214-215 | the directory name has only word characters, with no white space and no `-` |
| BambooKeys.WordNameUnchanged | download_test_logs.py:214-215 | a name made of word characters is unchanged |
| BambooKeys.SafeJobNameIdempotent | download_test_logs.py:214-215 | sanitising twice is sanitising once |
| BambooKeys.DedupeJobs | download_test_logs.py:326-332 | the dedupe loop computes `Unique` |
| BambooKeys.UniqueKeys | download_test_logs.py:326-332 | the output keys are distinct, every input key appears, and every output job is an input job |
| BambooKeys.UniqueIsFirsts | download_test_logs.py:326-332 | the output is exactly the first job of each key, in input order |
| BambooKeys.ChunkJobKey | download_test_logs.py:393-406 | None iff the URL has no `/browse/` (the script exits there) |
| BambooKeys.ChunkJobKeyOf | download_test_logs.py:401-406 | `.../browse/KEY/artifact` gives `KEY` |
| BambooKeys.PlanAndNumber | download_test_logs.py:412-419 | the first two segments and the last, joined by dashes |
| BambooKeys.ChunkBuildKeyOf | download_test_logs.py:409-419 | `a-b-j-n` gives `a-b-n` |
| BambooKeys.ChunkBuildKeyOfBuildKey | download_test_logs.py:409-419 | a build key `a-b-n` is kept |
| BambooKeys.ChunkExample | download_test_logs.py:412 | the documented `FRR-PULLREQ3-ASAN6D12AMD64-12091` example gives `FRR-PULLREQ3-12091` |
| BambooKeys.ChunkUrlExample | download_test_logs.py:382 | the documented chunk URL gives its job key |

## Left out

- run_topotests_loop.py is not part of this model. It supervises processes, with subprocesses, kill timeouts, sleeps and log files.
- Network access is left out: `download_page`, `download_page_safe`, `fetch_job_log` (check_ci_build.py:54-76), `download_file`, `download_artifacts_recursive`, `download_job_artifacts` and the fetching half of `parse_build_page`. The walkers take fetch-and-parse as a function from build numbers to optional reports. A job item carries its fetched log as an optional input.
- The HTML document: BeautifulSoup's `find`, `find_all`, sibling and parent navigation are replaced by the `Document` record. It holds tables of rows of cells with optional suite/name spans, and job items with class, title and key. Which table is the "Fixed tests" section and which is the existing-failures section is an input.
- `parse_build_page`: only its dedupe loop (download_test_logs.py:326-332) is modelled. The discovery of job links in the page is left out.
- The ASAN scan of the build page's text (check_ci_build.py:356-401) is taken as an input list of page ASAN errors. It re-locates regex matches with `find` and uses fixed 500-character windows.
- The log-link scan at check_ci_build.py:106-120 is left out. Nothing it computes is used.
- Dates: `datetime.strptime` becomes an oracle from a time text to an optional day or microsecond ordinal, and `datetime.now` becomes a parameter.
- analyze_ci_week.py:39 computes `datetime.now() - timedelta(days=days)` too. Its only caller passes `days=7`, so its `OverflowError` cannot happen, and `Walker.GetBuildsFromWeekNow` does not model it.
- Printing is left out: `print_results`, `print_statistics`, the printing half of `print_detailed_failures` including its `[:10]` cut, the float percentages and averages, every progress and warning print (the walkers' `Processed …`/`Warning: …` lines, check_ci_build.py:679 `Fetching AddressSanitizer details …`), and every `main`'s command-line parsing.
- The chunk URL's `startswith('http')` check (download_test_logs.py:389-391) is left out, as is the unreachable `len(parts) < 2` exit (399-401).
- The `url` field of a report is carried through and never inspected.
- The `"Unknown Job"` default of `failure.get("job", …)` is left out. Every modelled failure has a job field.
- analyze_ci.py fetches the reference build twice: once to read its date, and again inside the loop. The model also fetches twice, and assumes the fetch function returns the same page both times.
- AsanDetails.DropPySuffix: Python's `$` can also match before a final newline; that case is not modelled, because the names it receives come from `[a-zA-Z0-9_.-]+` groups and hold no newline.
- Character classes: `lower()`, `re.IGNORECASE`, `\w`, `\d` and `\b` are modelled on ASCII. `str.isspace` and `\s` use Python's white-space set. Non-ASCII case folding, Unicode letters and Unicode digits are not modelled.
- Each regular expression is modelled as a matcher for that expression alone. There is no general regex engine.
- JobNames.NormalizeJobName: the two documented examples, which both normalise to `ldp debian 12`, are not proved. Evaluating the replace chain on literal strings exceeds the proof budget. The normalisation rules themselves are modelled and proved.
