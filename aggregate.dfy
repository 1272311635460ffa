/**
 * `analyze_builds` of analyze_ci.py and its reduced copy in analyze_ci_week.py: counters
 * over the collected builds, with job-level failures suppressed when a test failure of the
 * same build already names an equivalent job.
 */
module Aggregate {
  import opened Wrappers
  import opened Text
  import opened Report
  import opened JobNames

  // ----- Counters -----

  /** A `defaultdict(int)` lookup: 0 for a missing key. */
  function Get(m: map<string, nat>, k: string): nat {
    if k in m then m[k] else 0
  }

  /** `m[k] += 1` on a `defaultdict(int)`. */
  function Inc(m: map<string, nat>, k: string): map<string, nat> {
    m[k := Get(m, k) + 1]
  }

  /** The sum of the values of a counter. */
  ghost function Total(m: map<string, nat>): nat
    decreases |m|
  {
    if m == map[] then 0
    else
      var k :| k in m;
      m[k] + Total(m - {k})
  }

  /** `Total` does not depend on which key it takes first. */
  lemma {:induction false} TotalRemove(m: map<string, nat>, k: string)
    requires k in m
    ensures Total(m) == m[k] + Total(m - {k})
    decreases |m|
  {
    assert exists j :: j in m && Total(m) == m[j] + Total(m - {j});
    var j :| j in m && Total(m) == m[j] + Total(m - {j});
    if j != k {
      assert |m - {j}| == |m| - 1 && |m - {k}| == |m| - 1;
      TotalRemove(m - {j}, k);
      TotalRemove(m - {k}, j);
      assert m - {j} - {k} == m - {k} - {j};
    }
  }

  /** Every increment adds exactly one to the sum of a counter. */
  lemma TotalInc(m: map<string, nat>, k: string)
    ensures Total(Inc(m, k)) == Total(m) + 1
  {
    TotalRemove(Inc(m, k), k);
    if k in m {
      TotalRemove(m, k);
      assert Inc(m, k) - {k} == m - {k};
    } else {
      assert Inc(m, k) - {k} == m;
    }
  }

  // ----- The statistics -----

  /** The entry of one test name: how often it failed, per job, and in which builds. */
  datatype TestStat = TestStat(count: nat, jobs: map<string, nat>, builds: set<int>)

  const NoStat: TestStat := TestStat(0, map[], {})

  /** One failure of test `name` in job `job` of build `build`. */
  function AddTest(tests: map<string, TestStat>, name: string, job: string, build: int): map<string, TestStat> {
    var t := if name in tests then tests[name] else NoStat;
    tests[name := TestStat(t.count + 1, Inc(t.jobs, job), t.builds + {build})]
  }

  /** The `stats` dictionary of analyze_ci.py; `builds_by_status` is split into its two
      lists. */
  datatype Stats = Stats(
    total: nat,
    successful: nat,
    failed: nat,
    combined: map<string, nat>,
    tests: map<string, TestStat>,
    hung: map<string, nat>,
    errorTypes: map<string, nat>,
    successBuilds: seq<int>,
    failedBuilds: seq<int>)

  function Initial(total: nat): Stats {
    Stats(total, 0, 0, map[], map[], map[], map[], [], [])
  }

  const HungTest: string := "(Hung/Timeout)"
  const JobFailedTest: string := "(Job Failed)"

  /** The key `"job - case"` of `combined_failures`. */
  function CombinedKey(job: string, case_: string): string {
    job + " - " + case_
  }

  const ErrorCategories: set<string> := {"AssertionError", "RFC Compliance", "Timeout/Hung", "Other Error"}

  /** The error category of a new failure's excerpt, first hit winning. */
  function ErrorCategory(error: string): (r: Option<string>)
    ensures r.None? <==> error == []
    ensures r.Some? ==> r.value in ErrorCategories
    ensures r == Some("AssertionError") <==> Contains(error, "AssertionError")
    ensures r == Some("RFC Compliance") <==>
      !Contains(error, "AssertionError") && (Contains(error, "RFC") || Contains(error, "MUST"))
    ensures r == Some("Timeout/Hung") <==>
      !Contains(error, "AssertionError") && !Contains(error, "RFC") && !Contains(error, "MUST")
      && (Contains(Lower(error), "timeout") || Contains(Lower(error), "hung"))
    ensures r == Some("Other Error") <==>
      error != [] && !Contains(error, "AssertionError") && !Contains(error, "RFC") && !Contains(error, "MUST")
      && !Contains(Lower(error), "timeout") && !Contains(Lower(error), "hung")
  {
    if Contains(error, "AssertionError") then Some("AssertionError")
    else if Contains(error, "RFC") || Contains(error, "MUST") then Some("RFC Compliance")
    else if Contains(Lower(error), "timeout") || Contains(Lower(error), "hung") then Some("Timeout/Hung")
    else if error != [] then Some("Other Error")
    else None
  }

  /** The status counters for one build: every status but SUCCESS counts as failed. */
  function CountStatus(s: Stats, b: Build): Stats {
    if b.results.status == Success then
      s.(successful := s.successful + 1, successBuilds := s.successBuilds + [b.number])
    else
      s.(failed := s.failed + 1, failedBuilds := s.failedBuilds + [b.number])
  }

  /** A new or existing failure: its combined key and its test entry. */
  function AddFailure(s: Stats, f: Failure, build: int): Stats {
    s.(combined := Inc(s.combined, CombinedKey(f.job, f.case_)),
       tests := AddTest(s.tests, f.case_, f.job, build))
  }

  /** The error-type histogram entry of a new failure; an empty excerpt adds nothing. */
  function AddErrorType(s: Stats, f: Failure): Stats {
    match ErrorCategory(f.error)
    case None => s
    case Some(c) => s.(errorTypes := Inc(s.errorTypes, c))
  }

  /** The first `n` new failures of a build. */
  function AddNewFailures(s: Stats, fs: seq<Failure>, build: int, n: nat): Stats
    requires n <= |fs|
  {
    if n == 0 then s
    else AddErrorType(AddFailure(AddNewFailures(s, fs, build, n - 1), fs[n - 1], build), fs[n - 1])
  }

  /** The first `n` existing failures of a build. */
  function AddExistingFailures(s: Stats, fs: seq<Failure>, build: int, n: nat): Stats
    requires n <= |fs|
  {
    if n == 0 then s
    else AddFailure(AddExistingFailures(s, fs, build, n - 1), fs[n - 1], build)
  }

  /** The normalised job names of the first `n` failures. */
  function TrackedJobs(fs: seq<Failure>, n: nat): set<string>
    requires n <= |fs|
  {
    if n == 0 then {} else TrackedJobs(fs, n - 1) + {Normalized(fs[n - 1].job)}
  }

  /** Some job with test failures matches the normalised job name. */
  predicate AlreadyTracked(jobNormalized: string, tracked: set<string>) {
    exists t :: t in tracked && JobsMatch(jobNormalized, t)
  }

  /** For each failed-job item, whether a job with test failures matches its normalised
      name. */
  function Matched(jobs: seq<FailedJob>, tracked: set<string>): (flags: seq<bool>)
    ensures |flags| == |jobs|
  {
    seq(|jobs|, i requires 0 <= i < |jobs| => AlreadyTracked(Normalized(jobs[i].name), tracked))
  }

  /** A failed-job item: an Unknown (hung) job always counts; a Failed job counts only
      when no job with test failures matches it (`matched`). */
  function AddJob(s: Stats, job: FailedJob, matched: bool, build: int): Stats {
    if job.state == JobUnknown then
      s.(hung := Inc(s.hung, job.name), tests := AddTest(s.tests, HungTest, job.name, build))
    else if matched then s
    else
      s.(combined := Inc(s.combined, CombinedKey(job.name, JobFailedTest)),
         tests := AddTest(s.tests, JobFailedTest, job.name, build))
  }

  /** The first `n` failed-job items of a build. */
  function AddJobs(s: Stats, jobs: seq<FailedJob>, matched: seq<bool>, build: int, n: nat): Stats
    requires n <= |jobs| == |matched|
  {
    if n == 0 then s else AddJob(AddJobs(s, jobs, matched, build, n - 1), jobs[n - 1], matched[n - 1], build)
  }

  /** The normalised jobs of a build's new and existing failures. */
  function BuildTracked(r: BuildReport): set<string> {
    TrackedJobs(r.newFailures, |r.newFailures|) + TrackedJobs(r.existingFailures, |r.existingFailures|)
  }

  /** The statistics after one more build, whose failed-job items are matched as `matched`
      says. */
  function BuildStats(s: Stats, b: Build, matched: seq<bool>): Stats
    requires |matched| == |b.results.failedJobs|
  {
    var r := b.results;
    var s1 := CountStatus(s, b);
    var s2 := AddNewFailures(s1, r.newFailures, b.number, |r.newFailures|);
    var s3 := AddExistingFailures(s2, r.existingFailures, b.number, |r.existingFailures|);
    AddJobs(s3, r.failedJobs, matched, b.number, |r.failedJobs|)
  }

  /** One list of match flags per build, one flag per failed-job item. */
  predicate FlagsFit(builds: seq<Build>, flags: seq<seq<bool>>) {
    |flags| == |builds| && forall k :: 0 <= k < |builds| ==> |flags[k]| == |builds[k].results.failedJobs|
  }

  /** For every build, which of its failed-job items a job of its test failures matches. */
  function MatchFlags(builds: seq<Build>): (flags: seq<seq<bool>>)
    ensures FlagsFit(builds, flags)
  {
    seq(|builds|, k requires 0 <= k < |builds| => Matched(builds[k].results.failedJobs, BuildTracked(builds[k].results)))
  }

  /** The statistics of the first `n` builds, build `k` matched by `flags[k]`. */
  function AnalyzePrefix(builds: seq<Build>, flags: seq<seq<bool>>, n: nat): Stats
    requires n <= |builds| && FlagsFit(builds, flags)
  {
    if n == 0 then Initial(|builds|) else BuildStats(AnalyzePrefix(builds, flags, n - 1), builds[n - 1], flags[n - 1])
  }

  /** The `stats` that `analyze_builds` returns. */
  function Analyze(builds: seq<Build>): Stats {
    AnalyzePrefix(builds, MatchFlags(builds), |builds|)
  }

  // ----- The loops of `analyze_builds` -----

  /** `analyze_builds` of analyze_ci.py. */
  method AnalyzeBuilds(builds: seq<Build>) returns (stats: Stats)
    ensures stats == Analyze(builds)
  {
    stats := Initial(|builds|);
    for i := 0 to |builds|
      invariant stats == AnalyzePrefix(builds, MatchFlags(builds), i)
    {
      stats := AnalyzeBuild(stats, builds[i]);
    }
  }

  /** The body of the loop over builds. */
  method AnalyzeBuild(s: Stats, b: Build) returns (stats: Stats)
    ensures stats == BuildStats(s, b, Matched(b.results.failedJobs, BuildTracked(b.results)))
  {
    var results := b.results;
    var buildNum := b.number;
    stats := s;
    if results.status == Success {
      stats := stats.(successful := stats.successful + 1, successBuilds := stats.successBuilds + [buildNum]);
    } else {
      stats := stats.(failed := stats.failed + 1, failedBuilds := stats.failedBuilds + [buildNum]);
    }
    assert stats == CountStatus(s, b);
    var tracked: set<string> := {};
    stats, tracked := CountNewFailures(stats, results, buildNum);
    stats, tracked := CountExistingFailures(stats, tracked, results, buildNum);
    stats := CountFailedJobs(stats, tracked, results.failedJobs, buildNum);
  }

  /** The loop over the new failures of a build. */
  method CountNewFailures(s: Stats, results: BuildReport, buildNum: int) returns (stats: Stats, tracked: set<string>)
    ensures stats == AddNewFailures(s, results.newFailures, buildNum, |results.newFailures|)
    ensures tracked == TrackedJobs(results.newFailures, |results.newFailures|)
  {
    var fs := results.newFailures;
    stats := s;
    tracked := {};
    for j := 0 to |fs|
      invariant stats == AddNewFailures(s, fs, buildNum, j)
      invariant tracked == TrackedJobs(fs, j)
    {
      stats, tracked := NewFailureStep(s, stats, tracked, results, buildNum, j);
    }
  }

  /** The body of the loop over the new failures. */
  method NewFailureStep(s: Stats, stats: Stats, tracked: set<string>, results: BuildReport, buildNum: int, j: nat)
    returns (stats': Stats, tracked': set<string>)
    requires j < |results.newFailures|
    requires stats == AddNewFailures(s, results.newFailures, buildNum, j)
    requires tracked == TrackedJobs(results.newFailures, j)
    ensures stats' == AddNewFailures(s, results.newFailures, buildNum, j + 1)
    ensures tracked' == TrackedJobs(results.newFailures, j + 1)
  {
    var failure := results.newFailures[j];
    stats' := CountNewFailure(stats, failure, buildNum);
    tracked' := TrackStep(tracked, {}, results.newFailures, j);
  }

  /** One new failure: its combined key, its test entry and its error category. */
  method CountNewFailure(s: Stats, failure: Failure, buildNum: int) returns (stats: Stats)
    ensures stats == AddErrorType(AddFailure(s, failure, buildNum), failure)
  {
    stats := s.(combined := Inc(s.combined, CombinedKey(failure.job, failure.case_)),
                tests := AddTest(s.tests, failure.case_, failure.job, buildNum));
    var error := failure.error;
    if Contains(error, "AssertionError") {
      stats := stats.(errorTypes := Inc(stats.errorTypes, "AssertionError"));
    } else if Contains(error, "RFC") || Contains(error, "MUST") {
      stats := stats.(errorTypes := Inc(stats.errorTypes, "RFC Compliance"));
    } else if Contains(Lower(error), "timeout") || Contains(Lower(error), "hung") {
      stats := stats.(errorTypes := Inc(stats.errorTypes, "Timeout/Hung"));
    } else if error != [] {
      stats := stats.(errorTypes := Inc(stats.errorTypes, "Other Error"));
    }
  }

  /** Adding the normalised job of failure `j` to the set of jobs with test failures. */
  method TrackStep(tracked: set<string>, base: set<string>, fs: seq<Failure>, j: nat) returns (tracked': set<string>)
    requires j < |fs|
    requires tracked == base + TrackedJobs(fs, j)
    ensures tracked' == base + TrackedJobs(fs, j + 1)
  {
    var normalized := NormalizeJobName(fs[j].job);
    tracked' := tracked + {normalized};
  }

  /** The loop over the existing failures of a build. */
  method CountExistingFailures(s: Stats, tracked0: set<string>, results: BuildReport, buildNum: int)
    returns (stats: Stats, tracked: set<string>)
    requires tracked0 == TrackedJobs(results.newFailures, |results.newFailures|)
    ensures stats == AddExistingFailures(s, results.existingFailures, buildNum, |results.existingFailures|)
    ensures tracked == tracked0 + TrackedJobs(results.existingFailures, |results.existingFailures|)
  {
    var fs := results.existingFailures;
    stats := s;
    tracked := tracked0;
    for j := 0 to |fs|
      invariant stats == AddExistingFailures(s, fs, buildNum, j)
      invariant tracked == tracked0 + TrackedJobs(fs, j)
    {
      stats, tracked := ExistingFailureStep(s, stats, tracked0, tracked, results, buildNum, j);
    }
  }

  /** The body of the loop over the existing failures. */
  method ExistingFailureStep(s: Stats, stats: Stats, tracked0: set<string>, tracked: set<string>, results: BuildReport, buildNum: int, j: nat)
    returns (stats': Stats, tracked': set<string>)
    requires j < |results.existingFailures|
    requires stats == AddExistingFailures(s, results.existingFailures, buildNum, j)
    requires tracked == tracked0 + TrackedJobs(results.existingFailures, j)
    ensures stats' == AddExistingFailures(s, results.existingFailures, buildNum, j + 1)
    ensures tracked' == tracked0 + TrackedJobs(results.existingFailures, j + 1)
  {
    var failure := results.existingFailures[j];
    stats' := CountFailure(stats, failure, buildNum);
    tracked' := TrackStep(tracked, tracked0, results.existingFailures, j);
  }

  /** One existing failure: its combined key and its test entry. */
  method CountFailure(s: Stats, failure: Failure, buildNum: int) returns (stats: Stats)
    ensures stats == AddFailure(s, failure, buildNum)
  {
    stats := s.(combined := Inc(s.combined, CombinedKey(failure.job, failure.case_)),
                tests := AddTest(s.tests, failure.case_, failure.job, buildNum));
  }

  /** The loop over the failed-job items of a build. */
  method CountFailedJobs(s: Stats, tracked: set<string>, jobs: seq<FailedJob>, buildNum: int) returns (stats: Stats)
    ensures stats == AddJobs(s, jobs, Matched(jobs, tracked), buildNum, |jobs|)
  {
    stats := s;
    for j := 0 to |jobs|
      invariant stats == AddJobs(s, jobs, Matched(jobs, tracked), buildNum, j)
    {
      stats := FailedJobStep(stats, tracked, jobs[j], buildNum);
    }
  }

  /** The body of the loop over the failed-job items. */
  method FailedJobStep(s: Stats, tracked: set<string>, job: FailedJob, buildNum: int) returns (stats: Stats)
    ensures stats == AddJob(s, job, AlreadyTracked(Normalized(job.name), tracked), buildNum)
  {
    stats := s;
    var jobNormalized := NormalizeJobName(job.name);
    if job.state == JobUnknown {
      stats := stats.(hung := Inc(stats.hung, job.name),
                      tests := AddTest(stats.tests, HungTest, job.name, buildNum));
    } else {
      var alreadyTracked := IsTracked(jobNormalized, tracked);
      if !alreadyTracked {
        stats := stats.(combined := Inc(stats.combined, CombinedKey(job.name, JobFailedTest)),
                        tests := AddTest(stats.tests, JobFailedTest, job.name, buildNum));
      }
    }
  }

  /** The search of the tracked set for a matching job, stopping at the first match. */
  method IsTracked(jobNormalized: string, tracked: set<string>) returns (alreadyTracked: bool)
    ensures alreadyTracked <==> AlreadyTracked(jobNormalized, tracked)
  {
    alreadyTracked := false;
    var rest := tracked;
    while rest != {}
      invariant rest <= tracked
      invariant forall t :: t in tracked && t !in rest ==> !JobsMatch(jobNormalized, t)
      decreases |rest|
    {
      var t :| t in rest;
      if JobsMatch(jobNormalized, t) {
        alreadyTracked := true;
        break;
      }
      rest := rest - {t};
    }
  }

  // ----- Reference counts -----

  /** The numbers of the first `n` builds whose status is SUCCESS (`success`) or is not. */
  function Numbers(builds: seq<Build>, n: nat, success: bool): seq<int>
    requires n <= |builds|
  {
    if n == 0 then []
    else
      var b := builds[n - 1];
      if (b.results.status == Success) == success then Numbers(builds, n - 1, success) + [b.number]
      else Numbers(builds, n - 1, success)
  }

  /** The number of Unknown (hung) items among the first `n` failed jobs. */
  function CountUnknown(jobs: seq<FailedJob>, n: nat): nat
    requires n <= |jobs|
  {
    if n == 0 then 0 else CountUnknown(jobs, n - 1) + (if jobs[n - 1].state == JobUnknown then 1 else 0)
  }

  /** The number of Failed items among the first `n` that no tracked job matches. */
  function CountUntracked(jobs: seq<FailedJob>, matched: seq<bool>, n: nat): nat
    requires n <= |jobs| == |matched|
  {
    if n == 0 then 0
    else CountUntracked(jobs, matched, n - 1) + (if jobs[n - 1].state == JobFailed && !matched[n - 1] then 1 else 0)
  }

  /** The number of failures among the first `n` with a non-empty error excerpt. */
  function CountWithError(fs: seq<Failure>, n: nat): nat
    requires n <= |fs|
  {
    if n == 0 then 0 else CountWithError(fs, n - 1) + (if fs[n - 1].error != [] then 1 else 0)
  }

  /** Combined-failure entries of one build: one per new or existing failure and one per
      Failed job that is not matched. */
  function CombinedOf(r: BuildReport, matched: seq<bool>): nat
    requires |matched| == |r.failedJobs|
  {
    |r.newFailures| + |r.existingFailures| + CountUntracked(r.failedJobs, matched, |r.failedJobs|)
  }

  function SumCombined(builds: seq<Build>, flags: seq<seq<bool>>, n: nat): nat
    requires n <= |builds| && FlagsFit(builds, flags)
  {
    if n == 0 then 0 else SumCombined(builds, flags, n - 1) + CombinedOf(builds[n - 1].results, flags[n - 1])
  }

  function SumHung(builds: seq<Build>, n: nat): nat
    requires n <= |builds|
  {
    if n == 0 then 0
    else
      var jobs := builds[n - 1].results.failedJobs;
      SumHung(builds, n - 1) + CountUnknown(jobs, |jobs|)
  }

  function SumErrors(builds: seq<Build>, n: nat): nat
    requires n <= |builds|
  {
    if n == 0 then 0
    else
      var fs := builds[n - 1].results.newFailures;
      SumErrors(builds, n - 1) + CountWithError(fs, |fs|)
  }

  /** Every test entry's count is the sum of its per-job counts and at least the number of
      distinct builds it names. */
  ghost predicate TestsValid(tests: map<string, TestStat>) {
    forall name :: name in tests ==>
      tests[name].count == Total(tests[name].jobs) && |tests[name].builds| <= tests[name].count
  }

  /** The build counters and lists are equal in `a` and `b`. */
  predicate SameCounts(a: Stats, b: Stats) {
    a.total == b.total && a.successful == b.successful && a.failed == b.failed
    && a.successBuilds == b.successBuilds && a.failedBuilds == b.failedBuilds
  }

  // ----- Step facts -----

  lemma AddTestValid(tests: map<string, TestStat>, name: string, job: string, build: int)
    requires TestsValid(tests)
    ensures TestsValid(AddTest(tests, name, job, build))
  {
    var t := if name in tests then tests[name] else NoStat;
    TotalInc(t.jobs, job);
    assert |t.builds + {build}| <= |t.builds| + 1;
  }

  lemma {:induction false} NewFailuresCounts(s: Stats, fs: seq<Failure>, build: int, n: nat)
    requires n <= |fs|
    ensures var r := AddNewFailures(s, fs, build, n);
      SameCounts(s, r) && r.hung == s.hung
      && Total(r.combined) == Total(s.combined) + n
      && Total(r.errorTypes) == Total(s.errorTypes) + CountWithError(fs, n)
      && (r.errorTypes.Keys - s.errorTypes.Keys) <= ErrorCategories
  {
    if n > 0 {
      NewFailuresCounts(s, fs, build, n - 1);
      var p := AddNewFailures(s, fs, build, n - 1);
      var f := fs[n - 1];
      TotalInc(p.combined, CombinedKey(f.job, f.case_));
      var q := AddFailure(p, f, build);
      match ErrorCategory(f.error)
      case None =>
      case Some(c) => TotalInc(q.errorTypes, c);
    }
  }

  lemma {:induction false} NewFailuresTests(s: Stats, fs: seq<Failure>, build: int, n: nat)
    requires n <= |fs| && TestsValid(s.tests)
    ensures TestsValid(AddNewFailures(s, fs, build, n).tests)
  {
    if n > 0 {
      NewFailuresTests(s, fs, build, n - 1);
      var p := AddNewFailures(s, fs, build, n - 1);
      AddTestValid(p.tests, fs[n - 1].case_, fs[n - 1].job, build);
    }
  }

  lemma {:induction false} ExistingFailuresCounts(s: Stats, fs: seq<Failure>, build: int, n: nat)
    requires n <= |fs|
    ensures var r := AddExistingFailures(s, fs, build, n);
      SameCounts(s, r) && r.hung == s.hung && r.errorTypes == s.errorTypes
      && Total(r.combined) == Total(s.combined) + n
  {
    if n > 0 {
      ExistingFailuresCounts(s, fs, build, n - 1);
      var p := AddExistingFailures(s, fs, build, n - 1);
      TotalInc(p.combined, CombinedKey(fs[n - 1].job, fs[n - 1].case_));
    }
  }

  lemma {:induction false} ExistingFailuresTests(s: Stats, fs: seq<Failure>, build: int, n: nat)
    requires n <= |fs| && TestsValid(s.tests)
    ensures TestsValid(AddExistingFailures(s, fs, build, n).tests)
  {
    if n > 0 {
      ExistingFailuresTests(s, fs, build, n - 1);
      var p := AddExistingFailures(s, fs, build, n - 1);
      AddTestValid(p.tests, fs[n - 1].case_, fs[n - 1].job, build);
    }
  }

  lemma {:induction false} JobsCounts(s: Stats, jobs: seq<FailedJob>, matched: seq<bool>, build: int, n: nat)
    requires n <= |jobs| == |matched|
    ensures var r := AddJobs(s, jobs, matched, build, n);
      SameCounts(s, r) && r.errorTypes == s.errorTypes
      && Total(r.hung) == Total(s.hung) + CountUnknown(jobs, n)
      && Total(r.combined) == Total(s.combined) + CountUntracked(jobs, matched, n)
  {
    if n > 0 {
      JobsCounts(s, jobs, matched, build, n - 1);
      var p := AddJobs(s, jobs, matched, build, n - 1);
      var j := jobs[n - 1];
      if j.state == JobUnknown {
        TotalInc(p.hung, j.name);
      } else if !matched[n - 1] {
        TotalInc(p.combined, CombinedKey(j.name, JobFailedTest));
      }
    }
  }

  lemma {:induction false} JobsTests(s: Stats, jobs: seq<FailedJob>, matched: seq<bool>, build: int, n: nat)
    requires n <= |jobs| == |matched| && TestsValid(s.tests)
    ensures TestsValid(AddJobs(s, jobs, matched, build, n).tests)
  {
    if n > 0 {
      JobsTests(s, jobs, matched, build, n - 1);
      var p := AddJobs(s, jobs, matched, build, n - 1);
      var j := jobs[n - 1];
      if j.state == JobUnknown {
        AddTestValid(p.tests, HungTest, j.name, build);
      } else if !matched[n - 1] {
        AddTestValid(p.tests, JobFailedTest, j.name, build);
      }
    }
  }

  /** One build adds its status to the counters and lists, and its entries to the sums. */
  lemma BuildCountsStep(s: Stats, b: Build, matched: seq<bool>)
    requires |matched| == |b.results.failedJobs|
    ensures var r := BuildStats(s, b, matched);
      SameCounts(CountStatus(s, b), r)
      && Total(r.combined) == Total(s.combined) + CombinedOf(b.results, matched)
      && Total(r.hung) == Total(s.hung) + CountUnknown(b.results.failedJobs, |b.results.failedJobs|)
      && Total(r.errorTypes) == Total(s.errorTypes) + CountWithError(b.results.newFailures, |b.results.newFailures|)
      && (r.errorTypes.Keys - s.errorTypes.Keys) <= ErrorCategories
  {
    var res := b.results;
    var s1 := CountStatus(s, b);
    assert s1.combined == s.combined && s1.hung == s.hung && s1.errorTypes == s.errorTypes;
    NewFailuresCounts(s1, res.newFailures, b.number, |res.newFailures|);
    var s2 := AddNewFailures(s1, res.newFailures, b.number, |res.newFailures|);
    ExistingFailuresCounts(s2, res.existingFailures, b.number, |res.existingFailures|);
    var s3 := AddExistingFailures(s2, res.existingFailures, b.number, |res.existingFailures|);
    JobsCounts(s3, res.failedJobs, matched, b.number, |res.failedJobs|);
    assert BuildStats(s, b, matched) == AddJobs(s3, res.failedJobs, matched, b.number, |res.failedJobs|);
  }

  lemma BuildTestsStep(s: Stats, b: Build, matched: seq<bool>)
    requires |matched| == |b.results.failedJobs| && TestsValid(s.tests)
    ensures TestsValid(BuildStats(s, b, matched).tests)
  {
    var res := b.results;
    var s1 := CountStatus(s, b);
    NewFailuresTests(s1, res.newFailures, b.number, |res.newFailures|);
    var s2 := AddNewFailures(s1, res.newFailures, b.number, |res.newFailures|);
    ExistingFailuresTests(s2, res.existingFailures, b.number, |res.existingFailures|);
    var s3 := AddExistingFailures(s2, res.existingFailures, b.number, |res.existingFailures|);
    JobsTests(s3, res.failedJobs, matched, b.number, |res.failedJobs|);
  }

  /** The build counters and lists after the first `n` builds. */
  ghost predicate ListsAfter(builds: seq<Build>, flags: seq<seq<bool>>, n: nat)
    requires n <= |builds| && FlagsFit(builds, flags)
  {
    var s := AnalyzePrefix(builds, flags, n);
    s.total == |builds| && s.successful + s.failed == n
    && s.successBuilds == Numbers(builds, n, true) && s.failedBuilds == Numbers(builds, n, false)
    && |s.successBuilds| == s.successful && |s.failedBuilds| == s.failed
  }

  /** The sums of the counters after the first `n` builds. */
  ghost predicate TotalsAfter(builds: seq<Build>, flags: seq<seq<bool>>, n: nat)
    requires n <= |builds| && FlagsFit(builds, flags)
  {
    var s := AnalyzePrefix(builds, flags, n);
    Total(s.combined) == SumCombined(builds, flags, n)
    && Total(s.hung) == SumHung(builds, n)
    && Total(s.errorTypes) == SumErrors(builds, n)
    && s.errorTypes.Keys <= ErrorCategories
  }

  lemma ListsStep(builds: seq<Build>, flags: seq<seq<bool>>, n: nat)
    requires n < |builds| && FlagsFit(builds, flags) && ListsAfter(builds, flags, n)
    ensures ListsAfter(builds, flags, n + 1)
  {
    var p := AnalyzePrefix(builds, flags, n);
    BuildCountsStep(p, builds[n], flags[n]);
    assert SameCounts(CountStatus(p, builds[n]), AnalyzePrefix(builds, flags, n + 1));
  }

  lemma TotalsStep(builds: seq<Build>, flags: seq<seq<bool>>, n: nat)
    requires n < |builds| && FlagsFit(builds, flags) && TotalsAfter(builds, flags, n)
    ensures TotalsAfter(builds, flags, n + 1)
  {
    BuildCountsStep(AnalyzePrefix(builds, flags, n), builds[n], flags[n]);
  }

  lemma AnalyzeCounts(builds: seq<Build>, flags: seq<seq<bool>>)
    requires FlagsFit(builds, flags)
    ensures ListsAfter(builds, flags, |builds|) && TotalsAfter(builds, flags, |builds|)
  {
    for i := 0 to |builds|
      invariant ListsAfter(builds, flags, i) && TotalsAfter(builds, flags, i)
    {
      ListsStep(builds, flags, i);
      TotalsStep(builds, flags, i);
    }
  }

  lemma TestsStep(builds: seq<Build>, flags: seq<seq<bool>>, n: nat)
    requires n < |builds| && FlagsFit(builds, flags) && TestsValid(AnalyzePrefix(builds, flags, n).tests)
    ensures TestsValid(AnalyzePrefix(builds, flags, n + 1).tests)
  {
    BuildTestsStep(AnalyzePrefix(builds, flags, n), builds[n], flags[n]);
  }

  lemma AnalyzeTests(builds: seq<Build>, flags: seq<seq<bool>>)
    requires FlagsFit(builds, flags)
    ensures TestsValid(AnalyzePrefix(builds, flags, |builds|).tests)
  {
    for i := 0 to |builds|
      invariant TestsValid(AnalyzePrefix(builds, flags, i).tests)
    {
      TestsStep(builds, flags, i);
    }
  }

  // ----- Properties -----

  /** Every build is counted once: `successful + failed == total == len(builds)`, and the
      SUCCESS and FAILED lists hold the numbers of the builds with and without status
      SUCCESS, in build order (an Unknown build is listed as FAILED). */
  lemma BuildCounts(builds: seq<Build>)
    ensures var s := Analyze(builds);
      s.successful + s.failed == s.total == |builds|
      && s.successBuilds == Numbers(builds, |builds|, true)
      && s.failedBuilds == Numbers(builds, |builds|, false)
      && |s.successBuilds| == s.successful && |s.failedBuilds| == s.failed
  {
    AnalyzeCounts(builds, MatchFlags(builds));
  }

  /** For every test name, `count` is the sum of the per-job counts and `len(builds) <= count`. */
  lemma TestEntriesConsistent(builds: seq<Build>)
    ensures var t := Analyze(builds).tests;
      forall name :: name in t ==> t[name].count == Total(t[name].jobs) && |t[name].builds| <= t[name].count
  {
    AnalyzeTests(builds, MatchFlags(builds));
  }

  /** Every Unknown job item of every build is counted in `hung_jobs`: none is suppressed. */
  lemma HungNeverSuppressed(builds: seq<Build>)
    ensures Total(Analyze(builds).hung) == SumHung(builds, |builds|)
  {
    AnalyzeCounts(builds, MatchFlags(builds));
  }

  /** `combined_failures` holds one entry per new or existing failure and one per Failed job
      item that no test-failure job of its build matches. */
  lemma CombinedCounts(builds: seq<Build>)
    ensures Total(Analyze(builds).combined) == SumCombined(builds, MatchFlags(builds), |builds|)
  {
    AnalyzeCounts(builds, MatchFlags(builds));
  }

  /** The error-type histogram counts each new failure with a non-empty excerpt once, under
      one of the four categories. */
  lemma ErrorTypeCounts(builds: seq<Build>)
    ensures Total(Analyze(builds).errorTypes) == SumErrors(builds, |builds|)
    ensures Analyze(builds).errorTypes.Keys <= ErrorCategories
  {
    AnalyzeCounts(builds, MatchFlags(builds));
  }

  /** A Failed job item adds a "(Job Failed)" entry exactly when it is not matched (by
      `FailedJobStep`, when no tracked job matches its normalised name); an Unknown one is
      counted as hung whatever is tracked. */
  lemma JobSuppression(s: Stats, job: FailedJob, matched: bool, build: int)
    ensures var r := AddJob(s, job, matched, build);
      (job.state == JobFailed ==> (r.combined == s.combined <==> matched))
      && (job.state == JobUnknown ==> r.hung == Inc(s.hung, job.name) && r.combined == s.combined)
  {
    if job.state == JobFailed && !matched {
      var k := CombinedKey(job.name, JobFailedTest);
      assert Inc(s.combined, k)[k] != Get(s.combined, k);
    }
  }

  /** A Failed job item whose own name is the job of a test failure of the build adds
      nothing: matching is reflexive. */
  lemma JobWithTestsNotCounted(s: Stats, job: FailedJob, tracked: set<string>, build: int)
    requires job.state == JobFailed && Normalized(job.name) in tracked
    ensures AddJob(s, job, AlreadyTracked(Normalized(job.name), tracked), build) == s
  {
    JobsMatchReflexive(Normalized(job.name));
  }
}
