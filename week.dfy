/**
 * `analyze_builds` of analyze_ci_week.py: the counters of analyze_ci.py without the
 * per-test table. A hung (Unknown) job only bumps `hung_jobs`.
 */
module WeekAggregate {
  import opened Wrappers
  import opened Text
  import opened Report
  import opened JobNames
  import opened Aggregate

  /** The `stats` dictionary of analyze_ci_week.py. */
  datatype WeekStats = WeekStats(
    total: nat,
    successful: nat,
    failed: nat,
    combined: map<string, nat>,
    hung: map<string, nat>,
    errorTypes: map<string, nat>,
    successBuilds: seq<int>,
    failedBuilds: seq<int>)

  /** The weekly counters kept by a full statistics record. */
  function WeekOf(s: Stats): WeekStats {
    WeekStats(s.total, s.successful, s.failed, s.combined, s.hung, s.errorTypes, s.successBuilds, s.failedBuilds)
  }

  function WeekInitial(total: nat): WeekStats {
    WeekStats(total, 0, 0, map[], map[], map[], [], [])
  }

  function WeekCountStatus(w: WeekStats, b: Build): WeekStats {
    if b.results.status == Success then
      w.(successful := w.successful + 1, successBuilds := w.successBuilds + [b.number])
    else
      w.(failed := w.failed + 1, failedBuilds := w.failedBuilds + [b.number])
  }

  function WeekAddNewFailure(w: WeekStats, f: Failure): WeekStats {
    var w1 := w.(combined := Inc(w.combined, CombinedKey(f.job, f.case_)));
    match ErrorCategory(f.error)
    case None => w1
    case Some(c) => w1.(errorTypes := Inc(w1.errorTypes, c))
  }

  function WeekAddNewFailures(w: WeekStats, fs: seq<Failure>, n: nat): WeekStats
    requires n <= |fs|
  {
    if n == 0 then w else WeekAddNewFailure(WeekAddNewFailures(w, fs, n - 1), fs[n - 1])
  }

  function WeekAddExistingFailures(w: WeekStats, fs: seq<Failure>, n: nat): WeekStats
    requires n <= |fs|
  {
    if n == 0 then w
    else
      var p := WeekAddExistingFailures(w, fs, n - 1);
      p.(combined := Inc(p.combined, CombinedKey(fs[n - 1].job, fs[n - 1].case_)))
  }

  function WeekAddJob(w: WeekStats, job: FailedJob, matched: bool): WeekStats {
    if job.state == JobUnknown then w.(hung := Inc(w.hung, job.name))
    else if matched then w
    else w.(combined := Inc(w.combined, CombinedKey(job.name, JobFailedTest)))
  }

  function WeekAddJobs(w: WeekStats, jobs: seq<FailedJob>, matched: seq<bool>, n: nat): WeekStats
    requires n <= |jobs| == |matched|
  {
    if n == 0 then w else WeekAddJob(WeekAddJobs(w, jobs, matched, n - 1), jobs[n - 1], matched[n - 1])
  }

  /** The weekly counters after one more build, whose failed-job items are matched as
      `matched` says. */
  function WeekBuildStats(w: WeekStats, b: Build, matched: seq<bool>): WeekStats
    requires |matched| == |b.results.failedJobs|
  {
    var r := b.results;
    var w1 := WeekCountStatus(w, b);
    var w2 := WeekAddNewFailures(w1, r.newFailures, |r.newFailures|);
    var w3 := WeekAddExistingFailures(w2, r.existingFailures, |r.existingFailures|);
    WeekAddJobs(w3, r.failedJobs, matched, |r.failedJobs|)
  }

  function WeekAnalyzePrefix(builds: seq<Build>, flags: seq<seq<bool>>, n: nat): WeekStats
    requires n <= |builds| && FlagsFit(builds, flags)
  {
    if n == 0 then WeekInitial(|builds|)
    else WeekBuildStats(WeekAnalyzePrefix(builds, flags, n - 1), builds[n - 1], flags[n - 1])
  }

  /** The `stats` that the weekly `analyze_builds` returns. */
  function WeekAnalyze(builds: seq<Build>): WeekStats {
    WeekAnalyzePrefix(builds, MatchFlags(builds), |builds|)
  }

  // ----- The loops of the weekly `analyze_builds` -----

  /** `analyze_builds` of analyze_ci_week.py. */
  method AnalyzeWeekBuilds(builds: seq<Build>) returns (stats: WeekStats)
    ensures stats == WeekAnalyze(builds)
  {
    stats := WeekInitial(|builds|);
    for i := 0 to |builds|
      invariant stats == WeekAnalyzePrefix(builds, MatchFlags(builds), i)
    {
      stats := AnalyzeWeekBuild(stats, builds[i]);
    }
  }

  /** The body of the loop over builds. */
  method AnalyzeWeekBuild(w: WeekStats, b: Build) returns (stats: WeekStats)
    ensures stats == WeekBuildStats(w, b, Matched(b.results.failedJobs, BuildTracked(b.results)))
  {
    var results := b.results;
    var buildNum := b.number;
    stats := w;
    if results.status == Success {
      stats := stats.(successful := stats.successful + 1, successBuilds := stats.successBuilds + [buildNum]);
    } else {
      stats := stats.(failed := stats.failed + 1, failedBuilds := stats.failedBuilds + [buildNum]);
    }
    assert stats == WeekCountStatus(w, b);
    var tracked: set<string>;
    stats, tracked := CountWeekNewFailures(stats, results);
    stats, tracked := CountWeekExistingFailures(stats, tracked, results);
    stats := CountWeekFailedJobs(stats, tracked, results.failedJobs);
  }

  method CountWeekNewFailures(w: WeekStats, results: BuildReport) returns (stats: WeekStats, tracked: set<string>)
    ensures stats == WeekAddNewFailures(w, results.newFailures, |results.newFailures|)
    ensures tracked == TrackedJobs(results.newFailures, |results.newFailures|)
  {
    var fs := results.newFailures;
    stats := w;
    tracked := {};
    for j := 0 to |fs|
      invariant stats == WeekAddNewFailures(w, fs, j)
      invariant tracked == TrackedJobs(fs, j)
    {
      stats, tracked := WeekNewFailureStep(w, stats, tracked, results, j);
    }
  }

  /** The body of the loop over the new failures. */
  method WeekNewFailureStep(w: WeekStats, stats: WeekStats, tracked: set<string>, results: BuildReport, j: nat)
    returns (stats': WeekStats, tracked': set<string>)
    requires j < |results.newFailures|
    requires stats == WeekAddNewFailures(w, results.newFailures, j)
    requires tracked == TrackedJobs(results.newFailures, j)
    ensures stats' == WeekAddNewFailures(w, results.newFailures, j + 1)
    ensures tracked' == TrackedJobs(results.newFailures, j + 1)
  {
    stats' := CountWeekNewFailure(stats, results.newFailures[j]);
    tracked' := TrackStep(tracked, {}, results.newFailures, j);
  }

  /** One new failure: its combined key and its error category. */
  method CountWeekNewFailure(w: WeekStats, failure: Failure) returns (stats: WeekStats)
    ensures stats == WeekAddNewFailure(w, failure)
  {
    stats := w.(combined := Inc(w.combined, CombinedKey(failure.job, failure.case_)));
    var error := failure.error;
    if Contains(error, "AssertionError") {
      stats := stats.(errorTypes := Inc(stats.errorTypes, "AssertionError"));
    } else if Contains(error, "RFC") || Contains(error, "MUST") {
      stats := stats.(errorTypes := Inc(stats.errorTypes, "RFC Compliance"));
    } else if Contains(Lower(error), "timeout") || Contains(Lower(error), "hung") {
      stats := stats.(errorTypes := Inc(stats.errorTypes, "Timeout/Hung"));
    } else if error != [] {
      stats := stats.(errorTypes := Inc(stats.errorTypes, "Other Error"));
    }
  }

  method CountWeekExistingFailures(w: WeekStats, tracked0: set<string>, results: BuildReport)
    returns (stats: WeekStats, tracked: set<string>)
    ensures stats == WeekAddExistingFailures(w, results.existingFailures, |results.existingFailures|)
    ensures tracked == tracked0 + TrackedJobs(results.existingFailures, |results.existingFailures|)
  {
    var fs := results.existingFailures;
    stats := w;
    tracked := tracked0;
    for j := 0 to |fs|
      invariant stats == WeekAddExistingFailures(w, fs, j)
      invariant tracked == tracked0 + TrackedJobs(fs, j)
    {
      stats := stats.(combined := Inc(stats.combined, CombinedKey(fs[j].job, fs[j].case_)));
      tracked := TrackStep(tracked, tracked0, fs, j);
    }
  }

  method CountWeekFailedJobs(w: WeekStats, tracked: set<string>, jobs: seq<FailedJob>) returns (stats: WeekStats)
    ensures stats == WeekAddJobs(w, jobs, Matched(jobs, tracked), |jobs|)
  {
    stats := w;
    for j := 0 to |jobs|
      invariant stats == WeekAddJobs(w, jobs, Matched(jobs, tracked), j)
    {
      stats := WeekFailedJobStep(stats, tracked, jobs[j]);
    }
  }

  method WeekFailedJobStep(w: WeekStats, tracked: set<string>, job: FailedJob) returns (stats: WeekStats)
    ensures stats == WeekAddJob(w, job, AlreadyTracked(Normalized(job.name), tracked))
  {
    stats := w;
    var jobNormalized := NormalizeJobName(job.name);
    if job.state == JobUnknown {
      stats := stats.(hung := Inc(stats.hung, job.name));
    } else {
      var alreadyTracked := IsTracked(jobNormalized, tracked);
      if !alreadyTracked {
        stats := stats.(combined := Inc(stats.combined, CombinedKey(job.name, JobFailedTest)));
      }
    }
  }

  // ----- Agreement with analyze_ci.py -----

  lemma {:induction false} NewFailuresAgree(s: Stats, fs: seq<Failure>, build: int, n: nat)
    requires n <= |fs|
    ensures WeekAddNewFailures(WeekOf(s), fs, n) == WeekOf(AddNewFailures(s, fs, build, n))
  {
    if n > 0 {
      NewFailuresAgree(s, fs, build, n - 1);
    }
  }

  lemma {:induction false} ExistingFailuresAgree(s: Stats, fs: seq<Failure>, build: int, n: nat)
    requires n <= |fs|
    ensures WeekAddExistingFailures(WeekOf(s), fs, n) == WeekOf(AddExistingFailures(s, fs, build, n))
  {
    if n > 0 {
      ExistingFailuresAgree(s, fs, build, n - 1);
    }
  }

  lemma {:induction false} JobsAgree(s: Stats, jobs: seq<FailedJob>, matched: seq<bool>, build: int, n: nat)
    requires n <= |jobs| == |matched|
    ensures WeekAddJobs(WeekOf(s), jobs, matched, n) == WeekOf(AddJobs(s, jobs, matched, build, n))
  {
    if n > 0 {
      JobsAgree(s, jobs, matched, build, n - 1);
    }
  }

  lemma StatusAgrees(s: Stats, b: Build)
    ensures WeekCountStatus(WeekOf(s), b) == WeekOf(CountStatus(s, b))
  {
  }

  /** One build changes the weekly counters as it changes those of analyze_ci.py. */
  lemma BuildAgrees(s: Stats, b: Build, matched: seq<bool>)
    requires |matched| == |b.results.failedJobs|
    ensures WeekBuildStats(WeekOf(s), b, matched) == WeekOf(BuildStats(s, b, matched))
  {
    var r := b.results;
    var s1 := CountStatus(s, b);
    StatusAgrees(s, b);
    NewFailuresAgree(s1, r.newFailures, b.number, |r.newFailures|);
    var s2 := AddNewFailures(s1, r.newFailures, b.number, |r.newFailures|);
    ExistingFailuresAgree(s2, r.existingFailures, b.number, |r.existingFailures|);
    var s3 := AddExistingFailures(s2, r.existingFailures, b.number, |r.existingFailures|);
    JobsAgree(s3, r.failedJobs, matched, b.number, |r.failedJobs|);
    assert WeekBuildStats(WeekOf(s), b, matched) == WeekAddJobs(WeekOf(s3), r.failedJobs, matched, |r.failedJobs|);
    assert BuildStats(s, b, matched) == AddJobs(s3, r.failedJobs, matched, b.number, |r.failedJobs|);
  }

  /** The weekly script computes exactly the counters of analyze_ci.py, without the test
      table. */
  lemma PrefixAgrees(builds: seq<Build>, flags: seq<seq<bool>>, n: nat)
    requires n < |builds| && FlagsFit(builds, flags)
    requires WeekAnalyzePrefix(builds, flags, n) == WeekOf(AnalyzePrefix(builds, flags, n))
    ensures WeekAnalyzePrefix(builds, flags, n + 1) == WeekOf(AnalyzePrefix(builds, flags, n + 1))
  {
    BuildAgrees(AnalyzePrefix(builds, flags, n), builds[n], flags[n]);
  }

  lemma WeekAgrees(builds: seq<Build>)
    ensures WeekAnalyze(builds) == WeekOf(Analyze(builds))
  {
    var flags := MatchFlags(builds);
    for i := 0 to |builds|
      invariant WeekAnalyzePrefix(builds, flags, i) == WeekOf(AnalyzePrefix(builds, flags, i))
    {
      PrefixAgrees(builds, flags, i);
    }
  }

  /** Hence the weekly counters satisfy every count proved for analyze_ci.py. */
  lemma WeekCounts(builds: seq<Build>)
    ensures var w := WeekAnalyze(builds);
      w.successful + w.failed == w.total == |builds|
      && w.successBuilds == Numbers(builds, |builds|, true)
      && w.failedBuilds == Numbers(builds, |builds|, false)
      && Total(w.combined) == SumCombined(builds, MatchFlags(builds), |builds|)
      && Total(w.hung) == SumHung(builds, |builds|)
      && Total(w.errorTypes) == SumErrors(builds, |builds|)
      && w.errorTypes.Keys <= ErrorCategories
  {
    WeekAgrees(builds);
    BuildCounts(builds);
    CombinedCounts(builds);
    HungNeverSuppressed(builds);
    ErrorTypeCounts(builds);
  }
}
