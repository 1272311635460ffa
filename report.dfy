/**
 * The result record of one CI build page, as produced by `parse_build_status` in
 * check_ci_build.py and consumed by the two analyzers.
 */
module Report {
  import opened Wrappers
  import AsanDetails

  /** The overall build status: "Unknown", "FAILED" or "SUCCESS". */
  datatype Status = Unknown | Failed | Success

  /** A failing test. `error` is the excerpt of a new failure; existing failures carry "". */
  datatype Failure = Failure(test: string, suite: Option<string>, case_: string, job: string, error: string)

  /** The class of a reported job item: "Failed" or "Unknown". */
  datatype JobState = JobFailed | JobUnknown

  /** ASAN details of a failed job: from the page's own ASAN list, or parsed from a log. */
  datatype JobAsan =
    | PageReport(errorType: string, testName: string, testPath: string, leakCount: Option<string>, leakSummary: string)
    | LogReport(details: AsanDetails.Details)

  datatype FailedJob = FailedJob(name: string, state: JobState, reason: string, key: string, asan: Option<JobAsan>)

  datatype BuildReport = BuildReport(
    url: string,
    buildNumber: Option<string>,
    status: Status,
    completedTime: Option<string>,
    newFailures: seq<Failure>,
    existingFailures: seq<Failure>,
    fixedTests: seq<string>,
    failedJobs: seq<FailedJob>,
    quarantined: nat,
    totalTests: nat)

  /** One build collected by the walkers: its number and its parsed page. */
  datatype Build = Build(number: int, results: BuildReport)
}
