/** `run`: input validation, then start, wait, fetch the report, format the
    comment, and classify the outcome; every exception of the analysis phase
    becomes an exit code. Posting the comment is not modelled: it catches
    all of its own failures and so cannot change the exit code. */
module Action {
  import opened Outcomes
  import opened Text
  import ExitCodes
  import opened ApiClient
  import opened Polling
  import opened Report
  import opened ExitPolicy
  import opened Settings

  /** The process exit code and the number of requests sent to the
      analysis service. */
  datatype RunResult = RunResult(exitCode: int, requests: nat)

  /** The exit code once the report is in hand: formatting the comment (when
      enabled) can still raise, otherwise the failure policy decides. */
  function Conclude(cfg: Config, report: ReportDoc): (code: int)
    ensures ExitCodes.IsExitCode(code)
    ensures cfg.commentOnPr && Summarise(report).Failure? ==> code == ExitCodes.ApiError
    ensures !cfg.commentOnPr || Summarise(report).Success? ==>
              code == ClassifyExit(cfg.policy, ReportVerdict(report),
                                   CountSeverity(report.findings, BlockerSeverity))
  {
    if cfg.commentOnPr && Summarise(report).Failure? then ExitCodes.ExitCodeFor(Summarise(report).error)
    else ClassifyExit(cfg.policy, ReportVerdict(report), CountSeverity(report.findings, BlockerSeverity))
  }

  /** `run`, given the responses the service would give: to the start
      request, to each pass of the poll loop, and to the report request. */
  function Run(cfg: Config, start: Response<StartDoc>, trace: seq<Observation>,
               report: Response<ReportDoc>): (r: RunResult)
    requires ValidTrace(cfg.timeout, trace)
    ensures ExitCodes.IsExitCode(r.exitCode)
    ensures r.requests == 0 <==> !Truthy(cfg.apiKey) || !Truthy(cfg.repoUrl)
    ensures !Truthy(cfg.apiKey) ==> r.exitCode == ExitCodes.AuthError
    ensures Truthy(cfg.apiKey) && !Truthy(cfg.repoUrl) ==> r.exitCode == ExitCodes.ApiError
    ensures r.requests <= DeadlinePass(cfg.timeout) + 2
  {
    if !Truthy(cfg.apiKey) then RunResult(ExitCodes.AuthError, 0)
    else if !Truthy(cfg.repoUrl) then RunResult(ExitCodes.ApiError, 0)
    else
      match ApiRequest(start)
      case Failure(f) => RunResult(ExitCodes.ExitCodeFor(f), 1)
      case Success(_) =>
        var w := Await(cfg.timeout, trace);
        PollsBoundedByTimeout(cfg.timeout, trace);
        match w.stop
        case Aborted(f) => RunResult(ExitCodes.ExitCodeFor(f), 1 + PollsMade(w))
        case Completed(_) =>
          match ApiRequest(report)
          case Failure(f) => RunResult(ExitCodes.ExitCodeFor(f), 2 + PollsMade(w))
          case Success(doc) => RunResult(Conclude(cfg, doc), 2 + PollsMade(w))
  }

  /** Without an API key the action exits with the authentication code
      before sending any request. */
  lemma MissingKeyExitsBeforeAnyRequest(env: Environment, start: Response<StartDoc>,
                                        trace: seq<Observation>, report: Response<ReportDoc>)
    requires ValidTrace(LoadConfig(env).timeout, trace)
    requires !Truthy(env.apiKey)
    ensures Run(LoadConfig(env), start, trace, report) == RunResult(ExitCodes.AuthError, 0)
  {
  }

  /** With a key but neither a repository URL nor GITHUB_REPOSITORY, the
      action exits with the API-error code before sending any request. */
  lemma MissingRepositoryExitsBeforeAnyRequest(env: Environment, start: Response<StartDoc>,
                                               trace: seq<Observation>, report: Response<ReportDoc>)
    requires ValidTrace(LoadConfig(env).timeout, trace)
    requires Truthy(env.apiKey) && !Truthy(env.repoUrl) && !Truthy(env.githubRepository)
    ensures Run(LoadConfig(env), start, trace, report) == RunResult(ExitCodes.ApiError, 0)
  {
  }

  /** A rejected API key on the start request ends the run with the
      authentication code after that single request. */
  lemma RejectedKeyAtStart(cfg: Config, start: Response<StartDoc>,
                           trace: seq<Observation>, report: Response<ReportDoc>)
    requires ValidTrace(cfg.timeout, trace)
    requires Truthy(cfg.apiKey) && Truthy(cfg.repoUrl) && start.status == 401
    ensures Run(cfg, start, trace, report) == RunResult(ExitCodes.AuthError, 1)
  {
  }

  /** Any failure of the start request ends the run with that exception's
      exit code, after that single request. */
  lemma FailedStartRequest(cfg: Config, start: Response<StartDoc>,
                           trace: seq<Observation>, report: Response<ReportDoc>)
    requires ValidTrace(cfg.timeout, trace)
    requires Truthy(cfg.apiKey) && Truthy(cfg.repoUrl) && ApiRequest(start).Failure?
    ensures Run(cfg, start, trace, report)
            == RunResult(ExitCodes.ExitCodeFor(ApiRequest(start).error), 1)
    ensures Run(cfg, start, trace, report).exitCode in {ExitCodes.ApiError, ExitCodes.AuthError}
  {
    RequestFailureExitCode(start);
  }

  /** A poll loop that raises (a timeout, a FAILED run, a failed status
      request, a document without "status") ends the run with that
      exception's exit code; the report is never requested. */
  lemma AbortedPollLoop(cfg: Config, start: Response<StartDoc>,
                        trace: seq<Observation>, report: Response<ReportDoc>)
    requires ValidTrace(cfg.timeout, trace)
    requires Truthy(cfg.apiKey) && Truthy(cfg.repoUrl) && ApiRequest(start).Success?
    requires Await(cfg.timeout, trace).stop.Aborted?
    ensures Run(cfg, start, trace, report)
            == RunResult(ExitCodes.ExitCodeFor(Await(cfg.timeout, trace).stop.failure),
                         1 + PollsMade(Await(cfg.timeout, trace)))
  {
  }

  /** A status document without "status", reached in time after
      non-terminal polls, ends the run with the API-error code. */
  lemma MissingStatusEndsWithApiError(cfg: Config, start: Response<StartDoc>,
                                      trace: seq<Observation>, report: Response<ReportDoc>, k: nat)
    requires ValidTrace(cfg.timeout, trace) && k < |trace|
    requires Truthy(cfg.apiKey) && Truthy(cfg.repoUrl) && ApiRequest(start).Success?
    requires trace[k].elapsed <= cfg.timeout as real
    requires ApiRequest(trace[k].response).Success? && ApiRequest(trace[k].response).value.status.None?
    requires forall j :: 0 <= j < k ==>
               trace[j].elapsed <= cfg.timeout as real
               && PolledStatus(trace[j]).Some? && !Terminal(PolledStatus(trace[j]).value)
    ensures Run(cfg, start, trace, report) == RunResult(ExitCodes.ApiError, k + 2)
  {
    AwaitIsFirstStop(cfg.timeout, trace, k);
    MissingStatusExitCode();
  }

  /** A completed run whose report request fails ends with that exception's
      exit code, after the start request, the polls and the report request. */
  lemma FailedReportRequest(cfg: Config, start: Response<StartDoc>,
                            trace: seq<Observation>, report: Response<ReportDoc>)
    requires ValidTrace(cfg.timeout, trace)
    requires Truthy(cfg.apiKey) && Truthy(cfg.repoUrl) && ApiRequest(start).Success?
    requires Await(cfg.timeout, trace).stop.Completed?
    requires ApiRequest(report).Failure?
    ensures Run(cfg, start, trace, report)
            == RunResult(ExitCodes.ExitCodeFor(ApiRequest(report).error), 2 + PollsMade(Await(cfg.timeout, trace)))
    ensures Run(cfg, start, trace, report).exitCode in {ExitCodes.ApiError, ExitCodes.AuthError}
  {
    RequestFailureExitCode(report);
  }

  /** When the run never reaches a terminal status before the deadline, the
      action exits with the timeout code. */
  lemma NeverFinishingRunExitsWithTimeout(cfg: Config, start: Response<StartDoc>,
                                          trace: seq<Observation>, report: Response<ReportDoc>)
    requires ValidTrace(cfg.timeout, trace)
    requires Truthy(cfg.apiKey) && Truthy(cfg.repoUrl) && ApiRequest(start).Success?
    requires forall j :: 0 <= j < |trace| && trace[j].elapsed <= cfg.timeout as real ==>
               PolledStatus(trace[j]).Some? && !Terminal(PolledStatus(trace[j]).value)
    ensures Run(cfg, start, trace, report).exitCode == ExitCodes.Timeout
  {
  }

  /** A run that completes and whose report is fetched and formatted ends
      with the failure policy's verdict on the report. */
  lemma CompletedRunFollowsPolicy(cfg: Config, start: Response<StartDoc>,
                                  trace: seq<Observation>, report: Response<ReportDoc>)
    requires ValidTrace(cfg.timeout, trace)
    requires Truthy(cfg.apiKey) && Truthy(cfg.repoUrl) && ApiRequest(start).Success?
    requires Await(cfg.timeout, trace).stop.Completed?
    requires ApiRequest(report).Success?
    requires !cfg.commentOnPr || forall i :: 0 <= i < |ApiRequest(report).value.dimensions| ==>
                                   Comparable(ApiRequest(report).value.dimensions[i])
    ensures Run(cfg, start, trace, report).exitCode
            == ClassifyExit(cfg.policy, ReportVerdict(ApiRequest(report).value),
                            CountSeverity(ApiRequest(report).value.findings, BlockerSeverity))
    ensures Run(cfg, start, trace, report).requests == 2 + PollsMade(Await(cfg.timeout, trace))
  {
  }

  /** Formatting the comment happens before the policy is consulted, so a
      dimension score that is not a number ends a completed run with the
      API-error code even under the "never" policy. */
  lemma FormattingFailureOverridesPolicy(cfg: Config, start: Response<StartDoc>,
                                         trace: seq<Observation>, report: Response<ReportDoc>, i: nat)
    requires ValidTrace(cfg.timeout, trace)
    requires Truthy(cfg.apiKey) && Truthy(cfg.repoUrl) && ApiRequest(start).Success?
    requires Await(cfg.timeout, trace).stop.Completed?
    requires ApiRequest(report).Success? && cfg.commentOnPr
    requires i < |ApiRequest(report).value.dimensions|
    requires ApiRequest(report).value.dimensions[i].score.NonNumeric?
    ensures Run(cfg, start, trace, report).exitCode == ExitCodes.ApiError
    ensures Run(cfg, start, trace, report).requests == 2 + PollsMade(Await(cfg.timeout, trace))
  {
  }
}
