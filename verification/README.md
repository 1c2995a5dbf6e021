# ProdSensor GitHub Action — a Dafny model of its decision logic

The ProdSensor action (`src/main.py`) starts a production-readiness
analysis of a repository on a remote service, polls the run until it is
COMPLETE, FAILED or out of time, fetches the report, summarises it as a
pull-request comment, and turns the outcome into a process exit code
(0 ready, 1 not ready, 2 conditionally ready, 3 API error, 4 authentication
error, 5 timeout).

This project models the pure decisions under that plumbing and proves
their properties:

- `exit_codes.dfy` — module `ExitCodes`: the six exit codes, the
  exceptions that escape the analysis phase (`Failure`), and the `except`
  clauses of `run`, which classify an exception by whether its message
  contains "Invalid API key".
- `api_client.dfy` — module `ApiClient`: how `api_request` turns an HTTP
  status and body into a decoded document or an exception, and the
  run-id normalisation of `start_analysis`.
- `polling.dfy` — module `Polling`: `wait_for_completion` over a trace of
  (elapsed time, status response) observations. The loop checks the
  deadline, polls, and stops at the first COMPLETE, FAILED, failed
  request or passed deadline.
- `report.dfy` — module `Report`: the verdict, the comment heading, the
  exact-match severity counts, the three colour bands of dimension
  scores, and the blocker list. The list is cut to five entries, each
  description is clipped to 200 characters, and a remainder count follows.
- `exit_policy.dfy` — module `ExitPolicy`: the `fail_on` policy table.
- `settings.dfy` — module `Settings`: the constructor's defaults. These
  cover API URL slash stripping, the repository URL derived from
  GITHUB_REPOSITORY, policy and comment-flag parsing, and the timeout.
- `action.dfy` — module `Action`: `run` end to end, returning the exit
  code and the number of requests sent to the analysis service.
- `text.dfy`, `outcomes.dfy` — string helpers (Python truthiness, `in`,
  `rstrip("/")`, `lower()`, slicing) and `Option`/`Result`.

Time is an input. Observation `i` of a poll trace holds the elapsed seconds
read at the top of pass `i` and the response that pass's status request
receives. Each pass that continues sleeps 5 seconds. So a trace starts at
a non-negative time, and each observation comes at least 5 seconds after
the one before (`Polling.Clocked`). Traces are taken long enough to
reach the deadline (`Polling.ValidTrace`). Under these two conditions the
loop always stops, by pass `DeadlinePass(timeout)` at the latest (timeout / 5 + 1 for a non-negative timeout, 0 otherwise).

The model follows the code where its behaviour is easy to overlook:

- The comment heading treats every verdict other than PRODUCTION_READY and
  NOT_PRODUCTION_READY as "conditionally ready", UNKNOWN included. It has
  no separate unknown treatment. Under the default policy such a verdict
  still exits 1, not 2 (`ExitPolicy.UnknownVerdictHeadingAndExitDiffer`).
- Authentication errors are recognised by message text, not by a typed
  error. So a server "detail" or a failed-run error message that contains
  "Invalid API key" also exits 4 (`ApiClient.RequestFailureExitCode`,
  `Polling.AnalysisFailedExitCode`).
- The comment is formatted inside `run`'s `try`. A dimension score that is
  not a number raises `TypeError` there, which ends an otherwise complete
  run with exit 3, even under the `never` policy
  (`Action.FormattingFailureOverridesPolicy`).
- A status document without "status" raises `KeyError`, and an
  undecodable body raises a JSON error. Both exit 3.

## Model

| member | source | states |
|---|---|---|
| ExitCodes.ExitCodeFor | src/main.py:327-334 | a timeout exits 5; any other exception exits 4 exactly when its message contains "Invalid API key", otherwise 3 |
| ExitCodes.ExitCodeAfterPrefix | src/main.py:332 | a message built from a fixed prefix in which the phrase cannot begin is classified by the text after the prefix alone |
| Text.ContainsIffOccurs | src/main.py:332 | the substring test used for the phrase holds exactly when the phrase occurs at some position |
| Text.ContainsSkipsPrefix | src/main.py:332 | a prefix in which no occurrence can begin neither adds nor removes an occurrence |
| Text.PrefixCannotStartPattern | src/main.py:332 | a prefix whose every position mismatches the phrase's first or second character cannot hold the start of an occurrence |
| Text.MissingFirstCharacter | src/main.py:332 | a message lacking the phrase's first character does not contain the phrase |
| ApiClient.ClassifyStatus | src/main.py:99-103 | 401 is unauthorised, 429 rate-limited, any other status of 400 or more rejected, anything below 400 accepted; the four classes are disjoint and cover every status |
| ApiClient.ApiRequest | src/main.py:99-107 | a request succeeds exactly when the status is below 400 and the body decodes, and then yields the body; 401 and 429 raise their fixed messages, other rejections raise "API error: " with the detail or raw text, and an undecodable body raises a library error |
| ApiClient.RequestFailureExitCode | src/main.py:99-105 | a failed request ends the run with 4 on 401, 3 on 429, and on any other rejection with 4 exactly when the server's message contains "Invalid API key" |
| ApiClient.InvalidKeyMessageIsAuthError | src/main.py:100 | the 401 message maps to the authentication exit code |
| ApiClient.RateLimitMessageIsApiError | src/main.py:102 | the 429 message maps to the API-error exit code |
| ApiClient.NormaliseRunId | src/main.py:117-118 | the run id is one of the two fields, is non-empty exactly when one of them is, and is "run_id" whenever that is non-empty |
| ApiClient.RunIdFallsBackToId | src/main.py:117-118 | with "run_id" absent or empty, the run id is "id" |
| Polling.Step | src/main.py:134-143 | one pass times out exactly when elapsed exceeds the timeout; otherwise it completes exactly on COMPLETE, continues exactly on a non-terminal status, raises the request's exception, or raises "Analysis failed: " with the server error or "Unknown error" on FAILED, and raises `KeyError` "'status'" when a fetched document has no "status" |
| Polling.ElapsedLowerBound | src/main.py:131-149 | on a clocked trace, pass `i` starts at least 5·i seconds in |
| Polling.InTimePassPrecedesDeadline | src/main.py:134-136 | any pass that meets the deadline, whatever it then does, comes before the pass where 5·i first exceeds the timeout |
| Polling.AwaitFrom | src/main.py:133-149 | the loop from pass `i` stops at a pass no later than the deadline pass, with that pass's outcome, and every pass between continued |
| Polling.Await | src/main.py:128-149 | the loop's outcome is that of the first pass that does not continue; it is a timeout exactly when that pass's elapsed time exceeds the timeout, and all earlier passes met the deadline |
| Polling.AwaitIsFirstStop | src/main.py:133-149 | any pass that stops, preceded only by continuing passes, is the loop's outcome |
| Polling.AwaitReturnsFirstComplete | src/main.py:140-141 | after non-terminal polls, the first COMPLETE status in time is returned, after exactly k+1 polls and none later |
| Polling.AwaitRaisesOnFailed | src/main.py:142-143 | after non-terminal polls, the first FAILED status in time raises the analysis-failed exception with the server's error message |
| Polling.NonTerminalRunTimesOut | src/main.py:134-136 | if every poll within the deadline reports a non-terminal status, the loop raises the timeout, having polled at most `DeadlinePass(timeout)` times (timeout/5 + 1 for a non-negative timeout) |
| Polling.PollsBoundedByTimeout | src/main.py:131-149 | whatever the service answers, the loop makes at most `DeadlinePass(timeout)` status requests (timeout/5 + 1 for a non-negative timeout), because the deadline pass never polls |
| Polling.AwaitIgnoresLaterObservations | src/main.py:140-143 | two traces that agree up to the stopping pass give the same outcome, so nothing after the stop is polled |
| Polling.MissingStatusExitCode | src/main.py:330-334 | the `KeyError` message "'status'" does not mention the invalid-key phrase, so it exits 3 |
| Polling.AnalysisFailedExitCode | src/main.py:143 | a failed-run exception exits 4 exactly when the server's error text contains "Invalid API key", otherwise 3 |
| Report.ParseVerdict | src/main.py:318-325 | the verdict is one of the three known values exactly when the text equals its name; any other text is kept as unrecognised |
| Report.VerdictRoundTrip | src/main.py:282 | parsing a verdict string and rendering it back gives the same string, and every parsed verdict reparses to itself |
| Report.ReportVerdict | src/main.py:153 | a present verdict is parsed, a missing one reads as the unrecognised verdict UNKNOWN, and the verdict renders back to the text `report.get("verdict", "UNKNOWN")` yields |
| Report.VerdictLabel | src/main.py:157-165 | the heading is "ready" exactly for PRODUCTION_READY, "not ready" exactly for NOT_PRODUCTION_READY, and "conditionally ready" for every other verdict |
| Report.WithSeverity | src/main.py:169-171 | the findings filtered by severity are no more than the findings, each has that severity, and each comes from the findings |
| Report.WithSeverityAppend | src/main.py:169-171 | filtering by severity distributes over concatenation of finding lists |
| Report.SeverityCountsBounded | src/main.py:169-171 | blockers + majors + minors never exceed the number of findings, and equal it exactly when every finding has one of the three severities |
| Report.UnrecognisedSeverityIgnored | src/main.py:169-171 | inserting a finding whose severity is none of Blocker, Major, Minor anywhere leaves all three counts unchanged |
| Report.WithSeverityKeepsOrder | src/main.py:207 | the blocker list keeps report order: the blocker at index j sits at the position given by the number of blockers before j |
| Report.BandOf | src/main.py:196-202 | a score is green exactly when at least 70, yellow exactly when in [50, 70), red exactly when below 50 |
| Report.BandMonotonic | src/main.py:197-202 | a higher score never gets a worse colour |
| Report.DimensionRows | src/main.py:189-204 | the table succeeds exactly when no score is non-numeric; it then has one row per dimension in order, with the score (0 when absent) and its band; otherwise it raises a type error |
| Report.Entry | src/main.py:211-213 | a listed description is the prefix of the original of length min(200, its length), so exactly the first 200 characters of a longer one and the whole of a shorter one; the title is kept when present and is "Untitled" when absent |
| Report.TopBlockers | src/main.py:206-216 | exactly min(5, n) blockers are listed, being the first ones in report order; the "more" line appears exactly when n > 5 and then counts n − 5 |
| Report.SevenBlockersShowFive | src/main.py:215-216 | seven blockers list five and report two more |
| Report.Summarise | src/main.py:151-220 | among the modelled JSON shapes, formatting fails exactly when some dimension score is non-numeric; otherwise the heading follows the verdict, the three counts are the exact-match severity counts (together at most the number of findings), the blocker section is `TopBlockers` of the findings (the count is the number listed plus the remainder), and the dimension table is `DimensionRows` of the dimensions |
| ExitPolicy.ParsePolicy | src/main.py:310-317 | "never" and "blockers" select their policies exactly; every other string selects the default not-ready policy |
| ExitPolicy.ClassifyExit | src/main.py:310-325 | never always exits 0; blockers exits 1 exactly when a blocker exists, else 0; not-ready exits 0 exactly for PRODUCTION_READY and 2 exactly for CONDITIONALLY_READY, else 1 |
| ExitPolicy.PolicyTable | src/main.py:310-325 | the policy table over the raw `fail_on` and verdict strings, covering unrecognised policy strings and UNKNOWN verdicts |
| ExitPolicy.BlockersPolicyIgnoresVerdict | src/main.py:312-316 | under "blockers" the verdict does not affect the exit code |
| ExitPolicy.NotReadyPolicyIgnoresBlockers | src/main.py:317-325 | under the default policy the blocker count does not affect the exit code |
| ExitPolicy.UnknownVerdictHeadingAndExitDiffer | src/main.py:163-165 | an unrecognised verdict is headed "conditionally ready" yet exits 1 under the default policy |
| Text.StripTrailingSlashes | src/main.py:34 | the result is a prefix of the input, does not end in '/', and only slashes were removed |
| Text.StripTrailingSlashesIdempotent | src/main.py:34 | stripping twice equals stripping once |
| Text.StripTrailingSlashesUnique | src/main.py:34 | any prefix with those three properties is the stripped string |
| Settings.ApiUrl | src/main.py:34 | an unset or empty override gives the default URL; otherwise the override minus its trailing slashes; never ends in '/' |
| Settings.RepoUrl | src/main.py:47-48 | the repository URL is non-empty exactly when the input or GITHUB_REPOSITORY is; an explicit input wins, else it is https://github.com/ followed by the repository |
| Settings.CommentFlag | src/main.py:37 | commenting is on exactly when the input is "true" in any letter case |
| Text.Lower | src/main.py:37 | lower-casing keeps the length, leaves no upper-case ASCII letter, moves each upper-case letter 32 code points to its lower-case form and keeps every other character |
| Text.LowerIdempotent | src/main.py:37 | lower-casing twice is lower-casing once |
| Settings.LoadConfig | src/main.py:32-48 | the key is kept; the API URL, repository URL, policy and comment flag are `ApiUrl`, `RepoUrl`, `ParsePolicy` and `CommentFlag` of the inputs or their defaults; a repository URL exists exactly when one can be derived; a set timeout is kept, and the policy, comment flag and timeout take their defaults when unset |
| Text.Clip | src/main.py:212 | the clipped text is the prefix of length min(n, length), the whole text when short enough |
| Action.Conclude | src/main.py:304-325 | with commenting on, a formatting failure exits 3; otherwise the policy classifies the verdict and blocker count |
| Action.Run | src/main.py:252-334 | the exit code is one of 0–5; no request is made exactly when the key or the repository URL is missing, which exit 4 and 3; at most `DeadlinePass(timeout)` + 2 requests are made (timeout/5 + 3 for a non-negative timeout) |
| Action.MissingKeyExitsBeforeAnyRequest | src/main.py:255-257 | with no API key in the environment, the run exits 4 after zero requests, whatever the service would answer |
| Action.MissingRepositoryExitsBeforeAnyRequest | src/main.py:259-261 | with a key but no repository URL and no GITHUB_REPOSITORY, the run exits 3 after zero requests |
| Action.FailedStartRequest | src/main.py:327-334 | any failure of the start request exits with that exception's code (3 or 4) after one request |
| Action.AbortedPollLoop | src/main.py:327-334 | a poll loop that raises exits with that exception's code after the start request and the polls made, without requesting the report |
| Action.MissingStatusEndsWithApiError | src/main.py:138-143 | a fetched status document without "status", after non-terminal polls, exits 3 after k + 2 requests |
| Action.FailedReportRequest | src/main.py:327-334 | a completed run whose report request fails exits with that exception's code (3 or 4) |
| Action.RejectedKeyAtStart | src/main.py:330-334 | a 401 on the start request exits 4 after one request |
| Action.NeverFinishingRunExitsWithTimeout | src/main.py:327-329 | a run that never reports a terminal status within the deadline exits 5 |
| Action.CompletedRunFollowsPolicy | src/main.py:273-325 | a completed, fetched and formatted run exits with the policy's classification of its verdict and blocker count, after exactly the start request, the polls made and one report request |
| Action.FormattingFailureOverridesPolicy | src/main.py:278-307 | with commenting on, a non-numeric dimension score ends a completed run with exit 3 whatever the policy, after the start request, the polls made and the one report request |

## Left out

- HTTP transport (`httpx` clients, headers, the 30-second per-call timeout, connection errors): a response is an input. Transport exceptions are not modelled; their messages would classify as exit 3.
- The GitHub comment POST and `get_pr_number`. `post_pr_comment` catches every failure itself, so it cannot change the exit code, and `Run` omits it.
- `log`, `set_output` and the GITHUB_OUTPUT file: output only. A failed write to the output file is not modelled.
- Real time and `time.sleep`: replaced by the clocked observation trace. The minutes/seconds progress line is cosmetic.
- Float precision: elapsed times and scores are Dafny reals; the report's overall `score` is only printed and is not modelled.
- Markdown, emoji, the footer link and `name.replace('_', ' ').title()`: the comment is modelled as a `Summary` of what it shows.
- JSON values of unexpected types are not modelled: a null title, a non-string verdict, a non-list `findings`, or a non-object dimension. Only absence and strings are. For scores, numbers, absence, and "anything else" (which raises) are modelled.
- Report.Summarise: a listed blocker whose "description" is null or a number makes `[:200]` raise `TypeError`, which ends the run with exit 3 when commenting is on. The model reads such a description as absent, so it does not predict that failure; formatting fails only on non-numeric dimension scores here.
- `int(INPUT_TIMEOUT)` parsing: the timeout enters as an integer. A malformed value crashes the constructor, outside `run`.
- Settings.CommentFlag: models `str.lower()` on ASCII letters only. No non-ASCII character lower-cases to a letter of "true", so the comparison with "true" comes out the same.
- Polling.Await: requires a trace long enough to reach the deadline, so the modelled loop always ends. A clock that stalls or runs backwards is not modelled.
