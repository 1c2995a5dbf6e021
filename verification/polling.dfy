/** `wait_for_completion`: the poll loop that checks the deadline, asks the
    service for the run's status, and stops on COMPLETE, on FAILED, on a
    failed request or on the deadline.

    Wall-clock time and the service's answers are inputs: a trace whose
    `i`-th observation is the elapsed time read at the top of the `i`-th
    pass and the response the `i`-th status request would receive. Because
    every pass that does not stop sleeps `PollInterval` seconds, successive
    elapsed times grow by at least that much (`Clocked`). */
module Polling {
  import opened Outcomes
  import opened Text
  import opened ExitCodes
  import opened ApiClient

  /** Seconds slept between two polls. */
  const PollInterval := 5

  /** The body of `GET /v1/runs/{id}`: its "status" and "error" members. */
  datatype StatusDoc = StatusDoc(status: Option<string>, error: Option<string>)

  /** One pass of the loop: the elapsed seconds since the loop began, read
      before the deadline check, and the response to the status request. */
  datatype Observation = Observation(elapsed: real, response: Response<StatusDoc>)

  /** How the loop ends: it returns a status document or raises. */
  datatype Stop = Completed(status: StatusDoc) | Aborted(failure: Failure)

  /** The end of the loop and the index of the pass in which it happened. */
  datatype Waited = Waited(stop: Stop, at: nat)

  const AnalysisFailedPrefix := "Analysis failed: "
  const UnknownError := "Unknown error"
  /** `str(KeyError("status"))`, raised when a status document lacks "status". */
  const MissingStatusMessage := "'status'"

  /** The run status a poll reported: present when the request succeeded
      and the document carries a "status" member. */
  function PolledStatus(o: Observation): Option<string> {
    match ApiRequest(o.response)
    case Success(doc) => doc.status
    case Failure(_) => None
  }

  predicate Terminal(s: string) {
    s == "COMPLETE" || s == "FAILED"
  }

  /** One pass of the loop: `None` means "sleep and poll again". */
  function Step(timeout: int, o: Observation): (r: Option<Stop>)
    ensures r == Some(Aborted(TimedOut(timeout))) <==> o.elapsed > timeout as real
    ensures r.None? <==>
              o.elapsed <= timeout as real && PolledStatus(o).Some? && !Terminal(PolledStatus(o).value)
    ensures r.Some? && r.value.Completed? <==>
              o.elapsed <= timeout as real && PolledStatus(o) == Some("COMPLETE")
    ensures r.Some? && r.value.Completed? ==> r.value.status == ApiRequest(o.response).value
    ensures o.elapsed <= timeout as real && ApiRequest(o.response).Failure? ==>
              r == Some(Aborted(ApiRequest(o.response).error))
    ensures o.elapsed <= timeout as real && PolledStatus(o) == Some("FAILED") ==>
              r == Some(Aborted(Raised(AnalysisFailedPrefix
                                       + ApiRequest(o.response).value.error.GetOr(UnknownError))))
    ensures o.elapsed <= timeout as real && ApiRequest(o.response).Success?
            && ApiRequest(o.response).value.status.None? ==>
              r == Some(Aborted(Raised(MissingStatusMessage)))
  {
    if o.elapsed > timeout as real then Some(Aborted(TimedOut(timeout)))
    else
      match ApiRequest(o.response)
      case Failure(f) => Some(Aborted(f))
      case Success(doc) =>
        match doc.status
        case None => Some(Aborted(Raised(MissingStatusMessage)))
        case Some(s) =>
          if s == "COMPLETE" then Some(Completed(doc))
          else if s == "FAILED" then
            Some(Aborted(Raised(AnalysisFailedPrefix + doc.error.GetOr(UnknownError))))
          else None
  }

  /** The clock behind a trace: elapsed time starts non-negative and each
      pass begins at least `PollInterval` seconds after the previous one. */
  ghost predicate Clocked(trace: seq<Observation>) {
    && (|trace| > 0 ==> trace[0].elapsed >= 0.0)
    && forall i :: 0 < i < |trace| ==>
         trace[i].elapsed >= trace[i - 1].elapsed + PollInterval as real
  }

  /** The first pass whose deadline check must fail: `PollInterval` times
      its index exceeds the timeout. That pass never polls, so passes
      `0 .. DeadlinePass(timeout) - 1` are the only ones that can. */
  function DeadlinePass(timeout: int): (k: nat)
    ensures PollInterval * k > timeout
    ensures k > 0 ==> PollInterval * (k - 1) <= timeout
  {
    if timeout < 0 then 0 else timeout / PollInterval + 1
  }

  /** A trace long enough for the loop to reach its deadline. */
  ghost predicate ValidTrace(timeout: int, trace: seq<Observation>) {
    Clocked(trace) && |trace| > DeadlinePass(timeout)
  }

  lemma {:induction false} ElapsedLowerBound(trace: seq<Observation>, i: nat)
    requires Clocked(trace) && i < |trace|
    ensures trace[i].elapsed >= (PollInterval * i) as real
  {
    if i > 0 {
      ElapsedLowerBound(trace, i - 1);
    }
  }

  /** Any pass that meets the deadline, whether it continues, completes or
      raises, comes before `DeadlinePass`. */
  lemma InTimePassPrecedesDeadline(timeout: int, trace: seq<Observation>, i: nat)
    requires ValidTrace(timeout, trace) && i < |trace|
    requires trace[i].elapsed <= timeout as real
    ensures i < DeadlinePass(timeout)
  {
    ElapsedLowerBound(trace, i);
  }

  /** The loop from pass `i` on. */
  function AwaitFrom(timeout: int, trace: seq<Observation>, i: nat): (w: Waited)
    requires ValidTrace(timeout, trace) && i <= DeadlinePass(timeout)
    ensures i <= w.at <= DeadlinePass(timeout)
    ensures Step(timeout, trace[w.at]) == Some(w.stop)
    ensures forall j :: i <= j < w.at ==> Step(timeout, trace[j]).None?
    decreases DeadlinePass(timeout) - i
  {
    match Step(timeout, trace[i])
    case Some(stop) => Waited(stop, i)
    case None =>
      InTimePassPrecedesDeadline(timeout, trace, i);
      AwaitFrom(timeout, trace, i + 1)
  }

  /** `wait_for_completion`: the loop stops at the first pass that does not
      continue; a timeout happens exactly when that pass's deadline check
      fails, and every earlier pass met the deadline. */
  function Await(timeout: int, trace: seq<Observation>): (w: Waited)
    requires ValidTrace(timeout, trace)
    ensures w.at <= DeadlinePass(timeout)
    ensures Step(timeout, trace[w.at]) == Some(w.stop)
    ensures forall j :: 0 <= j < w.at ==> Step(timeout, trace[j]).None?
    ensures w.stop == Aborted(TimedOut(timeout)) <==> trace[w.at].elapsed > timeout as real
    ensures forall j :: 0 <= j < w.at ==> trace[j].elapsed <= timeout as real
  {
    AwaitFrom(timeout, trace, 0)
  }

  /** The number of status requests the loop made: every pass that reached
      its poll, i.e. all of them except one that stopped on the deadline. */
  function PollsMade(w: Waited): nat {
    if w.stop.Aborted? && w.stop.failure.TimedOut? then w.at else w.at + 1
  }

  /** The loop's outcome is the first pass that does not continue. */
  lemma AwaitIsFirstStop(timeout: int, trace: seq<Observation>, k: nat)
    requires ValidTrace(timeout, trace) && k < |trace|
    requires Step(timeout, trace[k]).Some?
    requires forall j :: 0 <= j < k ==> Step(timeout, trace[j]).None?
    ensures Await(timeout, trace) == Waited(Step(timeout, trace[k]).value, k)
  {
  }

  /** The loop returns the first COMPLETE status, in time, when every
      earlier poll reported a non-terminal status; it made exactly `k + 1`
      polls, so none after the COMPLETE one. */
  lemma AwaitReturnsFirstComplete(timeout: int, trace: seq<Observation>, k: nat)
    requires ValidTrace(timeout, trace) && k < |trace|
    requires trace[k].elapsed <= timeout as real && PolledStatus(trace[k]) == Some("COMPLETE")
    requires forall j :: 0 <= j < k ==>
               trace[j].elapsed <= timeout as real
               && PolledStatus(trace[j]).Some? && !Terminal(PolledStatus(trace[j]).value)
    ensures Await(timeout, trace) == Waited(Completed(ApiRequest(trace[k].response).value), k)
    ensures PollsMade(Await(timeout, trace)) == k + 1
  {
    AwaitIsFirstStop(timeout, trace, k);
  }

  /** A FAILED status, reached in time after non-terminal ones, raises the
      analysis-failed exception carrying the server's error message. */
  lemma AwaitRaisesOnFailed(timeout: int, trace: seq<Observation>, k: nat)
    requires ValidTrace(timeout, trace) && k < |trace|
    requires trace[k].elapsed <= timeout as real && PolledStatus(trace[k]) == Some("FAILED")
    requires forall j :: 0 <= j < k ==>
               trace[j].elapsed <= timeout as real
               && PolledStatus(trace[j]).Some? && !Terminal(PolledStatus(trace[j]).value)
    ensures Await(timeout, trace).stop
            == Aborted(Raised(AnalysisFailedPrefix
                              + ApiRequest(trace[k].response).value.error.GetOr(UnknownError)))
    ensures PollsMade(Await(timeout, trace)) == k + 1
  {
    AwaitIsFirstStop(timeout, trace, k);
  }

  /** A run the service never finishes ends in a timeout, after at most
      `DeadlinePass(timeout)` polls. */
  lemma NonTerminalRunTimesOut(timeout: int, trace: seq<Observation>)
    requires ValidTrace(timeout, trace)
    requires forall j :: 0 <= j < |trace| && trace[j].elapsed <= timeout as real ==>
               PolledStatus(trace[j]).Some? && !Terminal(PolledStatus(trace[j]).value)
    ensures Await(timeout, trace).stop == Aborted(TimedOut(timeout))
    ensures PollsMade(Await(timeout, trace)) <= DeadlinePass(timeout)
  {
  }

  /** However the service answers, the loop makes at most
      `DeadlinePass(timeout)` status requests: the deadline pass itself
      never polls. */
  lemma PollsBoundedByTimeout(timeout: int, trace: seq<Observation>)
    requires ValidTrace(timeout, trace)
    ensures PollsMade(Await(timeout, trace)) <= DeadlinePass(timeout)
  {
    var w := Await(timeout, trace);
    if !(w.stop.Aborted? && w.stop.failure.TimedOut?) {
      InTimePassPrecedesDeadline(timeout, trace, w.at);
    }
  }

  /** Observations after the stopping pass are never consulted: two traces
      that agree up to it give the same outcome. */
  lemma AwaitIgnoresLaterObservations(timeout: int, t1: seq<Observation>, t2: seq<Observation>)
    requires ValidTrace(timeout, t1) && ValidTrace(timeout, t2)
    requires Await(timeout, t1).at < |t2|
    requires forall j :: 0 <= j <= Await(timeout, t1).at ==> t1[j] == t2[j]
    ensures Await(timeout, t2) == Await(timeout, t1)
  {
    var w := Await(timeout, t1);
    AwaitIsFirstStop(timeout, t2, w.at);
  }

  /** A status document without "status" raises a `KeyError` whose message
      does not mention the invalid-key phrase, so the run ends with the
      API-error code. */
  lemma MissingStatusExitCode()
    ensures ExitCodeFor(Raised(MissingStatusMessage)) == ApiError
  {
    assert forall i :: 0 <= i < |MissingStatusMessage| ==> MissingStatusMessage[i] != InvalidKeyPhrase[0];
    MissingFirstCharacter(MissingStatusMessage, InvalidKeyPhrase);
  }

  /** The failed-run message is classified by the server's error text
      alone: an authentication exit exactly when it mentions the
      invalid-key phrase. */
  lemma AnalysisFailedExitCode(error: string)
    ensures ExitCodeFor(Raised(AnalysisFailedPrefix + error)) == AuthError
            <==> Contains(error, InvalidKeyPhrase)
    ensures ExitCodeFor(Raised(AnalysisFailedPrefix + error)) in {AuthError, ApiError}
  {
    assert forall i :: 0 <= i < |AnalysisFailedPrefix| ==>
             CannotBeginAt(AnalysisFailedPrefix, InvalidKeyPhrase, i);
    ExitCodeAfterPrefix(AnalysisFailedPrefix, error);
  }
}
