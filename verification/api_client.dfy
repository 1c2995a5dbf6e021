/** `api_request`: how one HTTP exchange with the analysis service becomes
    either the decoded JSON body or a raised exception, and `start_analysis`'s
    normalisation of the run identifier. The transport itself is not
    modelled: a response is an input. */
module ApiClient {
  import opened Outcomes
  import opened Text
  import opened ExitCodes

  /** What `response.json()` yields: a decode error, or a document of the
      shape the endpoint returns together with its "detail" member, if any. */
  datatype Body<D> = NotJson | Json(document: D, detail: Option<string>)

  datatype Response<D> = Response(status: int, body: Body<D>, text: string)

  /** The four ways `api_request` treats an HTTP status. */
  datatype StatusClass = Accepted | Unauthorized | RateLimited | Rejected

  function ClassifyStatus(status: int): (c: StatusClass)
    ensures c == Unauthorized <==> status == 401
    ensures c == RateLimited <==> status == 429
    ensures c == Rejected <==> status >= 400 && status != 401 && status != 429
    ensures c == Accepted <==> status < 400
  {
    if status == 401 then Unauthorized
    else if status == 429 then RateLimited
    else if status >= 400 then Rejected
    else Accepted
  }

  const RateLimitMessage := "Rate limit exceeded"
  const ApiErrorPrefix := "API error: "

  /** The message of the exception raised for a rejected request: the
      server's "detail" member, or the raw body when there is none. */
  function RejectionMessage(detail: Option<string>, text: string): string {
    ApiErrorPrefix + detail.GetOr(text)
  }

  /** `api_request` after the response has arrived. */
  function ApiRequest<D>(r: Response<D>): (res: Result<D, Failure>)
    ensures res.Success? <==> r.status < 400 && r.body.Json?
    ensures res.Success? ==> res.value == r.body.document
    ensures res.Failure? ==> !res.error.TimedOut?
    ensures r.status == 401 ==> res == Failure(Raised(InvalidKeyPhrase))
    ensures r.status == 429 ==> res == Failure(Raised(RateLimitMessage))
    ensures ClassifyStatus(r.status) == Rejected && r.body.Json? ==>
              res == Failure(Raised(RejectionMessage(r.body.detail, r.text)))
    ensures r.status != 401 && r.status != 429 && r.body.NotJson? ==>
              res == Failure(LibraryError)
  {
    match ClassifyStatus(r.status)
    case Unauthorized => Failure(Raised(InvalidKeyPhrase))
    case RateLimited => Failure(Raised(RateLimitMessage))
    case Rejected =>
      (match r.body
       case NotJson => Failure(LibraryError)
       case Json(_, detail) => Failure(Raised(RejectionMessage(detail, r.text))))
    case Accepted =>
      (match r.body
       case NotJson => Failure(LibraryError)
       case Json(doc, _) => Success(doc))
  }

  /** The exit code `run` ends with when a request fails: 401 is an
      authentication error, 429 an API error, and any other rejection is an
      authentication error exactly when the server's message mentions the
      invalid-key phrase. */
  lemma RequestFailureExitCode<D>(r: Response<D>)
    requires ApiRequest(r).Failure?
    ensures r.status == 401 ==> ExitCodeFor(ApiRequest(r).error) == AuthError
    ensures r.status == 429 ==> ExitCodeFor(ApiRequest(r).error) == ApiError
    ensures ClassifyStatus(r.status) == Rejected && r.body.Json? ==>
              (ExitCodeFor(ApiRequest(r).error) == AuthError
               <==> Contains(r.body.detail.GetOr(r.text), InvalidKeyPhrase))
    ensures ExitCodeFor(ApiRequest(r).error) in {ApiError, AuthError}
  {
    if r.status == 401 {
      InvalidKeyMessageIsAuthError();
    } else if r.status == 429 {
      RateLimitMessageIsApiError();
    } else if r.body.Json? {
      ApiErrorPrefixHarmless();
      ExitCodeAfterPrefix(ApiErrorPrefix, r.body.detail.GetOr(r.text));
    }
  }

  /** The 401 message is recognised by `run` as an authentication error. */
  lemma InvalidKeyMessageIsAuthError()
    ensures ExitCodeFor(Raised(InvalidKeyPhrase)) == AuthError
  {
  }

  /** The 429 message does not mention the invalid-key phrase. */
  lemma RateLimitMessageIsApiError()
    ensures ExitCodeFor(Raised(RateLimitMessage)) == ApiError
  {
    assert forall i :: 0 <= i < |RateLimitMessage| ==> RateLimitMessage[i] != InvalidKeyPhrase[0];
    MissingFirstCharacter(RateLimitMessage, InvalidKeyPhrase);
  }

  /** The phrase cannot begin inside the fixed "API error: " prefix. */
  lemma ApiErrorPrefixHarmless()
    ensures forall i :: 0 <= i < |ApiErrorPrefix| ==> CannotBeginAt(ApiErrorPrefix, InvalidKeyPhrase, i)
  {
  }

  /** The body of `POST /v1/analyze/repo`: the identifier may come under
      either of two keys. */
  datatype StartDoc = StartDoc(runId: Option<string>, id: Option<string>)

  /** `result.get("run_id") or result.get("id")`. */
  function NormaliseRunId(doc: StartDoc): (r: Option<string>)
    ensures r == doc.runId || r == doc.id
    ensures Truthy(r) <==> Truthy(doc.runId) || Truthy(doc.id)
    ensures Truthy(doc.runId) ==> r == doc.runId
  {
    if Truthy(doc.runId) then doc.runId else doc.id
  }

  /** The service's actual reply carries only "id", which is what the run
      id becomes; an empty "run_id" is skipped in the same way. */
  lemma RunIdFallsBackToId(doc: StartDoc)
    requires doc.runId.None? || doc.runId == Some("")
    ensures NormaliseRunId(doc) == doc.id
  {
  }
}
