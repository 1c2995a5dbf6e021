/** The six process exit codes of the action and the mapping from a raised
    exception to one of them (the `except` clauses at the end of `run`). */
module ExitCodes {
  import opened Text

  const Ready := 0
  const NotReady := 1
  const ConditionallyReady := 2
  const ApiError := 3
  const AuthError := 4
  const Timeout := 5

  predicate IsExitCode(code: int) {
    Ready <= code <= Timeout
  }

  /** The message `api_request` raises on HTTP 401; `run` recognises an
      authentication failure by finding this phrase in any message. */
  const InvalidKeyPhrase := "Invalid API key"

  /** An exception that escapes from the analysis phase of `run`.
      - TimedOut: the `TimeoutError` raised by the poll loop.
      - Raised: an `Exception(message)` raised by the action itself, or a
        `KeyError` whose message is the quoted key.
      - LibraryError: an exception raised by the JSON decoder or by a Python
        operator on values of the wrong type; the messages of these never
        carry the invalid-key phrase. */
  datatype Failure = TimedOut(limit: int) | Raised(message: string) | LibraryError

  /** The exit code `run` returns for an exception: the timeout clause comes
      first, then the phrase test, then the generic API error. */
  function ExitCodeFor(f: Failure): (code: int)
    ensures IsExitCode(code)
    ensures code == Timeout <==> f.TimedOut?
    ensures code == AuthError <==> f.Raised? && Contains(f.message, InvalidKeyPhrase)
    ensures code == ApiError <==>
              f.LibraryError? || (f.Raised? && !Contains(f.message, InvalidKeyPhrase))
  {
    match f
    case TimedOut(_) => Timeout
    case Raised(m) => if Contains(m, InvalidKeyPhrase) then AuthError else ApiError
    case LibraryError => ApiError
  }

  /** A message made of a fixed prefix in which the phrase cannot begin
      followed by free text is classified by the free text alone. */
  lemma ExitCodeAfterPrefix(pre: string, text: string)
    requires forall i :: 0 <= i < |pre| ==> CannotBeginAt(pre, InvalidKeyPhrase, i)
    ensures ExitCodeFor(Raised(pre + text)) == AuthError <==> Contains(text, InvalidKeyPhrase)
    ensures ExitCodeFor(Raised(pre + text)) == ApiError <==> !Contains(text, InvalidKeyPhrase)
  {
    PrefixCannotStartPattern(pre, text, InvalidKeyPhrase);
    ContainsSkipsPrefix(pre, text, InvalidKeyPhrase);
  }
}
