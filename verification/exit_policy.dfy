/** The last step of `run`: the failure policy (`fail_on`) turns the verdict
    and the blocker count into the process exit code. */
module ExitPolicy {
  import ExitCodes
  import opened Report

  /** `fail_on`: "never", "blockers", or anything else, which is treated as
      the default "not-ready". */
  datatype Policy = Never | OnBlockers | OnNotReady

  const NeverText := "never"
  const BlockersText := "blockers"
  const NotReadyText := "not-ready"

  function ParsePolicy(text: string): (p: Policy)
    ensures p == Never <==> text == NeverText
    ensures p == OnBlockers <==> text == BlockersText
    ensures p == OnNotReady <==> text != NeverText && text != BlockersText
  {
    if text == NeverText then Never
    else if text == BlockersText then OnBlockers
    else OnNotReady
  }

  /** The exit code of a run that obtained its report. */
  function ClassifyExit(policy: Policy, verdict: Verdict, blockers: nat): (code: int)
    ensures code in {ExitCodes.Ready, ExitCodes.NotReady, ExitCodes.ConditionallyReady}
    ensures policy == Never ==> code == ExitCodes.Ready
    ensures policy == OnBlockers ==> (code == ExitCodes.NotReady <==> blockers > 0)
    ensures policy == OnBlockers ==> code != ExitCodes.ConditionallyReady
    ensures policy == OnNotReady ==>
              && (code == ExitCodes.Ready <==> verdict == ProductionReady)
              && (code == ExitCodes.ConditionallyReady <==> verdict == ConditionallyReady)
  {
    match policy
    case Never => ExitCodes.Ready
    case OnBlockers => if blockers > 0 then ExitCodes.NotReady else ExitCodes.Ready
    case OnNotReady =>
      if verdict == ProductionReady then ExitCodes.Ready
      else if verdict == ConditionallyReady then ExitCodes.ConditionallyReady
      else ExitCodes.NotReady
  }

  /** The policy table stated over the raw `fail_on` and verdict strings:
      "never" always passes; "blockers" fails exactly when there is a
      blocker, whatever the verdict; every other string, recognised or not,
      passes only PRODUCTION_READY, warns on CONDITIONALLY_READY and fails
      everything else, UNKNOWN included. */
  lemma PolicyTable(policyText: string, verdictText: string, blockers: nat)
    ensures var code := ClassifyExit(ParsePolicy(policyText), ParseVerdict(verdictText), blockers);
            && (policyText == NeverText ==> code == ExitCodes.Ready)
            && (policyText == BlockersText ==>
                  code == (if blockers > 0 then ExitCodes.NotReady else ExitCodes.Ready))
            && (policyText != NeverText && policyText != BlockersText ==>
                  code == (if verdictText == ProductionReadyText then ExitCodes.Ready
                           else if verdictText == ConditionallyReadyText then ExitCodes.ConditionallyReady
                           else ExitCodes.NotReady))
  {
  }

  /** Under "blockers" the verdict plays no part. */
  lemma BlockersPolicyIgnoresVerdict(v1: Verdict, v2: Verdict, blockers: nat)
    ensures ClassifyExit(OnBlockers, v1, blockers) == ClassifyExit(OnBlockers, v2, blockers)
  {
  }

  /** Under "not-ready" the blocker count plays no part. */
  lemma NotReadyPolicyIgnoresBlockers(v: Verdict, b1: nat, b2: nat)
    ensures ClassifyExit(OnNotReady, v, b1) == ClassifyExit(OnNotReady, v, b2)
  {
  }

  /** The comment heading and the default policy disagree on unrecognised
      verdicts: UNKNOWN is headed "conditionally ready" yet fails the build
      with the not-ready code rather than the conditionally-ready one. */
  lemma UnknownVerdictHeadingAndExitDiffer(text: string, blockers: nat)
    requires !KnownVerdictText(text)
    ensures VerdictLabel(ParseVerdict(text)) == ConditionalLabel
    ensures ClassifyExit(OnNotReady, ParseVerdict(text), blockers) == ExitCodes.NotReady
  {
  }
}
