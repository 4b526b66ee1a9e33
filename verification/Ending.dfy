/** How a run ends: the failure taxonomy and the outcomes of worker.py. */
module Ending {
  import opened Wrappers
  import opened Model

  /** Which queue verb closes a row. */
  datatype Finish = Complete | Release | ReleaseUnattempted | Abandon

  datatype Outcome = OutcomeCompleted | OutcomeTruncated | OutcomeFailed

  /** Every failure the taxonomy has an answer for. */
  datatype Failure =
    | PullRequestTooLarge
    | PayloadError
    | UsageLimited(measured: Option<Usage>)
    | EngineNotStarted
    | EngineFailed(timedOut: bool, usage: Option<Usage>)
    | GitHubError
    | WorkspaceError

  datatype RunEnd = RunEnd(usage: Usage, reason: StopReason, finish: Finish)

  function OrElse(usage: Option<Usage>, default: Usage): Usage {
    if usage.Some? then usage.value else default
  }

  /** `classify_failure` */
  function ClassifyFailure(failure: Failure, reserved: Usage): RunEnd {
    match failure
    case PullRequestTooLarge => RunEnd(reserved, Infrastructure, Abandon)
    case PayloadError => RunEnd(reserved, Infrastructure, Abandon)
    case UsageLimited(measured) => RunEnd(OrElse(measured, Usage(0, Exact)), UsageLimit, ReleaseUnattempted)
    case EngineNotStarted => RunEnd(reserved.(tokens := 0), EngineUnavailable, Release)
    case EngineFailed(timedOut, usage) =>
      RunEnd(OrElse(usage, reserved), if timedOut then Timeout else EngineError, Release)
    case GitHubError => RunEnd(reserved, Infrastructure, Release)
    case WorkspaceError => RunEnd(reserved, Infrastructure, Release)
  }

  /** `_REASON_FOR` and `_finish_for` */
  function EndOf(outcome: Outcome, usage: Usage): RunEnd {
    match outcome
    case OutcomeCompleted => RunEnd(usage, Completed, Complete)
    case OutcomeTruncated => RunEnd(usage, Truncated, Release)
    case OutcomeFailed => RunEnd(usage, Failed, Abandon)
  }

  /** What every run end keeps: only an account's limit hands a row back without its attempt. */
  predicate WellEnded(end: RunEnd) {
    && (end.finish == ReleaseUnattempted <==> end.reason == UsageLimit)
    && end.reason != Lost
    && (end.reason == Refused || end.reason == Closed ==> end.finish == Abandon)
  }
}
