/** Job kinds and their dispatch policy, shared by the queue modules. */
module QueueTypes {
  datatype Kind =
    | Intraday | Fundamentals | Earnings | Actions | Signals | TradingviewHistory | Experiment
    | ExperimentForward | Backtest | Walkforward | CapitalSensitivity | Sweep
    | Unlisted(name: string)

  datatype State = Queued | Pending | Running | Done | Failed | Superseded

  predicate ParallelSafe(kind: Kind) {
    kind.Backtest? || kind.Walkforward? || kind.CapitalSensitivity? || kind.Sweep?
  }

  predicate ReleasesWriter(kind: Kind) {
    kind.Intraday? || kind.Fundamentals? || kind.Earnings? || kind.Actions? || kind.Signals? || kind.TradingviewHistory?
  }

  predicate Supersedes(kind: Kind) {
    kind.Intraday?
  }

  predicate Archive(kind: Kind) {
    kind.Intraday? || kind.Fundamentals? || kind.Earnings? || kind.Actions? || kind.TradingviewHistory?
  }

  /** The kind's wall-clock ceiling in seconds. */
  function DefaultTimeout(kind: Kind): int {
    match kind
    case Actions => 21600
    case Walkforward => 25200
    case CapitalSensitivity => 86400
    case Sweep => 50400
    case _ => 14400
  }
}
