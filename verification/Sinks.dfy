/** What a sink call can answer, what the error policy can decide about it, and what can
    become of a batch (flush.go). */
module Sinks {

  datatype Fate = Flushed | DeadLettered | Dropped

  /** How a sink call ends. CancelError is what it returns because the delivery context
      was cancelled. */
  datatype Answer = Ok | Error | CancelError | Panic

  datatype Action = RetryBatch | DeadLetterBatch | FailBuffer | HandlerPanics
}
