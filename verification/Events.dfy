/** Event envelopes shared by the sink, the journal, the host and the client. */
module Events {
  import opened Basics

  // Identifiers are opaque, compared for equality and (invocations) ordered.
  type RuntimeId = nat
  type InvocationId = nat
  type SessionId = nat

  /** What an invocation is for. */
  datatype Kind = Turn | ManualCompaction | Continuation

  datatype CompactionTrigger = Automatic | Manual | Unknown

  datatype TurnEvent =
    | SessionStarted(session: SessionId)
    | CompactionStarted(trigger: CompactionTrigger)
    | CompactionCompleted(trigger: CompactionTrigger)
    | CompactionFailed(trigger: CompactionTrigger)
    | OtherTurnEvent(payload: nat)

  datatype TurnResult = TurnResult(session: Option<SessionId>, payload: nat)

  type Failure = nat

  datatype RuntimeEvent =
    | InvocationStarted
    | ProviderEvent(event: TurnEvent)
    | InvocationCompleted(result: TurnResult)
    | InvocationFailed(failure: Failure)

  predicate IsTerminal(e: RuntimeEvent) {
    e.InvocationCompleted? || e.InvocationFailed?
  }

  datatype Envelope = Envelope(
    schemaVersion: nat,
    runtime: RuntimeId,
    invocation: InvocationId,
    sequence: nat,
    observedAt: nat,
    event: RuntimeEvent)
}
