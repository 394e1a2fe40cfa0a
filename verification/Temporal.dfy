/**
 What a workflow can observe of Temporal: activities that end in an outcome, an
 append-only history, version markers, signals and timers. Everything the server
 decides is an input ("script") of the methods that use it, so a theorem about all
 scripts is a theorem about all runs.
 */
module Temporal {

  datatype Option<+T> = None | Some(value: T)

  /** Durations and instants are nanoseconds, as in Go's time package. */
  type Time = int

  datatype Arg = Text(text: string) | Money(amount: real)

  /** An activity function together with its arguments. */
  datatype Call = Call(fn: string, args: seq<Arg>)

  /** What a successful activity returns; `Done` stands for an error-only activity. */
  datatype Reply = Done | Id(id: string) | Kyc(approved: bool, score: int)

  /** How an activity ends once Temporal has stopped retrying it. */
  datatype Outcome = Ok(reply: Reply) | Failed(message: string)

  /** The payload handed to a dead-letter handler. */
  datatype CompensationFailureEvent = CompensationFailureEvent(
    sagaId: string, runId: string, stepName: string, stepIndex: nat,
    errorMessage: string, occurredAt: Time)

  datatype ApprovalResult = ApprovalResult(
    approved: bool, approverId: string, comment: string, approvedAt: Time, timedOut: bool)

  datatype Record =
    | Forward(call: Call, outcome: Outcome)
    | Compensated(index: nat, call: Call, outcome: Outcome)
    | Reported(event: CompensationFailureEvent)
    | Sunk(fn: string, event: CompensationFailureEvent, outcome: Outcome)
    | HandlerPanicked(index: nat)
    | SignalReceived(decision: ApprovalResult)
    | TimerFired

  const DEFAULT_VERSION: int := -1

  /** The workflow context: identity, the history so far, and the recorded version markers. */
  class Context {
    const id: string
    const runId: string
    /** True while the worker re-executes a run that is already in flight. */
    const replaying: bool
    var history: seq<Record>
    var markers: map<string, int>

    constructor (id: string, runId: string, replaying: bool, markers: map<string, int>)
      ensures this.id == id && this.runId == runId && this.replaying == replaying
      ensures history == [] && this.markers == markers
    {
      this.id, this.runId, this.replaying := id, runId, replaying;
      this.history, this.markers := [], markers;
    }

    method Append(r: Record)
      modifies this`history
      ensures history == old(history) + [r]
    {
      history := history + [r];
    }

    /** ExecuteActivity(...).Get(...): the activity is attempted and its outcome recorded. */
    method Execute(call: Call, outcome: Outcome)
      modifies this`history
      ensures history == old(history) + [Forward(call, outcome)]
    {
      Append(Forward(call, outcome));
    }
  }
}
