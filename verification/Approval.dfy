/** The human approval gate: the first signal races a timer. */
module Approval {
  import opened Temporal

  datatype Arrival = Arrival(at: Time, payload: ApprovalResult)

  /** The environment of one gate: when it opens, what the signal channel delivers, and who wins a tie. */
  datatype Gate = Gate(openedAt: Time, arrivals: seq<Arrival>, signalWinsTies: bool)

  datatype Verdict = Decision(result: ApprovalResult) | Invalid(message: string)

  /** The channel's head is ready before the timer is. */
  predicate SignalWins(gate: Gate, timeout: Time) {
    && |gate.arrivals| > 0
    && (gate.arrivals[0].at < gate.openedAt + timeout ||
        (gate.arrivals[0].at == gate.openedAt + timeout && gate.signalWinsTies))
  }

  function Later(a: Time, b: Time): Time { if a < b then b else a }

  /** The gate's effect on the history and its verdict. */
  function GateRecords(id: string, timeout: Time, gate: Gate): seq<Record> {
    if id == "" || timeout <= 0 then []
    else if SignalWins(gate, timeout) then
      [SignalReceived(gate.arrivals[0].payload.(approvedAt := Later(gate.openedAt, gate.arrivals[0].at)))]
    else [TimerFired]
  }

  function VerdictOf(id: string, timeout: Time, gate: Gate): Verdict {
    if id == "" then Invalid("WaitForApproval: ApprovalID is required")
    else if timeout <= 0 then Invalid("WaitForApproval: Timeout must be positive")
    else if SignalWins(gate, timeout) then
      Decision(gate.arrivals[0].payload.(approvedAt := Later(gate.openedAt, gate.arrivals[0].at)))
    else TIMED_OUT
  }

  const TIMED_OUT := Decision(ApprovalResult(false, "", "", 0, true))

  /** What the gate leaves in the signal channel. */
  function Remaining(id: string, timeout: Time, gate: Gate): seq<Arrival> {
    if id != "" && timeout > 0 && SignalWins(gate, timeout) then gate.arrivals[1..] else gate.arrivals
  }

  method WaitForApproval(ctx: Context, approvalId: string, timeout: Time, gate: Gate)
    returns (v: Verdict, channel: seq<Arrival>)
    modifies ctx`history
    ensures ctx.history == old(ctx.history) + GateRecords(approvalId, timeout, gate)
    ensures v == VerdictOf(approvalId, timeout, gate)
    ensures channel == Remaining(approvalId, timeout, gate)
    ensures approvalId == "" ==> v == Invalid("WaitForApproval: ApprovalID is required")
    ensures approvalId != "" && timeout <= 0 ==> v == Invalid("WaitForApproval: Timeout must be positive")
    ensures approvalId != "" && timeout > 0 ==> v.Decision?
  {
    channel := gate.arrivals;
    if approvalId == "" {
      return Invalid("WaitForApproval: ApprovalID is required"), channel;
    }
    if timeout <= 0 {
      return Invalid("WaitForApproval: Timeout must be positive"), channel;
    }
    var result := ApprovalResult(false, "", "", 0, false);
    var timedOut := false;
    if SignalWins(gate, timeout) {
      var head := channel[0];
      channel := channel[1..];
      result := head.payload;
      result := result.(approvedAt := Later(gate.openedAt, head.at));
      ctx.Append(SignalReceived(result));
    } else {
      timedOut := true;
      ctx.Append(TimerFired);
    }
    if timedOut {
      return Decision(ApprovalResult(false, "", "", 0, true)), channel;
    }
    return Decision(result), channel;
  }

  // ---- One gate ----

  predicate InOrder(arrivals: seq<Arrival>) {
    forall i, j :: 0 <= i < j < |arrivals| ==> arrivals[i].at <= arrivals[j].at
  }

  /**
   The outcome of a valid gate, written out: the first signal decides it if it comes before the deadline, or at the
   deadline if the signal wins the tie; the decision is the signal's own, stamped with the moment at which the
   workflow sees it, which is not before the gate opens. Otherwise the timer decides. One record is made, and a
   signal that decides is taken from the channel.
   */
  lemma GateIsExact(id: string, timeout: Time, gate: Gate)
    requires id != "" && timeout > 0
    ensures var v, arrivals, deadline := VerdictOf(id, timeout, gate), gate.arrivals, gate.openedAt + timeout;
      if arrivals != [] && (arrivals[0].at < deadline || (arrivals[0].at == deadline && gate.signalWinsTies)) then
        var p, at := arrivals[0].payload, arrivals[0].at;
        && v == Decision(
             ApprovalResult(
               p.approved, p.approverId, p.comment, if at < gate.openedAt then gate.openedAt else at, p.timedOut))
        && GateRecords(id, timeout, gate) == [SignalReceived(v.result)]
        && Remaining(id, timeout, gate) == arrivals[1..]
      else
        && v == Decision(ApprovalResult(false, "", "", 0, true))
        && GateRecords(id, timeout, gate) == [TimerFired]
        && Remaining(id, timeout, gate) == arrivals
  {
  }

  /** Both invalid requests are refused at once: nothing is recorded and no signal is taken. */
  lemma InvalidRequestsChangeNothing(id: string, timeout: Time, gate: Gate)
    requires id == "" || timeout <= 0
    ensures VerdictOf(id, timeout, gate) ==
      Invalid(if id == "" then "WaitForApproval: ApprovalID is required"
              else "WaitForApproval: Timeout must be positive")
    ensures GateRecords(id, timeout, gate) == [] && Remaining(id, timeout, gate) == gate.arrivals
  {
  }

  /**
   Approval needs an approving signal that came no later than the deadline; an approving signal that came
   in time loses only to an earlier signal that did not approve. If any signal came before the deadline, the
   verdict is the payload of the first one with the workflow's time of decision; if none came up to the
   deadline, it is the time-out. Otherwise only a signal that says so itself yields a timed-out result.
   */
  lemma ApprovalIsTheFirstSignal(id: string, timeout: Time, gate: Gate)
    requires id != "" && timeout > 0 && InOrder(gate.arrivals)
    ensures var v, deadline, n := VerdictOf(id, timeout, gate), gate.openedAt + timeout, |gate.arrivals|;
      && v.Decision?
      && (v.result.approved ==>
            exists k :: 0 <= k < n && gate.arrivals[k].payload.approved && gate.arrivals[k].at <= deadline)
      && (!v.result.approved ==>
            forall k :: 0 <= k < n && gate.arrivals[k].at < deadline && gate.arrivals[k].payload.approved ==>
              exists j :: 0 <= j < k && !gate.arrivals[j].payload.approved)
      && (forall k :: 0 <= k < n && gate.arrivals[k].at < deadline ==>
            v.result == gate.arrivals[0].payload.(approvedAt := Later(gate.openedAt, gate.arrivals[0].at)))
      && ((forall k :: 0 <= k < n ==> gate.arrivals[k].at > deadline) ==> v == TIMED_OUT)
      && (v.result.timedOut && SignalWins(gate, timeout) ==> gate.arrivals[0].payload.timedOut)
      && GateRecords(id, timeout, gate) ==
           if SignalWins(gate, timeout) then [SignalReceived(v.result)] else [TimerFired]
  {
    if SignalWins(gate, timeout) {
      assert gate.arrivals[0].payload.approved || !gate.arrivals[0].payload.approved;
    } else if |gate.arrivals| > 0 {
      assert gate.arrivals[0].at >= gate.openedAt + timeout;
    }
  }

  // ---- Several gates of one workflow: they share the signal channel ----

  /** One call of WaitForApproval: its arguments, when it opens, and who wins a tie. */
  datatype Request = Request(approvalId: string, timeout: Time, openedAt: Time, signalWinsTies: bool)

  function GateOf(q: Request, channel: seq<Arrival>): Gate {
    Gate(q.openedAt, channel, q.signalWinsTies)
  }

  /** The gate is decided by the channel's head, and takes it. */
  predicate Takes(q: Request, channel: seq<Arrival>) {
    q.approvalId != "" && q.timeout > 0 && SignalWins(GateOf(q, channel), q.timeout)
  }

  /** What the gate leaves for later ones. */
  function Left(q: Request, channel: seq<Arrival>): seq<Arrival> {
    Remaining(q.approvalId, q.timeout, GateOf(q, channel))
  }

  /** The verdicts of gates that run one after the other on one channel. */
  function Verdicts(qs: seq<Request>, channel: seq<Arrival>): (vs: seq<Verdict>)
    ensures |vs| == |qs|
  {
    if qs == [] then []
    else
      [VerdictOf(qs[0].approvalId, qs[0].timeout, GateOf(qs[0], channel))] + Verdicts(qs[1..], Left(qs[0], channel))
  }

  /** How many signals the gates take from the channel. */
  function Consumed(qs: seq<Request>, channel: seq<Arrival>): (n: nat)
    ensures n <= |qs| && n <= |channel|
  {
    if qs == [] then 0
    else if Takes(qs[0], channel) then 1 + Consumed(qs[1..], channel[1..])
    else Consumed(qs[1..], channel)
  }

  /** The signals that the first k gates leave. */
  function Unused(qs: seq<Request>, channel: seq<Arrival>, k: nat): seq<Arrival>
    requires k <= |qs|
  {
    channel[Consumed(qs[..k], channel)..]
  }

  lemma AfterTheFirstGate(qs: seq<Request>, channel: seq<Arrival>, k: nat)
    requires 0 < k <= |qs|
    ensures Consumed(qs[..k], channel) ==
      (if Takes(qs[0], channel) then 1 else 0) + Consumed(qs[1..][..k - 1], Left(qs[0], channel))
    ensures Unused(qs, channel, k) == Unused(qs[1..], Left(qs[0], channel), k - 1)
  {
    assert qs[..k][1..] == qs[1..][..k - 1];
  }

  lemma {:induction false} GateSeesTheUnused(qs: seq<Request>, channel: seq<Arrival>, k: nat)
    requires k < |qs|
    ensures Verdicts(qs, channel)[k] ==
      VerdictOf(qs[k].approvalId, qs[k].timeout, GateOf(qs[k], Unused(qs, channel, k)))
  {
    if k > 0 {
      GateSeesTheUnused(qs[1..], Left(qs[0], channel), k - 1);
      AfterTheFirstGate(qs, channel, k);
    }
  }

  lemma {:induction false} GateTakesOne(qs: seq<Request>, channel: seq<Arrival>, k: nat)
    requires k < |qs|
    ensures Consumed(qs[..k + 1], channel) ==
      Consumed(qs[..k], channel) + if Takes(qs[k], Unused(qs, channel, k)) then 1 else 0
  {
    AfterTheFirstGate(qs, channel, k + 1);
    if k > 0 {
      GateTakesOne(qs[1..], Left(qs[0], channel), k - 1);
      AfterTheFirstGate(qs, channel, k);
    }
  }

  /**
   Gate k reads the first signal that no earlier gate took, whichever gate that signal was meant for. No signal
   decides two gates, and none is skipped.
   */
  lemma GateReadsTheFirstUnusedSignal(qs: seq<Request>, channel: seq<Arrival>, k: nat)
    requires k < |qs|
    ensures var used, takes := Consumed(qs[..k], channel), Takes(qs[k], Unused(qs, channel, k));
      && Verdicts(qs, channel)[k] ==
           VerdictOf(qs[k].approvalId, qs[k].timeout, GateOf(qs[k], Unused(qs, channel, k)))
      && Consumed(qs[..k + 1], channel) == used + (if takes then 1 else 0)
      && (takes ==>
            Verdicts(qs, channel)[k] ==
            Decision(channel[used].payload.(approvedAt := Later(qs[k].openedAt, channel[used].at))))
  {
    GateSeesTheUnused(qs, channel, k);
    GateTakesOne(qs, channel, k);
  }

  /**
   Exactly when n gates are decided by the first n signals, each by its own: every request is valid and every
   signal is in time for its gate. One time-out shifts all later gates to signals meant for others.
   */
  lemma {:induction false} EachGateGetsItsOwnSignalIff(qs: seq<Request>, channel: seq<Arrival>)
    ensures Consumed(qs, channel) == |qs| <==>
      |qs| <= |channel| &&
      forall k :: 0 <= k < |qs| ==>
        var deadline := qs[k].openedAt + qs[k].timeout;
        && qs[k].approvalId != "" && qs[k].timeout > 0
        && (channel[k].at < deadline || (channel[k].at == deadline && qs[k].signalWinsTies))
  {
    if qs != [] {
      if Takes(qs[0], channel) {
        EachGateGetsItsOwnSignalIff(qs[1..], channel[1..]);
        assert forall k :: 0 < k < |channel| ==> channel[k] == channel[1..][k - 1];
        assert forall k :: 0 < k < |qs| ==> qs[k] == qs[1..][k - 1];
      }
    }
  }

  /** The requests differ at most in their ids, none of which is empty. */
  predicate SameButForIds(qs: seq<Request>, rs: seq<Request>) {
    && |qs| == |rs|
    && forall k :: 0 <= k < |qs| ==>
         qs[k].approvalId != "" && rs[k].approvalId != "" && qs[k] == rs[k].(approvalId := qs[k].approvalId)
  }

  /** The approval id never decides which signal a gate accepts. */
  lemma {:induction false} IdsAreIrrelevant(qs: seq<Request>, rs: seq<Request>, channel: seq<Arrival>)
    requires SameButForIds(qs, rs)
    ensures Verdicts(qs, channel) == Verdicts(rs, channel) && Consumed(qs, channel) == Consumed(rs, channel)
  {
    if qs != [] {
      IdsAreIrrelevant(qs[1..], rs[1..], Left(qs[0], channel));
    }
  }

  lemma {:induction false} SkippedSignalStays(qs: seq<Request>, channel: seq<Arrival>, j: nat, k: nat)
    requires j <= k <= |qs|
    requires forall i :: j <= i < k ==> !Takes(qs[i], Unused(qs, channel, j))
    ensures Consumed(qs[..k], channel) == Consumed(qs[..j], channel)
    decreases k
  {
    if j < k {
      SkippedSignalStays(qs, channel, j, k - 1);
      GateReadsTheFirstUnusedSignal(qs, channel, k - 1);
    }
  }

  /**
   A signal that the gates j to k - 1 did not take, because it came too late for them or they were invalid, is
   still there for gate k: it decides the first gate for which it is in time, whatever it was sent for.
   */
  lemma SkippedSignalDecidesALaterGate(qs: seq<Request>, channel: seq<Arrival>, j: nat, k: nat)
    requires j <= k < |qs|
    requires forall i :: j <= i < k ==> !Takes(qs[i], Unused(qs, channel, j))
    ensures forall i :: j <= i < k && qs[i].approvalId != "" && qs[i].timeout > 0 ==>
      Verdicts(qs, channel)[i] == TIMED_OUT
    ensures var used := Consumed(qs[..j], channel);
      Takes(qs[k], Unused(qs, channel, j)) ==>
        Verdicts(qs, channel)[k] ==
        Decision(channel[used].payload.(approvedAt := Later(qs[k].openedAt, channel[used].at)))
  {
    forall i | j <= i < k && qs[i].approvalId != "" && qs[i].timeout > 0
      ensures Verdicts(qs, channel)[i] == TIMED_OUT
    {
      SkippedSignalStays(qs, channel, j, i);
      GateReadsTheFirstUnusedSignal(qs, channel, i);
    }
    SkippedSignalStays(qs, channel, j, k);
    GateReadsTheFirstUnusedSignal(qs, channel, k);
  }

  /** The instance of two gates: the signal comes after `first` timed out. */
  lemma {:induction false} LateSignalDecidesTheNextGate(first: Request, second: Request, channel: seq<Arrival>)
    requires first.approvalId != "" && first.timeout > 0 && second.approvalId != "" && second.timeout > 0
    requires |channel| > 0 && channel[0].at > first.openedAt + first.timeout
    ensures Verdicts([first, second], channel) ==
      [TIMED_OUT,
       if SignalWins(GateOf(second, channel), second.timeout)
       then Decision(channel[0].payload.(approvedAt := Later(second.openedAt, channel[0].at))) else TIMED_OUT]
  {
  }
}
