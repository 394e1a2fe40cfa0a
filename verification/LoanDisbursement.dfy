/** The reference workflow: versioned credit check, approval gate, reservation, disbursement, notification. */
module LoanDisbursement {
  import opened Temporal
  import opened Sequences
  import opened Sagas
  import opened SagaRuns
  import opened Approval
  import opened Versioning

  const SCORE_CHECK := "add-kyc-score-check-2024-01"
  const APPROVAL_LIMIT := 100000.0
  const MINIMUM_SCORE := 600
  const APPROVAL_TIMEOUT: Time := 48 * 3600 * 1000000000
  const RELEASE_REASON := "disbursement failed — rolling back"

  datatype LoanInput = LoanInput(
    loanId: string, borrowerId: string, amount: real, account: string, requiresApproval: bool)

  /** Everything the environment decides during one run. */
  datatype LoanScript = LoanScript(
    kyc: Outcome, gate: Gate, reserve: Outcome, disburse: Outcome, notify: Outcome,
    unwind: UnwindScript, finishedAt: Time)

  datatype LoanOutcome =
    | Disbursed(transactionId: string, disbursedAt: Time)
    | Refused(error: string)
    | TaskPanicked

  datatype LoanResult = LoanResult(history: seq<Record>, outcome: LoanOutcome)

  function KycCall(input: LoanInput): Call { Call("KYCCheckActivity", [Text(input.borrowerId)]) }

  function ReserveCall(input: LoanInput): Call {
    Call("ReserveFundsActivity", [Text(input.loanId), Money(input.amount)])
  }

  function DisburseCall(input: LoanInput, reservationId: string): Call {
    Call("DisbursementActivity", [Text(input.loanId), Text(reservationId), Money(input.amount), Text(input.account)])
  }

  function ReleaseCall(reservationId: string): Call {
    Call("ReleaseReservationActivity", [Text(reservationId), Text(RELEASE_REASON)])
  }

  function NotifyCall(input: LoanInput, transactionId: string): Call {
    Call("NotifyBorrowerActivity", [Text(input.borrowerId), Text(input.loanId), Text(transactionId)])
  }

  function Approved(kyc: Outcome): bool { kyc.Ok? && kyc.reply.Kyc? && kyc.reply.approved }

  function Score(kyc: Outcome): int { if kyc.Ok? && kyc.reply.Kyc? then kyc.reply.score else 0 }

  predicate NeedsApproval(input: LoanInput) {
    input.requiresApproval || input.amount > APPROVAL_LIMIT
  }

  // ---- The run as a value: vetting, then the saga pattern, then a best-effort notification ----

  datatype Vetted = Vetted(history: seq<Record>, error: Option<string>)

  function Vetting(input: LoanInput, scoreCheck: bool, script: LoanScript): Vetted {
    var asked := [Forward(KycCall(input), script.kyc)];
    if script.kyc.Failed? then Vetted(asked, Some("KYC check failed: " + script.kyc.message))
    else if !Approved(script.kyc) then Vetted(asked, Some("BorrowerBlacklisted"))
    else if scoreCheck && Score(script.kyc) < MINIMUM_SCORE then Vetted(asked, Some("InsufficientCreditScore"))
    else if !NeedsApproval(input) then Vetted(asked, None)
    else
      var gated := asked + GateRecords(input.loanId, APPROVAL_TIMEOUT, script.gate);
      match VerdictOf(input.loanId, APPROVAL_TIMEOUT, script.gate)
      case Invalid(message) => Vetted(gated, Some(message))
      case Decision(d) => Vetted(gated, if d.approved then None else Some("LoanRejected"))
  }

  function LoanPlan(input: LoanInput, reservationId: string): Plan {
    Plan([Step(ReserveCall(input), "ReleaseReservationActivity", [Text(RELEASE_REASON)], "reserve funds failed")],
         Some(Commit(DisburseCall(input, reservationId), "disbursement failed")))
  }

  function SagaScript(script: LoanScript): RunScript {
    RunScript(i => if i == 0 then script.reserve else script.disburse, script.unwind)
  }

  function SagaPart(input: LoanInput, owner: Owner, script: LoanScript): RunResult {
    Run(LoanPlan(input, IdOf(script.reserve)), owner, SagaScript(script))
  }

  function ReservedStack(owner: Owner, script: LoanScript): Stack {
    Stack(owner.id, owner.runId, [Register(ReleaseCall(IdOf(script.reserve)))], owner.handler)
  }

  function ReservedAndDisbursed(input: LoanInput, script: LoanScript): seq<Record> {
    [Forward(ReserveCall(input), script.reserve)] +
    [Forward(DisburseCall(input, IdOf(script.reserve)), script.disburse)]
  }

  /** From the reservation on: `SettlementIsASagaRun` shows it is the saga pattern plus the notification. */
  function Settlement(input: LoanInput, owner: Owner, script: LoanScript): LoanResult {
    var disbursed := ReservedAndDisbursed(input, script);
    if script.reserve.Failed? then
      LoanResult([Forward(ReserveCall(input), script.reserve)],
                 Refused("reserve funds failed" + ": " + script.reserve.message))
    else if script.disburse.Failed? then
      LoanResult(disbursed + Unwind(ReservedStack(owner, script), 1, script.unwind),
                 Refused("disbursement failed" + ": " + script.disburse.message))
    else
      LoanResult(disbursed + [Forward(NotifyCall(input, IdOf(script.disburse)), script.notify)],
                 Disbursed(IdOf(script.disburse), script.finishedAt))
  }

  function LoanRun(input: LoanInput, owner: Owner, scoreCheck: bool, script: LoanScript): LoanResult {
    var vetted := Vetting(input, scoreCheck, script);
    if vetted.error.Some? then LoanResult(vetted.history, Refused(vetted.error.value))
    else
      var settled := Settlement(input, owner, script);
      LoanResult(vetted.history + settled.history, settled.outcome)
  }

  // ---- The workflow ----

  method Vet(ctx: Context, input: LoanInput, scoreCheck: bool, script: LoanScript) returns (err: Option<string>)
    modifies ctx`history
    ensures ctx.history == old(ctx.history) + Vetting(input, scoreCheck, script).history
    ensures err == Vetting(input, scoreCheck, script).error
  {
    ctx.Execute(KycCall(input), script.kyc);
    if script.kyc.Failed? {
      return Some("KYC check failed: " + script.kyc.message);
    }
    if !Approved(script.kyc) {
      return Some("BorrowerBlacklisted");
    }
    if scoreCheck {
      if Score(script.kyc) < MINIMUM_SCORE {
        return Some("InsufficientCreditScore");
      }
    }
    if input.requiresApproval || input.amount > APPROVAL_LIMIT {
      var verdict, _ := WaitForApproval(ctx, input.loanId, APPROVAL_TIMEOUT, script.gate);
      if verdict.Invalid? {
        return Some(verdict.message);
      }
      if !verdict.result.approved {
        return Some("LoanRejected");
      }
    }
    err := None;
  }

  /** The steps from the reservation on, including the deferred rollback. */
  method ReserveAndDisburse(ctx: Context, saga: Saga, input: LoanInput, script: LoanScript)
    returns (outcome: LoanOutcome)
    requires saga.ctx == ctx && saga.compensations == [] && !saga.completed
    modifies ctx`history, saga
    ensures ctx.history == old(ctx.history) +
      Settlement(input, Owner(saga.id, saga.runId, old(saga.dlqHandler)), script).history
    ensures outcome == Settlement(input, Owner(saga.id, saga.runId, old(saga.dlqHandler)), script).outcome
  {
    ghost var before := ctx.history;
    ctx.Execute(ReserveCall(input), script.reserve);
    if script.reserve.Failed? {
      saga.Compensate(script.unwind);
      return Refused("reserve funds failed" + ": " + script.reserve.message);
    }
    var reservationId := IdOf(script.reserve);
    saga.AddCompensation(ReleaseCall(reservationId));
    saga.SetPivot();
    ctx.Execute(DisburseCall(input, reservationId), script.disburse);
    ghost var disbursed := ReservedAndDisbursed(input, script);
    assert ctx.history == before + disbursed;
    if script.disburse.Failed? {
      ghost var stack := ReservedStack(Owner(saga.id, saga.runId, saga.dlqHandler), script);
      assert saga.Contents() == stack;
      saga.Compensate(script.unwind);
      Associate(before, disbursed, Unwind(stack, 1, script.unwind));
      return Refused("disbursement failed" + ": " + script.disburse.message);
    }
    var transactionId := IdOf(script.disburse);
    ctx.Execute(NotifyCall(input, transactionId), script.notify);
    Associate(before, disbursed, [Forward(NotifyCall(input, transactionId), script.notify)]);
    saga.Complete();
    saga.Compensate(script.unwind);
    return Disbursed(transactionId, script.finishedAt);
  }

  /** The workflow after its version decision. */
  method Process(ctx: Context, input: LoanInput, scoreCheck: bool, script: LoanScript) returns (outcome: LoanOutcome)
    modifies ctx`history
    ensures var r := LoanRun(input, Owner(ctx.id, ctx.runId, Nil), scoreCheck, script);
      outcome == r.outcome && ctx.history == old(ctx.history) + r.history
  {
    ghost var before := ctx.history;
    var saga := new Saga(ctx, []);
    var err := Vet(ctx, input, scoreCheck, script);
    if err.Some? {
      saga.Compensate(script.unwind);
      return Refused(err.value);
    }
    outcome := ReserveAndDisburse(ctx, saga, input, script);
    Associate(before, Vetting(input, scoreCheck, script).history,
              Settlement(input, Owner(ctx.id, ctx.runId, Nil), script).history);
  }

  method LoanDisbursementWorkflow(ctx: Context, input: LoanInput, script: LoanScript) returns (outcome: LoanOutcome)
    modifies ctx`history, ctx`markers
    ensures var defined := DefineOne(Session(old(ctx.markers), map[]), ctx.replaying, Definition(SCORE_CHECK, 1));
      if defined.None? then outcome == TaskPanicked && ctx.history == old(ctx.history)
      else
        var r := LoanRun(input, Owner(ctx.id, ctx.runId, Nil), Enabled(defined.value.results, SCORE_CHECK), script);
        outcome == r.outcome && ctx.history == old(ctx.history) + r.history
  {
    var changes := new ChangeSet(ctx);
    var panicked := changes.Define(SCORE_CHECK, 1);
    if panicked {
      return TaskPanicked;
    }
    outcome := Process(ctx, input, changes.IsEnabled(SCORE_CHECK), script);
  }

  // ---- Theorems about every run ----

  /** The settlement is one instance of the saga pattern, followed on success by the notification. */
  lemma SettlementIsASagaRun(input: LoanInput, owner: Owner, script: LoanScript)
    ensures var r := SagaPart(input, owner, script);
      Settlement(input, owner, script) ==
        if r.error.Some? then LoanResult(r.history, Refused(r.error.value))
        else LoanResult(r.history + [Forward(NotifyCall(input, IdOf(script.disburse)), script.notify)],
                        Disbursed(IdOf(script.disburse), script.finishedAt))
  {
    var plan, run := LoanPlan(input, IdOf(script.reserve)), SagaScript(script);
    assert ForwardHistory(plan.steps, 0, run.forward) == [];
    assert ForwardHistory(plan.steps, 1, run.forward) == [Forward(ReserveCall(input), script.reserve)];
    assert UndoCall(plan.steps[0], script.reserve) == ReleaseCall(IdOf(script.reserve));
    assert Registered(plan.steps, 1, run.forward) == [Register(ReleaseCall(IdOf(script.reserve)))];
    assert Registered(plan.steps, 0, run.forward) == [];
  }

  /** Vetting passes exactly when KYC, the score (if the version enables it) and the gate (if needed) all pass. */
  predicate Cleared(input: LoanInput, scoreCheck: bool, script: LoanScript) {
    && Approved(script.kyc)
    && (scoreCheck ==> Score(script.kyc) >= MINIMUM_SCORE)
    && (NeedsApproval(input) ==>
          input.loanId != "" && SignalWins(script.gate, APPROVAL_TIMEOUT) && script.gate.arrivals[0].payload.approved)
  }

  lemma VettingIsClearance(input: LoanInput, scoreCheck: bool, script: LoanScript)
    ensures Vetting(input, scoreCheck, script).error.None? <==> Cleared(input, scoreCheck, script)
    ensures forall r :: r in Vetting(input, scoreCheck, script).history ==>
      r.SignalReceived? || r.TimerFired? || r == Forward(KycCall(input), script.kyc)
  {
  }

  lemma UnwindNeverGoesForward(owner: Owner, script: LoanScript)
    ensures forall r :: r in Unwind(ReservedStack(owner, script), 1, script.unwind) ==> !r.Forward?
  {
    assert Unwind(ReservedStack(owner, script), 0, script.unwind) == [];
  }

  predicate IsDisbursement(r: Record) {
    r.Forward? && r.call.fn == "DisbursementActivity"
  }

  /** In the saga part, only the record after a successful reservation is a disbursement. */
  lemma DisbursementFollowsReservation(input: LoanInput, owner: Owner, script: LoanScript)
    ensures var tail := Settlement(input, owner, script).history;
      && tail[..1] == [Forward(ReserveCall(input), script.reserve)]
      && (script.reserve.Ok? ==>
            |tail| > 1 && tail[1] == Forward(DisburseCall(input, IdOf(script.reserve)), script.disburse))
      && forall i :: 0 <= i < |tail| && IsDisbursement(tail[i]) ==> i == 1 && script.reserve.Ok?
  {
    UnwindNeverGoesForward(owner, script);
    var tail := Settlement(input, owner, script).history;
    if script.reserve.Ok? && script.disburse.Failed? {
      var unwound := Unwind(ReservedStack(owner, script), 1, script.unwind);
      assert forall i :: 2 <= i < |tail| ==> tail[i] == unwound[i - 2];
    }
  }

  /** Where the disbursement sits in a history, if it is there at all. */
  lemma DisbursementPosition(input: LoanInput, owner: Owner, scoreCheck: bool, script: LoanScript, p: nat)
    requires p < |LoanRun(input, owner, scoreCheck, script).history|
    requires IsDisbursement(LoanRun(input, owner, scoreCheck, script).history[p])
    ensures Cleared(input, scoreCheck, script) && script.reserve.Ok?
    ensures var vetted := Vetting(input, scoreCheck, script).history;
      && p == |vetted| + 1
      && LoanRun(input, owner, scoreCheck, script).history[..p] ==
           vetted + [Forward(ReserveCall(input), script.reserve)]
      && LoanRun(input, owner, scoreCheck, script).history[p] ==
           Forward(DisburseCall(input, IdOf(script.reserve)), script.disburse)
  {
    var vetted := Vetting(input, scoreCheck, script);
    var tail := Settlement(input, owner, script).history;
    var h := LoanRun(input, owner, scoreCheck, script).history;
    VettingIsClearance(input, scoreCheck, script);
    assert forall i :: 0 <= i < |vetted.history| ==> !IsDisbursement(vetted.history[i]);
    DisbursementFollowsReservation(input, owner, script);
    assert vetted.history <= h;
    assert vetted.error.None? ==> forall i :: 0 <= i < |tail| ==> h[|vetted.history| + i] == tail[i];
  }

  /**
   Every attempted disbursement comes after an approving KYC answer for the borrower (with a score of at least 600
   whenever the recorded version enables the check), after the reservation it names, for the amount and the account
   of the loan, and, whenever the caller or the amount asks for it, after an approving signal within 48 hours.
   */
  lemma DisbursementIsGuarded(input: LoanInput, owner: Owner, scoreCheck: bool, script: LoanScript, p: nat)
    requires p < |LoanRun(input, owner, scoreCheck, script).history|
    requires IsDisbursement(LoanRun(input, owner, scoreCheck, script).history[p])
    ensures var h := LoanRun(input, owner, scoreCheck, script).history;
      && (exists score ::
            && Forward(Call("KYCCheckActivity", [Text(input.borrowerId)]), Ok(Kyc(true, score))) in h[..p]
            && (scoreCheck ==> score >= 600))
      && (exists reply ::
            && Forward(Call("ReserveFundsActivity", [Text(input.loanId), Money(input.amount)]), Ok(reply)) in h[..p]
            && h[p].call == Call("DisbursementActivity",
                 [Text(input.loanId), Text(if reply.Id? then reply.id else ""), Money(input.amount),
                  Text(input.account)]))
      && (input.requiresApproval || input.amount > 100000.0 ==>
            && (exists d :: SignalReceived(d) in h[..p] && d.approved)
            && script.gate.arrivals != []
            && script.gate.arrivals[0].at <= script.gate.openedAt + 48 * 3600 * 1000000000)
  {
    DisbursementPosition(input, owner, scoreCheck, script, p);
    var vetted := Vetting(input, scoreCheck, script);
    var before := LoanRun(input, owner, scoreCheck, script).history[..p];
    VettingIsClearance(input, scoreCheck, script);
    assert vetted.history[0] == Forward(KycCall(input), Ok(Kyc(true, Score(script.kyc))));
    assert before[0] == vetted.history[0];
    assert before[|vetted.history|] == Forward(ReserveCall(input), Ok(script.reserve.reply));
    if NeedsApproval(input) {
      var d := VerdictOf(input.loanId, APPROVAL_TIMEOUT, script.gate).result;
      assert vetted.history[1] == SignalReceived(d);
      assert before[1] == vetted.history[1];
    }
  }

  /**
   The disbursement is attempted exactly when KYC approves, with a score of at least 600 if the version enables the
   check; an approving signal comes first and within 48 hours if the caller or an amount above 100,000 asks for
   one; and the reservation succeeds.
   */
  lemma DisbursedIffCleared(input: LoanInput, owner: Owner, scoreCheck: bool, script: LoanScript)
    ensures
      (exists p :: 0 <= p < |LoanRun(input, owner, scoreCheck, script).history| &&
         IsDisbursement(LoanRun(input, owner, scoreCheck, script).history[p]))
      <==>
      && script.kyc.Ok? && script.kyc.reply.Kyc? && script.kyc.reply.approved
      && (scoreCheck ==> script.kyc.reply.score >= 600)
      && (input.requiresApproval || input.amount > 100000.0 ==>
            var deadline, arrivals := script.gate.openedAt + 48 * 3600 * 1000000000, script.gate.arrivals;
            && input.loanId != "" && arrivals != [] && arrivals[0].payload.approved
            && (arrivals[0].at < deadline || (arrivals[0].at == deadline && script.gate.signalWinsTies)))
      && script.reserve.Ok?
  {
    var h := LoanRun(input, owner, scoreCheck, script).history;
    VettingIsClearance(input, scoreCheck, script);
    if Cleared(input, scoreCheck, script) && script.reserve.Ok? {
      DisbursementFollowsReservation(input, owner, script);
      assert IsDisbursement(h[|Vetting(input, scoreCheck, script).history| + 1]);
    }
    if p: nat :| p < |h| && IsDisbursement(h[p]) {
      DisbursementPosition(input, owner, scoreCheck, script, p);
    }
  }

  // ---- The run, written out ----

  /** The first part: KYC, score, and gate, with every refusal. */
  lemma VettingIsExact(input: LoanInput, scoreCheck: bool, script: LoanScript)
    ensures var asked := Forward(Call("KYCCheckActivity", [Text(input.borrowerId)]), script.kyc);
      var gate := script.gate;
      var deadline := gate.openedAt + 48 * 3600 * 1000000000;
      Vetting(input, scoreCheck, script) ==
        if script.kyc.Failed? then Vetted([asked], Some("KYC check failed: " + script.kyc.message))
        else if !(script.kyc.reply.Kyc? && script.kyc.reply.approved) then Vetted([asked], Some("BorrowerBlacklisted"))
        else if scoreCheck && script.kyc.reply.score < 600 then Vetted([asked], Some("InsufficientCreditScore"))
        else if !input.requiresApproval && input.amount <= 100000.0 then Vetted([asked], None)
        else if input.loanId == "" then Vetted([asked], Some("WaitForApproval: ApprovalID is required"))
        else if gate.arrivals == [] || gate.arrivals[0].at > deadline ||
                (gate.arrivals[0].at == deadline && !gate.signalWinsTies) then
          Vetted([asked, TimerFired], Some("LoanRejected"))
        else
          var p, at := gate.arrivals[0].payload, gate.arrivals[0].at;
          var seen := if at < gate.openedAt then gate.openedAt else at;
          Vetted([asked, SignalReceived(ApprovalResult(p.approved, p.approverId, p.comment, seen, p.timedOut))],
                 if p.approved then None else Some("LoanRejected"))
  {
  }

  /** The second part, without a dead-letter handler: reservation, disbursement, notification or release. */
  lemma SettlementIsExact(input: LoanInput, owner: Owner, script: LoanScript)
    requires owner.handler.Nil?
    ensures var reservationId := if script.reserve.Ok? && script.reserve.reply.Id? then script.reserve.reply.id else "";
      var transactionId := if script.disburse.Ok? && script.disburse.reply.Id? then script.disburse.reply.id else "";
      var reserved := Forward(
        Call("ReserveFundsActivity", [Text(input.loanId), Money(input.amount)]), script.reserve);
      var disbursed := Forward(
        Call("DisbursementActivity",
             [Text(input.loanId), Text(reservationId), Money(input.amount), Text(input.account)]), script.disburse);
      var notified := Forward(
        Call("NotifyBorrowerActivity", [Text(input.borrowerId), Text(input.loanId), Text(transactionId)]),
        script.notify);
      var released := Compensated(
        0,
        Call("ReleaseReservationActivity", [Text(reservationId), Text("disbursement failed — rolling back")]),
        script.unwind.outcome(0));
      Settlement(input, owner, script) ==
        if script.reserve.Failed? then
          LoanResult([reserved], Refused("reserve funds failed: " + script.reserve.message))
        else if script.disburse.Failed? then
          LoanResult([reserved, disbursed, released], Refused("disbursement failed: " + script.disburse.message))
        else
          LoanResult([reserved, disbursed, notified], LoanOutcome.Disbursed(transactionId, script.finishedAt))
  {
    assert "reserve funds failed" + ": " == "reserve funds failed: ";
    assert "disbursement failed" + ": " == "disbursement failed: ";
    assert Unwind(ReservedStack(owner, script), 0, script.unwind) == [];
  }

  /** The whole run is the first part, followed by the second exactly if the first refuses nothing. */
  lemma LoanIsExact(input: LoanInput, owner: Owner, scoreCheck: bool, script: LoanScript)
    ensures var r, v, t := LoanRun(input, owner, scoreCheck, script), Vetting(input, scoreCheck, script),
        Settlement(input, owner, script);
      && v.history <= r.history
      && (v.error.Some? ==> r.history == v.history && r.outcome == Refused(v.error.value))
      && (v.error.None? ==> r.history == v.history + t.history && r.outcome == t.outcome)
  {
  }

  /**
   A run that starts on the new code, with no version recorded, checks the score: below 600 it is refused, whatever
   else happens. A run in flight that has no version recorded stays on the old path, whatever its score.
   */
  lemma FreshRunsCheckTheScore(markers: map<string, int>, input: LoanInput, owner: Owner, script: LoanScript)
    requires "add-kyc-score-check-2024-01" !in markers
    requires script.kyc.Ok? && script.kyc.reply.Kyc? && script.kyc.reply.approved
    ensures var started := DefineOne(Session(markers, map[]), false, Definition(SCORE_CHECK, 1));
      && started.Some?
      && (script.kyc.reply.score < 600 ==>
            LoanRun(input, owner, Enabled(started.value.results, SCORE_CHECK), script).outcome ==
            Refused("InsufficientCreditScore"))
    ensures var inFlight := DefineOne(Session(markers, map[]), true, Definition(SCORE_CHECK, 1));
      && inFlight.Some?
      && LoanRun(input, owner, Enabled(inFlight.value.results, SCORE_CHECK), script).outcome !=
           Refused("InsufficientCreditScore")
  {
    var started := DefineOne(Session(markers, map[]), false, Definition(SCORE_CHECK, 1)).value;
    var inFlight := DefineOne(Session(markers, map[]), true, Definition(SCORE_CHECK, 1)).value;
    EnabledIffVersioned(started.results, SCORE_CHECK);
    EnabledIffVersioned(inFlight.results, SCORE_CHECK);
    VettingIsExact(input, true, script);
    VettingIsExact(input, false, script);
    RefusalsDiffer(script);
  }

  /** No other refusal of a settlement reads like that of the score check. */
  lemma RefusalsDiffer(script: LoanScript)
    ensures script.reserve.Failed? ==>
      "reserve funds failed" + ": " + script.reserve.message != "InsufficientCreditScore"
    ensures script.disburse.Failed? ==>
      "disbursement failed" + ": " + script.disburse.message != "InsufficientCreditScore"
  {
    if script.reserve.Failed? {
      assert ("reserve funds failed" + ": " + script.reserve.message)[0] == 'r' != "InsufficientCreditScore"[0];
    }
    if script.disburse.Failed? {
      assert ("disbursement failed" + ": " + script.disburse.message)[0] == 'd' != "InsufficientCreditScore"[0];
    }
  }

  lemma {:induction false} NoCompensationsNoAttempts(h: seq<Record>)
    requires forall r :: r in h ==> !r.Compensated?
    ensures Attempts(h) == []
  {
    if h != [] {
      NoCompensationsNoAttempts(h[1..]);
    }
  }

  lemma SettlementAttempts(input: LoanInput, owner: Owner, script: LoanScript)
    ensures Attempts(Settlement(input, owner, script).history) ==
      if script.reserve.Ok? && script.disburse.Failed? then [ReleaseCall(IdOf(script.reserve))] else []
  {
    if script.reserve.Ok? && script.disburse.Failed? {
      var disbursed := ReservedAndDisbursed(input, script);
      var stack := ReservedStack(owner, script);
      NoCompensationsNoAttempts(disbursed);
      ProjectionsDistribute(disbursed, Unwind(stack, 1, script.unwind));
      AttemptsAreTheReversedStack(stack, 1, script.unwind);
      assert ReversedCalls(stack.compensations[..1]) == [ReleaseCall(IdOf(script.reserve))];
    } else {
      NoCompensationsNoAttempts(Settlement(input, owner, script).history);
    }
  }

  /** Only the settlement attempts compensations. */
  lemma LoanAttempts(input: LoanInput, owner: Owner, scoreCheck: bool, script: LoanScript)
    ensures Attempts(LoanRun(input, owner, scoreCheck, script).history) ==
      if Cleared(input, scoreCheck, script) then Attempts(Settlement(input, owner, script).history) else []
  {
    var vetted := Vetting(input, scoreCheck, script);
    VettingIsClearance(input, scoreCheck, script);
    NoCompensationsNoAttempts(vetted.history);
    ProjectionsDistribute(vetted.history, Settlement(input, owner, script).history);
  }

  /**
   A reservation is settled exactly once. With the disbursement done, release is never attempted and the
   workflow succeeds; with the disbursement failed, release is attempted exactly once, for that
   reservation, and the workflow reports the disbursement's error whatever the release does.
   A run that reserved nothing releases nothing and fails.
   */
  lemma ReservationIsSettledOnce(input: LoanInput, owner: Owner, scoreCheck: bool, script: LoanScript)
    ensures var r := LoanRun(input, owner, scoreCheck, script);
      if !Cleared(input, scoreCheck, script) || script.reserve.Failed? then
        Attempts(r.history) == [] && r.outcome.Refused?
      else if script.disburse.Ok? then
        Attempts(r.history) == [] && r.outcome == Disbursed(IdOf(script.disburse), script.finishedAt)
      else
        && Attempts(r.history) == [ReleaseCall(IdOf(script.reserve))]
        && r.outcome == Refused("disbursement failed" + ": " + script.disburse.message)
  {
    VettingIsClearance(input, scoreCheck, script);
    LoanAttempts(input, owner, scoreCheck, script);
    SettlementAttempts(input, owner, script);
  }

  /** Whatever the notification does, the result and everything before it stay the same. */
  lemma NotificationIsBestEffort(input: LoanInput, owner: Owner, scoreCheck: bool, script: LoanScript, notify: Outcome)
    ensures var r := LoanRun(input, owner, scoreCheck, script);
      var q := LoanRun(input, owner, scoreCheck, script.(notify := notify));
      && r.outcome == q.outcome
      && |r.history| == |q.history|
      && forall i :: 0 <= i < |r.history| ==>
           || r.history[i] == q.history[i]
           || (i == |r.history| - 1 &&
               r.history[i] == Forward(NotifyCall(input, IdOf(script.disburse)), script.notify))
  {
    var r, q := Settlement(input, owner, script), Settlement(input, owner, script.(notify := notify));
    assert |r.history| == |q.history| && r.outcome == q.outcome;
    assert forall i :: 0 <= i < |r.history| - 1 ==> r.history[i] == q.history[i];
  }

  // ---- Money ----

  const HELD: Account := "held"

  /** The account with the given number, which is never the one for held money. */
  function Numbered(number: string): (a: Account)
    ensures a != HELD
  {
    "account " + number
  }

  /**
   The money the calls move, as their arguments say: a reservation holds an amount, a disbursement moves it on to
   the account it names. A release names only the reservation, so what it frees is taken from the loan.
   */
  function LoanPostings(input: LoanInput): Postings {
    (call: Call, reply: Reply, a: Account) =>
      if call.fn == "ReserveFundsActivity" && |call.args| == 2 && call.args[1].Money? then
        (if a == HELD then call.args[1].amount else 0.0)
      else if call.fn == "ReleaseReservationActivity" then (if a == HELD then -input.amount else 0.0)
      else if call.fn == "DisbursementActivity" && |call.args| == 4 && call.args[2].Money? && call.args[3].Text? then
        (if a == HELD then -call.args[2].amount
         else if a == Numbered(call.args[3].text) then call.args[2].amount else 0.0)
      else 0.0
  }

  lemma {:induction false} VettingPostsNothing(h: seq<Record>, input: LoanInput, a: Account)
    requires forall r :: r in h ==> r.SignalReceived? || r.TimerFired? || (r.Forward? && r.call == KycCall(input))
    ensures Net(h, LoanPostings(input), a) == 0.0
  {
    if h != [] {
      VettingPostsNothing(h[1..], input, a);
    }
  }

  /**
   At the end of every run the borrower has the amount exactly when the workflow succeeded, and money is still
   held exactly when a disbursement failed and the release of its reservation failed permanently too.
   */
  lemma FundsAreConserved(input: LoanInput, owner: Owner, scoreCheck: bool, script: LoanScript)
    ensures var r := LoanRun(input, owner, scoreCheck, script);
      var stuck := Cleared(input, scoreCheck, script) && script.reserve.Ok? && script.disburse.Failed? &&
                   script.unwind.outcome(0).Failed?;
      && Net(r.history, LoanPostings(input), HELD) == (if stuck then input.amount else 0.0)
      && Net(r.history, LoanPostings(input), Numbered(input.account)) ==
           (if r.outcome.Disbursed? then input.amount else 0.0)
  {
    VettingIsClearance(input, scoreCheck, script);
    FundsAt(input, owner, scoreCheck, script, HELD);
    FundsAt(input, owner, scoreCheck, script, Numbered(input.account));
    SettlementFunds(input, owner, script, HELD);
    SettlementFunds(input, owner, script, Numbered(input.account));
  }

  lemma SettlementFunds(input: LoanInput, owner: Owner, script: LoanScript, a: Account)
    ensures Net(Settlement(input, owner, script).history, LoanPostings(input), a) ==
      if script.reserve.Failed? then 0.0
      else if script.disburse.Ok? then (if a == Numbered(input.account) then input.amount else 0.0)
      else if script.unwind.outcome(0).Failed? && a == HELD then input.amount else 0.0
  {
    var post := LoanPostings(input);
    if script.reserve.Failed? || script.disburse.Failed? {
      var plan, run := LoanPlan(input, IdOf(script.reserve)), SagaScript(script);
      SettlementIsASagaRun(input, owner, script);
      assert forall i: nat :: i < Depth(plan, run) ==> TakesBack(plan, i, run, post);
      ResidueIsTheFailedCompensations(plan, owner, run, post, a);
      assert Unreversed(plan, 0, run, post, a) == 0.0;
    } else {
      var reserved := [Forward(ReserveCall(input), script.reserve)];
      var disbursed := [Forward(DisburseCall(input, IdOf(script.reserve)), script.disburse)];
      NetConcat(reserved, disbursed, post, a);
      NetConcat(reserved + disbursed, [Forward(NotifyCall(input, IdOf(script.disburse)), script.notify)], post, a);
    }
  }

  lemma FundsAt(input: LoanInput, owner: Owner, scoreCheck: bool, script: LoanScript, a: Account)
    ensures Net(LoanRun(input, owner, scoreCheck, script).history, LoanPostings(input), a) ==
      if Cleared(input, scoreCheck, script) then Net(Settlement(input, owner, script).history, LoanPostings(input), a)
      else 0.0
  {
    var vetted := Vetting(input, scoreCheck, script);
    VettingIsClearance(input, scoreCheck, script);
    VettingPostsNothing(vetted.history, input, a);
    NetConcat(vetted.history, Settlement(input, owner, script).history, LoanPostings(input), a);
  }
}
