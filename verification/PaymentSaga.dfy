/** The payment workflow: debit the sender, credit the receiver, reverse the debit if that fails. */
module PaymentSaga {
  import opened Temporal
  import opened Sequences
  import opened Sagas
  import opened SagaRuns

  datatype PaymentInput = PaymentInput(paymentId: string, fromAcct: string, toAcct: string, amount: real)

  function InputArgs(input: PaymentInput): seq<Arg> {
    [Text(input.paymentId), Text(input.fromAcct), Text(input.toAcct), Money(input.amount)]
  }

  function DebitCall(input: PaymentInput): Call { Call("DebitActivity", InputArgs(input)) }

  function CreditCall(input: PaymentInput): Call { Call("CreditActivity", InputArgs(input)) }

  function PaymentPlan(input: PaymentInput): Plan {
    Plan([Step(DebitCall(input), "ReverseDebitActivity", [], "debit failed")],
         Some(Commit(CreditCall(input), "credit failed")))
  }

  /** The debit and, if it succeeded, the credit. */
  function Payments(input: PaymentInput, script: RunScript): seq<Record> {
    [Forward(DebitCall(input), script.forward(0))] +
    if script.forward(0).Ok? then [Forward(CreditCall(input), script.forward(1))] else []
  }

  function PaymentError(script: RunScript): Option<string> {
    if script.forward(0).Failed? then ErrorOf("debit failed", script.forward(0))
    else ErrorOf("credit failed", script.forward(1))
  }

  /** The body of the workflow, up to the deferred rollback. */
  method Pay(ctx: Context, saga: Saga, input: PaymentInput, script: RunScript) returns (err: Option<string>)
    requires saga.ctx == ctx && saga.compensations == [] && !saga.completed
    modifies ctx`history, saga`compensations, saga`completed
    ensures ctx.history == old(ctx.history) + Payments(input, script)
    ensures err == PaymentError(script) && saga.completed == err.None?
    ensures saga.compensations ==
      if script.forward(0).Failed? then []
      else [Register(Call("ReverseDebitActivity", [Text(IdOf(script.forward(0)))]))]
  {
    var debit := script.forward(0);
    ctx.Execute(DebitCall(input), debit);
    if debit.Failed? {
      return Some("debit failed" + ": " + debit.message);
    }
    saga.AddCompensation(Call("ReverseDebitActivity", [Text(IdOf(debit))]));
    var credit := script.forward(1);
    ctx.Execute(CreditCall(input), credit);
    if credit.Failed? {
      return Some("credit failed" + ": " + credit.message);
    }
    saga.Complete();
    return None;
  }

  /** The workflow is one instance of the saga pattern, without a dead-letter handler. */
  method PaymentSagaWorkflow(ctx: Context, input: PaymentInput, script: RunScript) returns (err: Option<string>)
    modifies ctx`history
    ensures ctx.history == old(ctx.history) + Run(PaymentPlan(input), Owner(ctx.id, ctx.runId, Nil), script).history
    ensures err == Run(PaymentPlan(input), Owner(ctx.id, ctx.runId, Nil), script).error
  {
    ghost var before := ctx.history;
    var saga := new Saga(ctx, []);
    err := Pay(ctx, saga, input, script);
    PaymentStack(ctx, input, script);
    PaymentRunShape(ctx, input, script);
    ghost var stack := StackAt(PaymentPlan(input), |saga.compensations|, Owner(ctx.id, ctx.runId, Nil), script.forward);
    assert saga.Contents() == stack;
    saga.Compensate(script.unwind);
    Associate(before, Payments(input, script), Unwind(stack, |stack.compensations|, script.unwind));
  }

  /** What is on the stack before and after the debit. */
  lemma PaymentStack(ctx: Context, input: PaymentInput, script: RunScript)
    ensures StackAt(PaymentPlan(input), 0, Owner(ctx.id, ctx.runId, Nil), script.forward) ==
      Stack(ctx.id, ctx.runId, [], Nil)
    ensures StackAt(PaymentPlan(input), 1, Owner(ctx.id, ctx.runId, Nil), script.forward) ==
      Stack(ctx.id, ctx.runId, [Register(Call("ReverseDebitActivity", [Text(IdOf(script.forward(0)))]))], Nil)
  {
    assert [Text(IdOf(script.forward(0)))] + [] == [Text(IdOf(script.forward(0)))];
  }

  /** The generic run, written out for the two activities of a payment. */
  lemma PaymentRunShape(ctx: Context, input: PaymentInput, script: RunScript)
    ensures var owner, debit, credit := Owner(ctx.id, ctx.runId, Nil), script.forward(0), script.forward(1);
      Run(PaymentPlan(input), owner, script) ==
        if debit.Failed? then RunResult(Payments(input, script), ErrorOf("debit failed", debit))
        else if credit.Failed? then
          RunResult(Payments(input, script) +
                    Unwind(StackAt(PaymentPlan(input), 1, owner, script.forward), 1, script.unwind),
                    ErrorOf("credit failed", credit))
        else RunResult(Payments(input, script), None)
  {
    var steps := PaymentPlan(input).steps;
    assert ForwardHistory(steps, 0, script.forward) == [];
    assert ForwardHistory(steps, 1, script.forward) == [Forward(DebitCall(input), script.forward(0))];
  }

  /**
   The run of a payment, written out. The sender is debited and then the receiver credited with the arguments of
   the payment; a failed credit is followed by one reversal of the debit's own transaction.
   */
  lemma PaymentIsExact(ctx: Context, input: PaymentInput, script: RunScript)
    ensures var args := [Text(input.paymentId), Text(input.fromAcct), Text(input.toAcct), Money(input.amount)];
      var debit, credit := script.forward(0), script.forward(1);
      var debited := Forward(Call("DebitActivity", args), debit);
      var credited := Forward(Call("CreditActivity", args), credit);
      Run(PaymentPlan(input), Owner(ctx.id, ctx.runId, Nil), script) ==
        if debit.Failed? then RunResult([debited], Some("debit failed: " + debit.message))
        else if credit.Failed? then
          var reversal := Call("ReverseDebitActivity", [Text(if debit.reply.Id? then debit.reply.id else "")]);
          RunResult([debited, credited, Compensated(0, reversal, script.unwind.outcome(0))],
                    Some("credit failed: " + credit.message))
        else RunResult([debited, credited], None)
  {
    PaymentRunShape(ctx, input, script);
    PaymentStack(ctx, input, script);
    assert "debit failed" + ": " == "debit failed: " && "credit failed" + ": " == "credit failed: ";
    var stack := StackAt(PaymentPlan(input), 1, Owner(ctx.id, ctx.runId, Nil), script.forward);
    assert Unwind(stack, 0, script.unwind) == [];
  }

  /**
   The money a payment moves, as the arguments of the calls say. A reversal names only the transaction, so what it
   gives back is taken from the payment.
   */
  function PaymentPostings(input: PaymentInput): Postings {
    (call: Call, reply: Reply, a: Account) =>
      if call.fn == "ReverseDebitActivity" then (if a == input.fromAcct then input.amount else 0.0)
      else if |call.args| != 4 || !call.args[3].Money? then 0.0
      else if call.fn == "DebitActivity" then (if Text(a) == call.args[1] then -call.args[3].amount else 0.0)
      else if call.fn == "CreditActivity" then (if Text(a) == call.args[2] then call.args[3].amount else 0.0)
      else 0.0
  }

  /** A failed payment leaves the debit exactly if it happened and could not be reversed, and reports nothing. */
  lemma FailedPayment(owner: Owner, input: PaymentInput, script: RunScript, a: Account)
    requires owner.handler.Nil? && Run(PaymentPlan(input), owner, script).error.Some?
    ensures var h := Run(PaymentPlan(input), owner, script).history;
      && Reports(h) == []
      && Net(h, PaymentPostings(input), a) ==
           if script.forward(0).Ok? && script.unwind.outcome(0).Failed? && a == input.fromAcct then -input.amount
           else 0.0
  {
    var plan, post := PaymentPlan(input), PaymentPostings(input);
    var m := Depth(plan, script);
    FailedRunProjections(plan, owner, script, m, if m < 1 then plan.steps[m].call else plan.commit.value.call);
    ReportsAreTheFailures(StackAt(plan, m, owner, script.forward), m, script.unwind);
    ReversalTakesBack(input, script);
    ResidueIsTheFailedCompensations(plan, owner, script, post, a);
    assert Unreversed(plan, 0, script, post, a) == 0.0;
  }

  lemma ReversalTakesBack(input: PaymentInput, script: RunScript)
    ensures script.forward(0).Ok? ==> TakesBack(PaymentPlan(input), 0, script, PaymentPostings(input))
  {
  }

  lemma SinglePosting(r: Record, post: Postings, a: Account)
    ensures Net([r], post, a) == Posted(r, post, a)
  {
    assert [r][1..] == [];
  }

  /** What both calls of a payment post. */
  lemma PaymentsPost(input: PaymentInput, script: RunScript, a: Account)
    requires script.forward(0).Ok? && script.forward(1).Ok?
    ensures Net(Payments(input, script), PaymentPostings(input), a) ==
      (if a == input.toAcct then input.amount else 0.0) - (if a == input.fromAcct then input.amount else 0.0)
  {
    var debited := Forward(DebitCall(input), script.forward(0));
    var credited := Forward(CreditCall(input), script.forward(1));
    NetConcat([debited], [credited], PaymentPostings(input), a);
    SinglePosting(debited, PaymentPostings(input), a);
    SinglePosting(credited, PaymentPostings(input), a);
  }

  /** A completed payment moves the amount and compensates nothing. */
  lemma CompletedPayment(ctx: Context, input: PaymentInput, script: RunScript, a: Account)
    requires Run(PaymentPlan(input), Owner(ctx.id, ctx.runId, Nil), script).error.None?
    ensures var h := Run(PaymentPlan(input), Owner(ctx.id, ctx.runId, Nil), script).history;
      && Reports(h) == []
      && Net(h, PaymentPostings(input), a) ==
           (if a == input.toAcct then input.amount else 0.0) - (if a == input.fromAcct then input.amount else 0.0)
  {
    PaymentRunShape(ctx, input, script);
    PaymentsPost(input, script, a);
    ForwardsAreSilent(Payments(input, script));
  }

  /**
   Either the payment went through, or nothing moved, or the debit could not be reversed: then exactly the
   debit remains and, as the workflow installs no handler, no dead-letter event was ever produced.
   */
  lemma PaymentMovesAllOrNothing(ctx: Context, input: PaymentInput, script: RunScript, a: Account)
    ensures var r := Run(PaymentPlan(input), Owner(ctx.id, ctx.runId, Nil), script);
      var debit := if a == input.fromAcct then input.amount else 0.0;
      var credit := if a == input.toAcct then input.amount else 0.0;
      && Reports(r.history) == []
      && Net(r.history, PaymentPostings(input), a) ==
           if r.error.None? then credit - debit
           else if script.forward(0).Ok? && script.unwind.outcome(0).Failed? then -debit
           else 0.0
  {
    if Run(PaymentPlan(input), Owner(ctx.id, ctx.runId, Nil), script).error.Some? {
      FailedPayment(Owner(ctx.id, ctx.runId, Nil), input, script, a);
    } else {
      CompletedPayment(ctx, input, script, a);
    }
  }
}
