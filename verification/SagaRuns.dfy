/**
 Whole runs of the saga usage pattern: every step registers its compensation as soon as
 it succeeds, the first failure returns an error, and the deferred Compensate unwinds.
 The effect of activities on the outside world is a parameter; an activity that fails
 permanently has no effect.
 */
module SagaRuns {
  import opened Temporal
  import opened Sagas

  /** A forward activity; its compensation receives the id the activity returned. */
  datatype Step = Step(call: Call, undoFn: string, undoArgs: seq<Arg>, failure: string)

  /** A last activity after which nothing can fail, so nothing is registered for it. */
  datatype Commit = Commit(call: Call, failure: string)

  datatype Plan = Plan(steps: seq<Step>, commit: Option<Commit>)

  datatype Owner = Owner(id: string, runId: string, handler: Handler)

  /** `forward(i)` is how step i ends, `forward(|steps|)` how the commit ends. */
  datatype RunScript = RunScript(forward: nat -> Outcome, unwind: UnwindScript)

  datatype RunResult = RunResult(history: seq<Record>, error: Option<string>)

  function IdOf(o: Outcome): string {
    if o.Ok? && o.reply.Id? then o.reply.id else ""
  }

  function UndoCall(s: Step, o: Outcome): Call {
    Call(s.undoFn, [Text(IdOf(o))] + s.undoArgs)
  }

  function Registered(steps: seq<Step>, k: nat, forward: nat -> Outcome): (cs: seq<Compensation>)
    requires k <= |steps|
    ensures |cs| == k
    ensures forall i :: 0 <= i < k ==> cs[i].call == UndoCall(steps[i], forward(i))
  {
    seq(k, i requires 0 <= i < k => Register(UndoCall(steps[i], forward(i))))
  }

  function StackAt(plan: Plan, k: nat, owner: Owner, forward: nat -> Outcome): Stack
    requires k <= |plan.steps|
  {
    Stack(owner.id, owner.runId, Registered(plan.steps, k, forward), owner.handler)
  }

  function ForwardHistory(steps: seq<Step>, k: nat, forward: nat -> Outcome): seq<Record>
    requires k <= |steps|
  {
    if k == 0 then []
    else ForwardHistory(steps, k - 1, forward) + [Forward(steps[k - 1].call, forward(k - 1))]
  }

  /** The first failing step at or after k, or n. */
  function FirstFailure(forward: nat -> Outcome, k: nat, n: nat): (m: nat)
    requires k <= n
    ensures k <= m <= n
    ensures forall i :: k <= i < m ==> forward(i).Ok?
    ensures m < n ==> forward(m).Failed?
    decreases n - k
  {
    if k == n || forward(k).Failed? then k else FirstFailure(forward, k + 1, n)
  }

  /** Step m (or the commit) failed after m registered steps: unwind all m of them. */
  function FailedRun(plan: Plan, owner: Owner, script: RunScript, m: nat, call: Call): seq<Record>
    requires m <= |plan.steps|
  {
    ForwardHistory(plan.steps, m, script.forward) + [Forward(call, script.forward(m))] +
    Unwind(StackAt(plan, m, owner, script.forward), m, script.unwind)
  }

  function ErrorOf(failure: string, o: Outcome): Option<string> {
    if o.Failed? then Some(failure + ": " + o.message) else None
  }

  function Run(plan: Plan, owner: Owner, script: RunScript): RunResult {
    var n := |plan.steps|;
    var m := FirstFailure(script.forward, 0, n);
    if m < n then
      RunResult(FailedRun(plan, owner, script, m, plan.steps[m].call),
                ErrorOf(plan.steps[m].failure, script.forward(m)))
    else if plan.commit.None? then
      RunResult(ForwardHistory(plan.steps, n, script.forward), None)
    else if script.forward(n).Failed? then
      RunResult(FailedRun(plan, owner, script, n, plan.commit.value.call),
                ErrorOf(plan.commit.value.failure, script.forward(n)))
    else
      RunResult(ForwardHistory(plan.steps, n, script.forward) +
                [Forward(plan.commit.value.call, script.forward(n))], None)
  }

  // ---- What a run does, written out ----

  /**
   The first failing step m (or the commit, if m is the number of steps) ends the run: the calls up to it are
   made in order, no other, and its own error is returned.
   */
  lemma FailureEndsTheRun(plan: Plan, owner: Owner, script: RunScript, m: nat)
    requires m < |plan.steps| || (m == |plan.steps| && plan.commit.Some?)
    requires script.forward(m).Failed? && forall i: nat :: i < m ==> script.forward(i).Ok?
    ensures var r := Run(plan, owner, script);
      var last := if m < |plan.steps| then plan.steps[m].call else plan.commit.value.call;
      && r.error ==
           Some((if m < |plan.steps| then plan.steps[m].failure else plan.commit.value.failure) + ": " +
                script.forward(m).message)
      && |r.history| > m
      && (forall i :: 0 <= i < m ==> r.history[i] == Forward(plan.steps[i].call, script.forward(i)))
      && r.history[m] == Forward(last, script.forward(m))
      && (forall i :: m < i < |r.history| ==> !r.history[i].Forward?)
  {
    FirstFailureIs(script.forward, 0, |plan.steps|, m);
    ForwardHistoryAt(plan.steps, m, script.forward);
    UnwindIsNotForward(StackAt(plan, m, owner, script.forward), m, script.unwind);
  }

  /** If nothing fails, every call is made once, in order, and there is no error. */
  lemma SuccessCompletesTheRun(plan: Plan, owner: Owner, script: RunScript)
    requires forall i: nat :: i < |plan.steps| || (i == |plan.steps| && plan.commit.Some?) ==> script.forward(i).Ok?
    ensures var r, n := Run(plan, owner, script), |plan.steps|;
      && r.error == None
      && |r.history| == n + (if plan.commit.Some? then 1 else 0)
      && (forall i :: 0 <= i < n ==> r.history[i] == Forward(plan.steps[i].call, script.forward(i)))
      && (plan.commit.Some? ==> r.history[n] == Forward(plan.commit.value.call, script.forward(n)))
  {
    FirstFailureIs(script.forward, 0, |plan.steps|, |plan.steps|);
    ForwardHistoryAt(plan.steps, |plan.steps|, script.forward);
  }

  lemma {:induction false} FirstFailureIs(forward: nat -> Outcome, k: nat, n: nat, m: nat)
    requires k <= m <= n && (m < n ==> forward(m).Failed?) && forall i: nat :: k <= i < m ==> forward(i).Ok?
    ensures FirstFailure(forward, k, n) == m
    decreases n - k
  {
    if k < m {
      FirstFailureIs(forward, k + 1, n, m);
    }
  }

  lemma {:induction false} ForwardHistoryAt(steps: seq<Step>, k: nat, forward: nat -> Outcome)
    requires k <= |steps|
    ensures |ForwardHistory(steps, k, forward)| == k
    ensures forall i :: 0 <= i < k ==> ForwardHistory(steps, k, forward)[i] == Forward(steps[i].call, forward(i))
  {
    if k > 0 {
      ForwardHistoryAt(steps, k - 1, forward);
    }
  }

  lemma {:induction false} UnwindIsNotForward(s: Stack, k: nat, script: UnwindScript)
    requires k <= |s.compensations|
    ensures forall r :: r in Unwind(s, k, script) ==> !r.Forward?
  {
    if k > 0 {
      UnwindIsNotForward(s, k - 1, script);
      assert forall r :: r in UnwindStep(s, k - 1, script) ==> !r.Forward?;
    }
  }

  // ---- Semantic rollback ----

  type Effect<!S> = (Call, Reply, S) -> S

  function Apply<S>(r: Record, effect: Effect<S>, s: S): S {
    if (r.Forward? || r.Compensated?) && r.outcome.Ok? then effect(r.call, r.outcome.reply, s) else s
  }

  /** The world after a history. */
  function Replay<S>(h: seq<Record>, effect: Effect<S>, s: S): S {
    if h == [] then s else Replay(h[1..], effect, Apply(h[0], effect, s))
  }

  lemma {:induction false} ReplayConcat<S>(a: seq<Record>, b: seq<Record>, effect: Effect<S>, s: S)
    ensures Replay(a + b, effect, s) == Replay(b, effect, Replay(a, effect, s))
  {
    if a == [] {
      assert a + b == b;
    } else {
      assert (a + b)[1..] == a[1..] + b;
      ReplayConcat(a[1..], b, effect, Apply(a[0], effect, s));
    }
  }

  /** The world just before step k. */
  function WorldAt<S>(steps: seq<Step>, k: nat, forward: nat -> Outcome, effect: Effect<S>, s: S): S
    requires k <= |steps|
  {
    Replay(ForwardHistory(steps, k, forward), effect, s)
  }

  lemma WorldAtNext<S>(steps: seq<Step>, k: nat, forward: nat -> Outcome, effect: Effect<S>, s: S)
    requires 0 < k <= |steps|
    ensures WorldAt(steps, k, forward, effect, s) ==
      Apply(Forward(steps[k - 1].call, forward(k - 1)), effect, WorldAt(steps, k - 1, forward, effect, s))
  {
    ReplayConcat(ForwardHistory(steps, k - 1, forward), [Forward(steps[k - 1].call, forward(k - 1))], effect, s);
  }

  /** Compensation i takes the world step i produced back to the world step i started from. */
  ghost predicate UndoesAt<S>(plan: Plan, i: nat, script: RunScript, effect: Effect<S>, s: S)
    requires i < |plan.steps|
  {
    var before := WorldAt(plan.steps, i, script.forward, effect, s);
    script.unwind.outcome(i).Ok? && script.forward(i).Ok? &&
    effect(UndoCall(plan.steps[i], script.forward(i)), script.unwind.outcome(i).reply,
           effect(plan.steps[i].call, script.forward(i).reply, before)) == before
  }

  lemma ReplayThrough<S>(a: seq<Record>, b: seq<Record>, effect: Effect<S>, first: S, between: S, last: S)
    requires Replay(a, effect, first) == between && Replay(b, effect, between) == last
    ensures Replay(a + b, effect, first) == last
  {
    ReplayConcat(a, b, effect, first);
  }

  lemma UndoneStep<S>(plan: Plan, owner: Owner, i: nat, m: nat, script: RunScript, effect: Effect<S>, s: S)
    requires i < m <= |plan.steps| && UndoesAt(plan, i, script, effect, s)
    ensures Replay(UnwindStep(StackAt(plan, m, owner, script.forward), i, script.unwind), effect,
                   WorldAt(plan.steps, i + 1, script.forward, effect, s)) ==
      WorldAt(plan.steps, i, script.forward, effect, s)
  {
    var step := UnwindStep(StackAt(plan, m, owner, script.forward), i, script.unwind);
    WorldAtNext(plan.steps, i + 1, script.forward, effect, s);
    assert step == [Compensated(i, UndoCall(plan.steps[i], script.forward(i)), script.unwind.outcome(i))];
  }

  lemma {:induction false} UnwindRestores<S>(
    plan: Plan, owner: Owner, k: nat, m: nat, script: RunScript, effect: Effect<S>, s: S)
    requires k <= m <= |plan.steps|
    requires forall i: nat :: i < k ==> UndoesAt(plan, i, script, effect, s)
    ensures Replay(Unwind(StackAt(plan, m, owner, script.forward), k, script.unwind), effect,
                   WorldAt(plan.steps, k, script.forward, effect, s)) == s
  {
    if k > 0 {
      var stack := StackAt(plan, m, owner, script.forward);
      UnwindRestores(plan, owner, k - 1, m, script, effect, s);
      UndoneStep(plan, owner, k - 1, m, script, effect, s);
      ReplayThrough(UnwindStep(stack, k - 1, script.unwind), Unwind(stack, k - 1, script.unwind), effect,
                    WorldAt(plan.steps, k, script.forward, effect, s),
                    WorldAt(plan.steps, k - 1, script.forward, effect, s), s);
    }
  }

  lemma FailedRunRestores<S>(plan: Plan, owner: Owner, script: RunScript, m: nat, call: Call, effect: Effect<S>, s: S)
    requires m <= |plan.steps| && script.forward(m).Failed?
    requires forall i: nat :: i < m ==> UndoesAt(plan, i, script, effect, s)
    ensures Replay(FailedRun(plan, owner, script, m, call), effect, s) == s
  {
    var forward := ForwardHistory(plan.steps, m, script.forward);
    var failed := [Forward(call, script.forward(m))];
    ReplayConcat(forward + failed, Unwind(StackAt(plan, m, owner, script.forward), m, script.unwind), effect, s);
    ReplayConcat(forward, failed, effect, s);
    UnwindRestores(plan, owner, m, m, script, effect, s);
  }

  /** How many steps had registered a compensation when the run ended. */
  function Depth(plan: Plan, script: RunScript): (m: nat)
    ensures m <= |plan.steps|
  {
    FirstFailure(script.forward, 0, |plan.steps|)
  }

  /** A failed run whose compensations undo their steps leaves the world exactly as it found it. */
  lemma RollbackRestoresTheWorld<S>(plan: Plan, owner: Owner, script: RunScript, effect: Effect<S>, s: S)
    requires Run(plan, owner, script).error.Some?
    requires forall i: nat :: i < Depth(plan, script) ==> UndoesAt(plan, i, script, effect, s)
    ensures Replay(Run(plan, owner, script).history, effect, s) == s
  {
    var m := Depth(plan, script);
    FailedRunRestores(plan, owner, script, m,
                      if m < |plan.steps| then plan.steps[m].call else plan.commit.value.call, effect, s);
  }

  // ---- Residue accounting ----

  type Account = string

  /** What a successful call adds to an account. */
  type Postings = (Call, Reply, Account) -> real

  function Posted(r: Record, post: Postings, a: Account): real {
    if (r.Forward? || r.Compensated?) && r.outcome.Ok? then post(r.call, r.outcome.reply, a) else 0.0
  }

  /** The net change of an account over a history. */
  function Net(h: seq<Record>, post: Postings, a: Account): real {
    if h == [] then 0.0 else Posted(h[0], post, a) + Net(h[1..], post, a)
  }

  lemma {:induction false} NetConcat(h: seq<Record>, g: seq<Record>, post: Postings, a: Account)
    ensures Net(h + g, post, a) == Net(h, post, a) + Net(g, post, a)
  {
    if h == [] {
      assert h + g == g;
    } else {
      assert (h + g)[1..] == h[1..] + g;
      NetConcat(h[1..], g, post, a);
    }
  }

  /** What step i added to an account when it ran. */
  function StepPosting(plan: Plan, i: nat, script: RunScript, post: Postings, a: Account): real
    requires i < |plan.steps|
  {
    Posted(Forward(plan.steps[i].call, script.forward(i)), post, a)
  }

  /** A compensation that succeeds takes back exactly what its step posted. */
  ghost predicate TakesBack(plan: Plan, i: nat, script: RunScript, post: Postings)
    requires i < |plan.steps|
  {
    forall a, reply ::
      post(UndoCall(plan.steps[i], script.forward(i)), reply, a) == -StepPosting(plan, i, script, post, a)
  }

  /** The postings of the steps below k whose compensation failed permanently. */
  function Unreversed(plan: Plan, k: nat, script: RunScript, post: Postings, a: Account): real
    requires k <= |plan.steps|
  {
    if k == 0 then 0.0
    else Unreversed(plan, k - 1, script, post, a) +
         if script.unwind.outcome(k - 1).Failed? then StepPosting(plan, k - 1, script, post, a) else 0.0
  }

  predicate NamesSteps(es: seq<CompensationFailureEvent>, plan: Plan) {
    forall e :: e in es ==> e.stepIndex < |plan.steps|
  }

  /** The postings of the steps named by a list of dead-letter events. */
  function ReportedSum(
    es: seq<CompensationFailureEvent>, plan: Plan, script: RunScript, post: Postings, a: Account): real
    requires NamesSteps(es, plan)
  {
    if es == [] then 0.0
    else StepPosting(plan, es[0].stepIndex, script, post, a) + ReportedSum(es[1..], plan, script, post, a)
  }

  lemma HandlerPostsNothing(h: Handler, e: CompensationFailureEvent, script: UnwindScript, post: Postings, a: Account)
    ensures Net(HandlerRecords(h, e, script), post, a) == 0.0
  {
    var records := HandlerRecords(h, e, script);
    if |records| == 2 {
      assert records == [records[0]] + [records[1]];
      NetConcat([records[0]], [records[1]], post, a);
    }
  }

  lemma NetUnwindStep(s: Stack, i: nat, script: UnwindScript, post: Postings, a: Account)
    requires i < |s.compensations|
    ensures Net(UnwindStep(s, i, script), post, a) ==
      if script.outcome(i).Ok? then post(s.compensations[i].call, script.outcome(i).reply, a) else 0.0
  {
    var first := [Compensated(i, s.compensations[i].call, script.outcome(i))];
    if script.outcome(i).Failed? {
      var e := EventFor(s, i, script);
      NetConcat(first, HandlerRecords(s.handler, e, script), post, a);
      HandlerPostsNothing(s.handler, e, script, post, a);
    } else {
      assert UnwindStep(s, i, script) == first;
    }
  }

  lemma NetOfNextStep(plan: Plan, i: nat, script: RunScript, post: Postings, a: Account)
    requires i < |plan.steps|
    ensures Net(ForwardHistory(plan.steps, i + 1, script.forward), post, a) ==
            Net(ForwardHistory(plan.steps, i, script.forward), post, a) + StepPosting(plan, i, script, post, a)
  {
    NetConcat(ForwardHistory(plan.steps, i, script.forward), [Forward(plan.steps[i].call, script.forward(i))], post, a);
  }

  lemma NetOfNextUndo(plan: Plan, owner: Owner, i: nat, m: nat, script: RunScript, post: Postings, a: Account)
    requires i < m <= |plan.steps| && TakesBack(plan, i, script, post)
    ensures var stack := StackAt(plan, m, owner, script.forward);
      Net(Unwind(stack, i + 1, script.unwind), post, a) == Net(Unwind(stack, i, script.unwind), post, a) -
        if script.unwind.outcome(i).Ok? then StepPosting(plan, i, script, post, a) else 0.0
  {
    var stack := StackAt(plan, m, owner, script.forward);
    NetConcat(UnwindStep(stack, i, script.unwind), Unwind(stack, i, script.unwind), post, a);
    NetUnwindStep(stack, i, script.unwind, post, a);
  }

  /** Forward postings plus unwinding leave exactly the unreversed steps. */
  lemma {:induction false} NetOfForwardAndUnwind(
    plan: Plan, owner: Owner, k: nat, m: nat, script: RunScript, post: Postings, a: Account)
    requires k <= m <= |plan.steps|
    requires forall i: nat :: i < k ==> TakesBack(plan, i, script, post)
    ensures Net(ForwardHistory(plan.steps, k, script.forward), post, a) +
            Net(Unwind(StackAt(plan, m, owner, script.forward), k, script.unwind), post, a) ==
            Unreversed(plan, k, script, post, a)
  {
    if k > 0 {
      var i := k - 1;
      NetOfForwardAndUnwind(plan, owner, i, m, script, post, a);
      NetOfNextStep(plan, i, script, post, a);
      NetOfNextUndo(plan, owner, i, m, script, post, a);
    }
  }

  lemma NetOfFailedRun(plan: Plan, owner: Owner, script: RunScript, m: nat, call: Call, post: Postings, a: Account)
    requires m <= |plan.steps| && script.forward(m).Failed?
    requires forall i: nat :: i < m ==> TakesBack(plan, i, script, post)
    ensures Net(FailedRun(plan, owner, script, m, call), post, a) == Unreversed(plan, m, script, post, a)
  {
    var forward := ForwardHistory(plan.steps, m, script.forward);
    var failed := [Forward(call, script.forward(m))];
    NetConcat(forward + failed, Unwind(StackAt(plan, m, owner, script.forward), m, script.unwind), post, a);
    NetConcat(forward, failed, post, a);
    NetOfForwardAndUnwind(plan, owner, m, m, script, post, a);
  }

  /** Without any handler the residue is still exactly the failed compensations. */
  lemma ResidueIsTheFailedCompensations(plan: Plan, owner: Owner, script: RunScript, post: Postings, a: Account)
    requires Run(plan, owner, script).error.Some?
    requires forall i: nat :: i < Depth(plan, script) ==> TakesBack(plan, i, script, post)
    ensures Net(Run(plan, owner, script).history, post, a) == Unreversed(plan, Depth(plan, script), script, post, a)
  {
    var m := Depth(plan, script);
    NetOfFailedRun(plan, owner, script, m,
                   if m < |plan.steps| then plan.steps[m].call else plan.commit.value.call, post, a);
  }

  lemma ReportedSumCons(
    e: CompensationFailureEvent, es: seq<CompensationFailureEvent>,
    plan: Plan, script: RunScript, post: Postings, a: Account)
    requires e.stepIndex < |plan.steps| && NamesSteps(es, plan)
    ensures NamesSteps([e] + es, plan)
    ensures ReportedSum([e] + es, plan, script, post, a) ==
            StepPosting(plan, e.stepIndex, script, post, a) + ReportedSum(es, plan, script, post, a)
  {
    assert ([e] + es)[1..] == es;
  }

  /** The events of the steps below k name steps of the plan, and sum to what these steps left behind. */
  ghost predicate SumsUp(plan: Plan, stack: Stack, k: nat, script: RunScript, post: Postings, a: Account)
    requires k <= |stack.compensations| <= |plan.steps|
  {
    var es := FailureEvents(stack, k, script.unwind);
    NamesSteps(es, plan) && ReportedSum(es, plan, script, post, a) == Unreversed(plan, k, script, post, a)
  }

  lemma ReversedStepAddsNothing(plan: Plan, stack: Stack, k: nat, script: RunScript, post: Postings, a: Account)
    requires 0 < k <= |stack.compensations| <= |plan.steps| && script.unwind.outcome(k - 1).Ok?
    requires SumsUp(plan, stack, k - 1, script, post, a)
    ensures SumsUp(plan, stack, k, script, post, a)
  {
    FailureEventsNext(stack, k, script.unwind);
  }

  lemma FailedStepAddsItsPosting(plan: Plan, stack: Stack, k: nat, script: RunScript, post: Postings, a: Account)
    requires 0 < k <= |stack.compensations| <= |plan.steps| && script.unwind.outcome(k - 1).Failed?
    requires SumsUp(plan, stack, k - 1, script, post, a)
    ensures SumsUp(plan, stack, k, script, post, a)
  {
    FailureEventsNext(stack, k, script.unwind);
    ReportedSumCons(EventFor(stack, k - 1, script.unwind), FailureEvents(stack, k - 1, script.unwind),
                    plan, script, post, a);
  }

  lemma {:induction false} FailureEventsSumToUnreversed(
    plan: Plan, stack: Stack, k: nat, script: RunScript, post: Postings, a: Account)
    requires k <= |stack.compensations| <= |plan.steps|
    ensures SumsUp(plan, stack, k, script, post, a)
  {
    if k > 0 {
      FailureEventsSumToUnreversed(plan, stack, k - 1, script, post, a);
      if script.unwind.outcome(k - 1).Failed? {
        FailedStepAddsItsPosting(plan, stack, k, script, post, a);
      } else {
        ReversedStepAddsNothing(plan, stack, k, script, post, a);
      }
    }
  }

  lemma {:induction false} ForwardReportsNothing(steps: seq<Step>, k: nat, forward: nat -> Outcome)
    requires k <= |steps|
    ensures Reports(ForwardHistory(steps, k, forward)) == [] && Attempts(ForwardHistory(steps, k, forward)) == []
  {
    OnlyForwards(steps, k, forward);
    ForwardsAreSilent(ForwardHistory(steps, k, forward));
  }

  lemma {:induction false} OnlyForwards(steps: seq<Step>, k: nat, forward: nat -> Outcome)
    requires k <= |steps|
    ensures forall r :: r in ForwardHistory(steps, k, forward) ==> r.Forward?
  {
    if k > 0 {
      OnlyForwards(steps, k - 1, forward);
    }
  }

  lemma {:induction false} ForwardsAreSilent(h: seq<Record>)
    requires forall r :: r in h ==> r.Forward?
    ensures Reports(h) == [] && Attempts(h) == []
  {
    if h != [] {
      assert h[0] in h;
      ForwardsAreSilent(h[1..]);
    }
  }

  lemma ForwardIsSilent(h: seq<Record>, call: Call, o: Outcome)
    ensures Reports(h + [Forward(call, o)]) == Reports(h) && Attempts(h + [Forward(call, o)]) == Attempts(h)
  {
    ProjectionsDistribute(h, [Forward(call, o)]);
    ForwardsAreSilent([Forward(call, o)]);
  }

  /** Only the unwinding contributes attempts and reports. */
  lemma FailedRunProjections(plan: Plan, owner: Owner, script: RunScript, m: nat, call: Call)
    requires m <= |plan.steps|
    ensures Reports(FailedRun(plan, owner, script, m, call)) ==
            Reports(Unwind(StackAt(plan, m, owner, script.forward), m, script.unwind))
    ensures Attempts(FailedRun(plan, owner, script, m, call)) ==
            Attempts(Unwind(StackAt(plan, m, owner, script.forward), m, script.unwind))
  {
    var forward := ForwardHistory(plan.steps, m, script.forward);
    ProjectionsDistribute(forward + [Forward(call, script.forward(m))],
                          Unwind(StackAt(plan, m, owner, script.forward), m, script.unwind));
    ForwardIsSilent(forward, call, script.forward(m));
    ForwardReportsNothing(plan.steps, m, script.forward);
  }

  /**
   The final ledger of a failed run is the initial one plus exactly the postings of the steps
   whose index was handed to the dead-letter handler: each once, in strictly decreasing order.
   */
  lemma ResidueIsWhatWasReported(plan: Plan, owner: Owner, script: RunScript, post: Postings, a: Account)
    requires Run(plan, owner, script).error.Some? && !owner.handler.Nil?
    requires forall i: nat :: i < Depth(plan, script) ==> TakesBack(plan, i, script, post)
    ensures var es := Reports(Run(plan, owner, script).history);
      && NamesSteps(es, plan) && (forall e :: e in es ==> e.stepIndex < Depth(plan, script))
      && (forall j, l :: 0 <= j < l < |es| ==> es[j].stepIndex > es[l].stepIndex)
      && Net(Run(plan, owner, script).history, post, a) == ReportedSum(es, plan, script, post, a)
      && (es == [] ==> Net(Run(plan, owner, script).history, post, a) == 0.0)
  {
    var m := Depth(plan, script);
    var call := if m < |plan.steps| then plan.steps[m].call else plan.commit.value.call;
    assert Run(plan, owner, script).history == FailedRun(plan, owner, script, m, call);
    FailedRunProjections(plan, owner, script, m, call);
    ReportsAreTheFailures(StackAt(plan, m, owner, script.forward), m, script.unwind);
    FailureEventsAreExact(StackAt(plan, m, owner, script.forward), m, script.unwind);
    FailureEventsSumToUnreversed(plan, StackAt(plan, m, owner, script.forward), m, script, post, a);
    NetOfFailedRun(plan, owner, script, m, call, post, a);
  }

  /** The event carries the run's identity, the name of the step's compensation, and how that ended. */
  ghost predicate NamesItsStep(e: CompensationFailureEvent, plan: Plan, owner: Owner, script: RunScript, m: nat)
    requires m <= |plan.steps|
  {
    && e.stepIndex < m && script.unwind.outcome(e.stepIndex).Failed?
    && e.sagaId == owner.id && e.runId == owner.runId
    && e.stepName == (var fn := plan.steps[e.stepIndex].undoFn; if fn == "" then "unknown" else fn)
    && e.errorMessage == script.unwind.outcome(e.stepIndex).message
    && e.occurredAt == script.unwind.now(e.stepIndex)
  }

  lemma EventsNameTheirSteps(plan: Plan, owner: Owner, script: RunScript, m: nat)
    requires m <= |plan.steps|
    ensures var es := FailureEvents(StackAt(plan, m, owner, script.forward), m, script.unwind);
      forall e :: e in es ==> NamesItsStep(e, plan, owner, script, m)
  {
    FailureEventsAreExact(StackAt(plan, m, owner, script.forward), m, script.unwind);
  }

  /** The call that compensates step i: with the id the step returned, then the registered arguments. */
  lemma CompensationCall(plan: Plan, i: nat, m: nat, script: RunScript, calls: seq<Call>)
    requires i < m <= |plan.steps| && script.forward(i).Ok?
    requires calls == ReversedCalls(Registered(plan.steps, m, script.forward))
    ensures var step, reply := plan.steps[i], script.forward(i).reply;
      && |calls| == m
      && calls[m - 1 - i] == Call(step.undoFn, [Text(if reply.Id? then reply.id else "")] + step.undoArgs)
  {
  }

  /**
   Every compensation of a failed run is called with the id its own step returned, followed by the registered
   arguments, last step first.
   */
  lemma CompensationCallsAreExact(plan: Plan, owner: Owner, script: RunScript, m: nat, i: nat)
    requires m < |plan.steps| || (m == |plan.steps| && plan.commit.Some?)
    requires script.forward(m).Failed? && forall j: nat :: j < m ==> script.forward(j).Ok?
    requires i < m
    ensures var calls := Attempts(Run(plan, owner, script).history);
      var step, reply := plan.steps[i], script.forward(i).reply;
      && |calls| == m
      && calls[m - 1 - i] == Call(step.undoFn, [Text(if reply.Id? then reply.id else "")] + step.undoArgs)
  {
    FailsAt(plan, owner, script, m);
    AttemptsOfRun(plan, owner, script);
    CompensationCall(plan, i, m, script, Attempts(Run(plan, owner, script).history));
  }

  lemma FailsAt(plan: Plan, owner: Owner, script: RunScript, m: nat)
    requires m < |plan.steps| || (m == |plan.steps| && plan.commit.Some?)
    requires script.forward(m).Failed? && forall j: nat :: j < m ==> script.forward(j).Ok?
    ensures Run(plan, owner, script).error.Some? && Depth(plan, script) == m
  {
    FirstFailureIs(script.forward, 0, |plan.steps|, m);
  }

  /** The handler of a failed run is told of exactly the compensations that failed, each in its own name. */
  lemma {:induction false} EventsAreExact(plan: Plan, owner: Owner, script: RunScript, m: nat)
    requires m < |plan.steps| || (m == |plan.steps| && plan.commit.Some?)
    requires script.forward(m).Failed? && forall j: nat :: j < m ==> script.forward(j).Ok?
    ensures forall e :: e in Reports(Run(plan, owner, script).history) ==> NamesItsStep(e, plan, owner, script, m)
  {
    FailsAt(plan, owner, script, m);
    ReportsOfRun(plan, owner, script, m);
    EventsNameTheirSteps(plan, owner, script, m);
  }

  lemma ReportsOfRun(plan: Plan, owner: Owner, script: RunScript, m: nat)
    requires Run(plan, owner, script).error.Some? && m == Depth(plan, script)
    ensures var stack := StackAt(plan, m, owner, script.forward);
      Reports(Run(plan, owner, script).history) ==
        if owner.handler.Nil? then [] else FailureEvents(stack, m, script.unwind)
  {
    var call := if m < |plan.steps| then plan.steps[m].call else plan.commit.value.call;
    FailedRunProjections(plan, owner, script, m, call);
    ReportsAreTheFailures(StackAt(plan, m, owner, script.forward), m, script.unwind);
  }

  lemma AttemptsOfFailedRun(plan: Plan, owner: Owner, script: RunScript, m: nat, call: Call)
    requires m <= |plan.steps|
    ensures Attempts(FailedRun(plan, owner, script, m, call)) ==
      ReversedCalls(Registered(plan.steps, m, script.forward))
  {
    FailedRunProjections(plan, owner, script, m, call);
    AttemptsAreTheReversedStack(StackAt(plan, m, owner, script.forward), m, script.unwind);
    assert Registered(plan.steps, m, script.forward)[..m] == Registered(plan.steps, m, script.forward);
  }

  /** A failed run attempts the reversed stack; a completed run attempts nothing. */
  lemma AttemptsOfRun(plan: Plan, owner: Owner, script: RunScript)
    ensures Attempts(Run(plan, owner, script).history) ==
      if Run(plan, owner, script).error.Some?
      then ReversedCalls(Registered(plan.steps, Depth(plan, script), script.forward)) else []
  {
    var n, m := |plan.steps|, Depth(plan, script);
    if Run(plan, owner, script).error.Some? {
      AttemptsOfFailedRun(plan, owner, script, m, if m < n then plan.steps[m].call else plan.commit.value.call);
    } else {
      ForwardReportsNothing(plan.steps, n, script.forward);
      if plan.commit.Some? {
        ForwardIsSilent(ForwardHistory(plan.steps, n, script.forward), plan.commit.value.call, script.forward(n));
      }
    }
  }

  /**
   Neither the outcomes of compensations, nor sink failures, nor handler panics, nor the presence of
   a handler change the returned error or the sequence of attempted compensations.
   */
  lemma RunIsNonInterfering(
    plan: Plan, owner: Owner, other: Owner, forward: nat -> Outcome, u: UnwindScript, v: UnwindScript)
    ensures var r, q := Run(plan, owner, RunScript(forward, u)), Run(plan, other, RunScript(forward, v));
      && r.error == q.error
      && Attempts(r.history) == Attempts(q.history)
      && (r.error.None? ==> Attempts(r.history) == [] && r.history == q.history)
  {
    AttemptsOfRun(plan, owner, RunScript(forward, u));
    AttemptsOfRun(plan, other, RunScript(forward, v));
  }
}
