/** The compensation stack and its dead-letter handling. */
module Sagas {
  import opened Temporal
  import opened Sequences

  datatype Compensation = Compensation(call: Call, stepName: string)

  /** `Nil` logs only; `Sink` runs an activity per event; `Custom` is any other implementation. */
  datatype Handler = Nil | Sink(fn: string) | Custom

  /** What the environment decides during one unwinding, per stack index. */
  datatype UnwindScript = UnwindScript(
    outcome: nat -> Outcome,  // how the compensation activity ends
    sink: nat -> Outcome,     // how the dead-letter sink activity ends
    panics: nat -> bool,      // whether the handler panics
    now: nat -> Time)         // workflow time of the failure

  /** The part of a saga that unwinding reads. The pivot is not part of it. */
  datatype Stack = Stack(id: string, runId: string, compensations: seq<Compensation>, handler: Handler)

  function StepName(fn: string): string {
    if fn == "" then "unknown" else fn
  }

  function Register(call: Call): Compensation {
    Compensation(call, StepName(call.fn))
  }

  function EventFor(s: Stack, i: nat, script: UnwindScript): CompensationFailureEvent
    requires i < |s.compensations| && script.outcome(i).Failed?
  {
    CompensationFailureEvent(s.id, s.runId, s.compensations[i].stepName, i, script.outcome(i).message, script.now(i))
  }

  function HandlerRecords(h: Handler, e: CompensationFailureEvent, script: UnwindScript): seq<Record> {
    if h.Nil? then []
    else if script.panics(e.stepIndex) then [Reported(e), HandlerPanicked(e.stepIndex)]
    else if h.Sink? then [Reported(e), Sunk(h.fn, e, script.sink(e.stepIndex))]
    else [Reported(e)]
  }

  function UnwindStep(s: Stack, i: nat, script: UnwindScript): seq<Record>
    requires i < |s.compensations|
  {
    [Compensated(i, s.compensations[i].call, script.outcome(i))] +
    if script.outcome(i).Failed? then HandlerRecords(s.handler, EventFor(s, i, script), script) else []
  }

  /** What unwinding the bottom k entries of the stack appends to the history. */
  function Unwind(s: Stack, k: nat, script: UnwindScript): seq<Record>
    requires k <= |s.compensations|
  {
    if k == 0 then [] else UnwindStep(s, k - 1, script) + Unwind(s, k - 1, script)
  }

  /** What one `Compensate` appends. It changes neither the stack nor the completion mark. */
  function Rollback(completed: bool, s: Stack, script: UnwindScript): seq<Record> {
    if completed then [] else Unwind(s, |s.compensations|, script)
  }

  class Saga {
    const ctx: Context
    const id: string
    const runId: string
    var compensations: seq<Compensation>
    var pivotIdx: int
    var completed: bool
    var dlqHandler: Handler

    ghost function Contents(): Stack
      reads this
    {
      Stack(id, runId, compensations, dlqHandler)
    }

    /** NewSaga: options are applied in order, so the last handler given wins. */
    constructor (ctx: Context, options: seq<Handler>)
      ensures this.ctx == ctx && pivotIdx == -1 && !completed
      ensures Contents() == Stack(ctx.id, ctx.runId, [], if options == [] then Nil else options[|options| - 1])
    {
      this.ctx, this.id, this.runId := ctx, ctx.id, ctx.runId;
      this.compensations, this.pivotIdx, this.completed, this.dlqHandler := [], -1, false, Nil;
      new;
      for k := 0 to |options|
        invariant compensations == [] && pivotIdx == -1 && !completed
        invariant dlqHandler == if k == 0 then Nil else options[k - 1]
      {
        dlqHandler := options[k];
      }
    }

    method AddCompensation(call: Call)
      modifies this`compensations
      ensures compensations == old(compensations) + [Register(call)]
      ensures compensations == old(compensations) + [Compensation(call, if call.fn == "" then "unknown" else call.fn)]
    {
      compensations := compensations + [Compensation(call, StepName(call.fn))];
    }

    method SetPivot()
      modifies this`pivotIdx
      ensures pivotIdx == |compensations|
    {
      pivotIdx := |compensations|;
    }

    method Complete()
      modifies this`completed
      ensures completed
    {
      completed := true;
    }

    /** The handler call; returns whether it panicked. A failing sink is swallowed. */
    method OnCompensationFailed(event: CompensationFailureEvent, script: UnwindScript) returns (panicked: bool)
      requires !dlqHandler.Nil?
      modifies ctx`history
      ensures panicked == script.panics(event.stepIndex)
      ensures ctx.history == old(ctx.history) +
        if !panicked && dlqHandler.Sink? then [Sunk(dlqHandler.fn, event, script.sink(event.stepIndex))] else []
    {
      panicked := script.panics(event.stepIndex);
      if !panicked && dlqHandler.Sink? {
        ctx.Append(Sunk(dlqHandler.fn, event, script.sink(event.stepIndex)));
      }
    }

    /** One turn of the rollback loop: never fails, whatever the step or the handler does. */
    method CompensateStep(i: nat, script: UnwindScript)
      requires i < |compensations|
      modifies ctx`history
      ensures ctx.history == old(ctx.history) + UnwindStep(Contents(), i, script)
    {
      var c := compensations[i];
      var outcome := script.outcome(i);
      ctx.Append(Compensated(i, c.call, outcome));
      if outcome.Failed? && !dlqHandler.Nil? {
        var event := CompensationFailureEvent(id, runId, c.stepName, i, outcome.message, script.now(i));
        ctx.Append(Reported(event));
        var panicked := OnCompensationFailed(event, script);
        if panicked {
          ctx.Append(HandlerPanicked(i));
        }
      }
    }

    /** The deferred rollback: last registered first, past every failure and every handler panic. */
    method Compensate(script: UnwindScript)
      modifies ctx`history
      ensures ctx.history == old(ctx.history) + Rollback(completed, Contents(), script)
    {
      if completed {
        return;
      }
      if |compensations| == 0 {
        return;
      }
      var i := |compensations| - 1;
      while i >= 0
        invariant -1 <= i < |compensations|
        invariant ctx.history + Unwind(Contents(), i + 1, script) ==
                  old(ctx.history) + Unwind(Contents(), |compensations|, script)
      {
        Associate(ctx.history, UnwindStep(Contents(), i, script), Unwind(Contents(), i, script));
        CompensateStep(i, script);
        i := i - 1;
      }
    }
  }

  // ---- What unwinding does, for every script ----

  /** The compensation calls in a history, in the order they were attempted. */
  function Attempts(h: seq<Record>): seq<Call> {
    if h == [] then []
    else (if h[0].Compensated? then [h[0].call] else []) + Attempts(h[1..])
  }

  /** The events handed to the dead-letter handler, in order. */
  function Reports(h: seq<Record>): seq<CompensationFailureEvent> {
    if h == [] then []
    else (if h[0].Reported? then [h[0].event] else []) + Reports(h[1..])
  }

  lemma ProjectionsDistribute(a: seq<Record>, b: seq<Record>)
    ensures Attempts(a + b) == Attempts(a) + Attempts(b)
    ensures Reports(a + b) == Reports(a) + Reports(b)
  {
    AttemptsDistribute(a, b);
    ReportsDistribute(a, b);
  }

  lemma {:induction false} AttemptsDistribute(a: seq<Record>, b: seq<Record>)
    ensures Attempts(a + b) == Attempts(a) + Attempts(b)
  {
    if a == [] {
      assert a + b == b;
    } else {
      assert (a + b)[1..] == a[1..] + b;
      AttemptsDistribute(a[1..], b);
      Associate(if a[0].Compensated? then [a[0].call] else [], Attempts(a[1..]), Attempts(b));
    }
  }

  lemma {:induction false} ReportsDistribute(a: seq<Record>, b: seq<Record>)
    ensures Reports(a + b) == Reports(a) + Reports(b)
  {
    if a == [] {
      assert a + b == b;
    } else {
      assert (a + b)[1..] == a[1..] + b;
      ReportsDistribute(a[1..], b);
      Associate(if a[0].Reported? then [a[0].event] else [], Reports(a[1..]), Reports(b));
    }
  }

  lemma SingleProjections(r: Record, rest: seq<Record>)
    ensures Attempts([r] + rest) == (if r.Compensated? then [r.call] else []) + Attempts(rest)
    ensures Reports([r] + rest) == (if r.Reported? then [r.event] else []) + Reports(rest)
  {
    assert ([r] + rest)[1..] == rest;
  }

  lemma HandlerProjections(h: Handler, e: CompensationFailureEvent, script: UnwindScript)
    ensures Attempts(HandlerRecords(h, e, script)) == []
    ensures Reports(HandlerRecords(h, e, script)) == if h.Nil? then [] else [e]
  {
    var records := HandlerRecords(h, e, script);
    if |records| == 2 {
      assert records == [records[0]] + ([records[1]] + []);
      SingleProjections(records[1], []);
      SingleProjections(records[0], [records[1]]);
    } else if |records| == 1 {
      assert records == [records[0]] + [];
      SingleProjections(records[0], []);
    }
  }

  lemma StepAttempts(s: Stack, i: nat, script: UnwindScript)
    requires i < |s.compensations|
    ensures Attempts(UnwindStep(s, i, script)) == [s.compensations[i].call]
  {
    var first := Compensated(i, s.compensations[i].call, script.outcome(i));
    if script.outcome(i).Failed? {
      var e := EventFor(s, i, script);
      SingleProjections(first, HandlerRecords(s.handler, e, script));
      HandlerProjections(s.handler, e, script);
    } else {
      SingleProjections(first, []);
    }
  }

  lemma StepReports(s: Stack, i: nat, script: UnwindScript)
    requires i < |s.compensations|
    ensures Reports(UnwindStep(s, i, script)) ==
      if script.outcome(i).Failed? && !s.handler.Nil? then [EventFor(s, i, script)] else []
  {
    var first := Compensated(i, s.compensations[i].call, script.outcome(i));
    if script.outcome(i).Failed? {
      var e := EventFor(s, i, script);
      SingleProjections(first, HandlerRecords(s.handler, e, script));
      HandlerProjections(s.handler, e, script);
    } else {
      SingleProjections(first, []);
    }
  }

  /** How one more stack entry changes the attempts. */
  lemma UnwindAttempts(s: Stack, k: nat, script: UnwindScript)
    requires 0 < k <= |s.compensations|
    ensures Attempts(Unwind(s, k, script)) == [s.compensations[k - 1].call] + Attempts(Unwind(s, k - 1, script))
  {
    StepAttempts(s, k - 1, script);
    AttemptsDistribute(UnwindStep(s, k - 1, script), Unwind(s, k - 1, script));
  }

  /** How one more stack entry changes the reports. */
  lemma UnwindReports(s: Stack, k: nat, script: UnwindScript)
    requires 0 < k <= |s.compensations|
    ensures Reports(Unwind(s, k, script)) ==
      (if script.outcome(k - 1).Failed? && !s.handler.Nil? then [EventFor(s, k - 1, script)] else []) +
      Reports(Unwind(s, k - 1, script))
  {
    StepReports(s, k - 1, script);
    ReportsDistribute(UnwindStep(s, k - 1, script), Unwind(s, k - 1, script));
  }

  /** Attempted compensations: exactly the registered calls, reversed, whatever fails or panics. */
  lemma {:induction false} AttemptsAreTheReversedStack(s: Stack, k: nat, script: UnwindScript)
    requires k <= |s.compensations|
    ensures Attempts(Unwind(s, k, script)) == ReversedCalls(s.compensations[..k])
  {
    if k > 0 {
      UnwindAttempts(s, k, script);
      AttemptsAreTheReversedStack(s, k - 1, script);
      ReversedCallsSnoc(s.compensations[..k - 1], s.compensations[k - 1]);
      assert s.compensations[..k] == s.compensations[..k - 1] + [s.compensations[k - 1]];
    }
  }

  // ---- The dead-letter sink and handler panics ----

  /** The sink activities in a history, in order. */
  function SinkCalls(h: seq<Record>): seq<Record> {
    if h == [] then [] else (if h[0].Sunk? then [h[0]] else []) + SinkCalls(h[1..])
  }

  /** The steps whose handler call panicked, in order. */
  function Panics(h: seq<Record>): seq<nat> {
    if h == [] then [] else (if h[0].HandlerPanicked? then [h[0].index] else []) + Panics(h[1..])
  }

  lemma {:induction false} SinkCallsDistribute(a: seq<Record>, b: seq<Record>)
    ensures SinkCalls(a + b) == SinkCalls(a) + SinkCalls(b)
  {
    if a == [] {
      assert a + b == b;
    } else {
      assert (a + b)[1..] == a[1..] + b;
      SinkCallsDistribute(a[1..], b);
      Associate(if a[0].Sunk? then [a[0]] else [], SinkCalls(a[1..]), SinkCalls(b));
    }
  }

  lemma {:induction false} PanicsDistribute(a: seq<Record>, b: seq<Record>)
    ensures Panics(a + b) == Panics(a) + Panics(b)
  {
    if a == [] {
      assert a + b == b;
    } else {
      assert (a + b)[1..] == a[1..] + b;
      PanicsDistribute(a[1..], b);
      Associate(if a[0].HandlerPanicked? then [a[0].index] else [], Panics(a[1..]), Panics(b));
    }
  }

  /** Step i fails for good, and its handler runs the sink for the step's own event. */
  ghost predicate SinksAt(s: Stack, i: nat, script: UnwindScript, r: Record) {
    && i < |s.compensations| && s.handler.Sink? && script.outcome(i).Failed? && !script.panics(i)
    && r == Sunk(
         s.handler.fn,
         CompensationFailureEvent(
           s.id, s.runId, s.compensations[i].stepName, i, script.outcome(i).message, script.now(i)),
         script.sink(i))
  }

  /** One sink call per such step below k, none for any other, in strictly decreasing order. */
  ghost predicate SinksFailures(calls: seq<Record>, s: Stack, k: nat, script: UnwindScript) {
    && (forall r :: r in calls ==> r.Sunk? && r.event.stepIndex < k && SinksAt(s, r.event.stepIndex, script, r))
    && (forall j, l :: 0 <= j < l < |calls| && calls[j].Sunk? && calls[l].Sunk? ==>
          calls[j].event.stepIndex > calls[l].event.stepIndex)
    && (forall i: nat, r :: i < k && SinksAt(s, i, script, r) ==> r in calls)
  }

  lemma StepSinks(s: Stack, i: nat, script: UnwindScript)
    requires i < |s.compensations|
    ensures forall r :: r in SinkCalls(UnwindStep(s, i, script)) <==> SinksAt(s, i, script, r)
    ensures |SinkCalls(UnwindStep(s, i, script))| <= 1
  {
    var step := UnwindStep(s, i, script);
    assert SinkCalls(step) == SinkCalls(step[1..]);
    if |step| > 1 {
      assert SinkCalls(step[1..]) == SinkCalls(step[1..][1..]);
    }
    if |step| > 2 {
      assert step[1..][1..] == [step[2]];
      assert SinkCalls([step[2]]) == if step[2].Sunk? then [step[2]] else [];
    }
  }

  lemma UnwindSinks(s: Stack, k: nat, script: UnwindScript)
    requires 0 < k <= |s.compensations|
    ensures SinkCalls(Unwind(s, k, script)) ==
      SinkCalls(UnwindStep(s, k - 1, script)) + SinkCalls(Unwind(s, k - 1, script))
  {
    SinkCallsDistribute(UnwindStep(s, k - 1, script), Unwind(s, k - 1, script));
  }

  /** Whatever happens, the dead-letter sink runs exactly once for every failed step whose handler did not panic. */
  lemma {:induction false} SinkCallsAreExact(s: Stack, k: nat, script: UnwindScript)
    requires k <= |s.compensations|
    ensures SinksFailures(SinkCalls(Unwind(s, k, script)), s, k, script)
  {
    if k > 0 {
      SinkCallsAreExact(s, k - 1, script);
      StepSinks(s, k - 1, script);
      UnwindSinks(s, k, script);
      OneMoreSink(SinkCalls(UnwindStep(s, k - 1, script)), SinkCalls(Unwind(s, k - 1, script)), s, k, script);
    }
  }

  lemma OneMoreSink(step: seq<Record>, rest: seq<Record>, s: Stack, k: nat, script: UnwindScript)
    requires 0 < k <= |s.compensations| && |step| <= 1
    requires forall r :: r in step <==> SinksAt(s, k - 1, script, r)
    requires SinksFailures(rest, s, k - 1, script)
    ensures SinksFailures(step + rest, s, k, script)
  {
    if step != [] {
      assert step[0] in step;
      assert forall r :: r in rest ==> r.Sunk? && r.event.stepIndex < k - 1;
    }
  }

  /** The failed steps below k whose handler panics, each once, in strictly decreasing order. */
  ghost predicate PanicsOf(ps: seq<nat>, s: Stack, k: nat, script: UnwindScript) {
    && (forall j, l :: 0 <= j < l < |ps| ==> ps[j] > ps[l])
    && (forall i: nat :: i in ps <==> i < k && !s.handler.Nil? && script.outcome(i).Failed? && script.panics(i))
  }

  lemma OneMorePanic(rest: seq<nat>, s: Stack, k: nat, script: UnwindScript)
    requires k > 0 && PanicsOf(rest, s, k - 1, script)
    ensures PanicsOf(
      (if !s.handler.Nil? && script.outcome(k - 1).Failed? && script.panics(k - 1) then [k - 1] else []) + rest,
      s, k, script)
  {
    assert forall j :: 0 <= j < |rest| ==> rest[j] in rest;
  }

  lemma UnwindPanics(s: Stack, k: nat, script: UnwindScript)
    requires 0 < k <= |s.compensations|
    ensures Panics(Unwind(s, k, script)) ==
      (if !s.handler.Nil? && script.outcome(k - 1).Failed? && script.panics(k - 1) then [k - 1] else []) +
      Panics(Unwind(s, k - 1, script))
  {
    StepPanics(s, k - 1, script);
    PanicsDistribute(UnwindStep(s, k - 1, script), Unwind(s, k - 1, script));
  }

  /** Exactly the failed steps whose handler panics leave a panic, each one, and no panic stops the rollback. */
  lemma {:induction false} PanicsAreExact(s: Stack, k: nat, script: UnwindScript)
    requires k <= |s.compensations|
    ensures PanicsOf(Panics(Unwind(s, k, script)), s, k, script)
  {
    if k > 0 {
      PanicsAreExact(s, k - 1, script);
      UnwindPanics(s, k, script);
      OneMorePanic(Panics(Unwind(s, k - 1, script)), s, k, script);
    }
  }

  lemma StepPanics(s: Stack, i: nat, script: UnwindScript)
    requires i < |s.compensations|
    ensures Panics(UnwindStep(s, i, script)) ==
      if !s.handler.Nil? && script.outcome(i).Failed? && script.panics(i) then [i] else []
  {
    var step := UnwindStep(s, i, script);
    assert Panics(step) == Panics(step[1..]);
    if |step| > 1 {
      assert Panics(step[1..]) == Panics(step[1..][1..]);
    }
    if |step| > 2 {
      assert step[1..][1..] == [step[2]];
      assert Panics([step[2]]) == if step[2].HandlerPanicked? then [step[2].index] else [];
    }
  }

  /** What a rollback does before step i, then step i with everything its handler does, then the steps below. */
  lemma {:induction false} UnwindSplits(s: Stack, k: nat, i: nat, script: UnwindScript) returns (above: seq<Record>)
    requires i < k <= |s.compensations|
    ensures Unwind(s, k, script) == above + UnwindStep(s, i, script) + Unwind(s, i, script)
  {
    if i == k - 1 {
      above := [];
      assert [] + UnwindStep(s, i, script) == UnwindStep(s, i, script);
    } else {
      var rest := UnwindSplits(s, k - 1, i, script);
      above := UnwindStep(s, k - 1, script) + rest;
      Associate(UnwindStep(s, k - 1, script), rest, UnwindStep(s, i, script));
      Associate(UnwindStep(s, k - 1, script), rest + UnwindStep(s, i, script), Unwind(s, i, script));
    }
  }

  /**
   The dead-letter sink is awaited: after a failed step, its sink activity has ended, in whatever way, before the
   next compensation is attempted, and that one comes right after it.
   */
  lemma SinkIsAwaited(s: Stack, k: nat, i: nat, script: UnwindScript) returns (p: nat)
    requires 0 < i < k <= |s.compensations|
    requires s.handler.Sink? && script.outcome(i).Failed? && !script.panics(i)
    ensures var h := Unwind(s, k, script);
      && p + 1 < |h|
      && h[p] == Sunk(s.handler.fn, EventFor(s, i, script), script.sink(i))
      && h[p + 1] == Compensated(i - 1, s.compensations[i - 1].call, script.outcome(i - 1))
  {
    var above := UnwindSplits(s, k, i, script);
    p := |above| + 2;
    assert |UnwindStep(s, i, script)| == 3;
    assert Unwind(s, i, script)[0] == UnwindStep(s, i - 1, script)[0];
  }

  /** Last registered, first undone. */
  function ReversedCalls(cs: seq<Compensation>): (r: seq<Call>)
    ensures |r| == |cs|
    ensures forall j :: 0 <= j < |r| ==> r[j] == cs[|cs| - 1 - j].call
  {
    seq(|cs|, j requires 0 <= j < |cs| => cs[|cs| - 1 - j].call)
  }

  lemma ReversedCallsSnoc(cs: seq<Compensation>, c: Compensation)
    ensures ReversedCalls(cs + [c]) == [c.call] + ReversedCalls(cs)
  {
  }

  /** Two unwindings of the same calls attempt the same sequence under any two scripts and handlers. */
  lemma UnwindingIsNonInterfering(s: Stack, t: Stack, script: UnwindScript, other: UnwindScript)
    requires s.compensations == t.compensations
    ensures Attempts(Unwind(s, |s.compensations|, script)) == Attempts(Unwind(t, |t.compensations|, other))
  {
    AttemptsAreTheReversedStack(s, |s.compensations|, script);
    AttemptsAreTheReversedStack(t, |t.compensations|, other);
  }

  /**
   A second `Compensate` on the same saga attempts everything once more. It adds nothing to the history exactly
   when the saga is completed or has nothing on its stack.
   */
  lemma SecondRollback(completed: bool, s: Stack, script: UnwindScript, again: UnwindScript)
    ensures Rollback(completed, s, script) + Rollback(completed, s, again) == Rollback(completed, s, script)
      <==> completed || s.compensations == []
    ensures var twice := Attempts(Rollback(completed, s, script) + Rollback(completed, s, again));
      twice == if completed then [] else ReversedCalls(s.compensations) + ReversedCalls(s.compensations)
  {
    var k := |s.compensations|;
    ProjectionsDistribute(Rollback(completed, s, script), Rollback(completed, s, again));
    AttemptsAreTheReversedStack(s, k, script);
    AttemptsAreTheReversedStack(s, k, again);
    assert s.compensations[..k] == s.compensations;
    assert Rollback(completed, s, again) == [] <==> completed || k == 0;
  }

  /** The events of the permanently failed steps below k, highest index first. */
  function FailureEvents(s: Stack, k: nat, script: UnwindScript): seq<CompensationFailureEvent>
    requires k <= |s.compensations|
  {
    if k == 0 then []
    else (if script.outcome(k - 1).Failed? then [EventFor(s, k - 1, script)] else []) + FailureEvents(s, k - 1, script)
  }

  lemma FailureEventsNext(s: Stack, k: nat, script: UnwindScript)
    requires 0 < k <= |s.compensations|
    ensures FailureEvents(s, k, script) ==
      if script.outcome(k - 1).Failed? then [EventFor(s, k - 1, script)] + FailureEvents(s, k - 1, script)
      else FailureEvents(s, k - 1, script)
  {
  }

  /** The event carries the saga's identity and the failed step's own name, index, message and time. */
  ghost predicate Describes(e: CompensationFailureEvent, s: Stack, i: nat, script: UnwindScript) {
    && i < |s.compensations| && script.outcome(i).Failed?
    && e.sagaId == s.id && e.runId == s.runId && e.stepIndex == i && e.stepName == s.compensations[i].stepName
    && e.errorMessage == script.outcome(i).message && e.occurredAt == script.now(i)
  }

  /** One event per permanently failed step below k, none for any other, in strictly decreasing order. */
  ghost predicate NamesFailures(es: seq<CompensationFailureEvent>, s: Stack, k: nat, script: UnwindScript)
    requires k <= |s.compensations|
  {
    && (forall e :: e in es ==> e.stepIndex < k && Describes(e, s, e.stepIndex, script))
    && (forall j, l :: 0 <= j < l < |es| ==> es[j].stepIndex > es[l].stepIndex)
    && (forall i: nat :: i < k && script.outcome(i).Failed? ==> EventFor(s, i, script) in es)
  }

  lemma NamesFailuresCons(es: seq<CompensationFailureEvent>, s: Stack, k: nat, script: UnwindScript)
    requires 0 < k <= |s.compensations| && NamesFailures(es, s, k - 1, script)
    ensures NamesFailures(
      (if script.outcome(k - 1).Failed? then [EventFor(s, k - 1, script)] else []) + es, s, k, script)
  {
  }

  lemma {:induction false} FailureEventsAreExact(s: Stack, k: nat, script: UnwindScript)
    requires k <= |s.compensations|
    ensures NamesFailures(FailureEvents(s, k, script), s, k, script)
  {
    if k > 0 {
      FailureEventsAreExact(s, k - 1, script);
      NamesFailuresCons(FailureEvents(s, k - 1, script), s, k, script);
    }
  }

  /** What a handler is told about the steps below k. */
  function Told(s: Stack, k: nat, script: UnwindScript): seq<CompensationFailureEvent>
    requires k <= |s.compensations|
  {
    if s.handler.Nil? then [] else FailureEvents(s, k, script)
  }

  lemma ToldNext(s: Stack, k: nat, script: UnwindScript)
    requires 0 < k <= |s.compensations|
    ensures Told(s, k, script) ==
      (if script.outcome(k - 1).Failed? && !s.handler.Nil? then [EventFor(s, k - 1, script)] else []) +
      Told(s, k - 1, script)
  {
  }

  /** A configured handler is told exactly the failures; without a handler nothing is reported. */
  lemma {:induction false} ReportsAreTheFailures(s: Stack, k: nat, script: UnwindScript)
    requires k <= |s.compensations|
    ensures Reports(Unwind(s, k, script)) == Told(s, k, script)
  {
    if k > 0 {
      ReportsAreTheFailures(s, k - 1, script);
      UnwindReports(s, k, script);
      ToldNext(s, k, script);
    }
  }
}
