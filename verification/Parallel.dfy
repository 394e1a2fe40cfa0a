/** Fan-out and fan-in: all activities are scheduled, then collected in the order they complete. */
module Parallel {
  import opened Temporal
  import opened Sequences
  import opened Decimal

  /** How an activity's future resolves, once. */
  datatype Ending<V> = Value(value: V) | Error(message: string)

  /** `resultPtr` is nil or the cell the activity's result is decoded into. */
  datatype ActivityCall = ActivityCall(call: Call, resultPtr: Option<nat>)

  datatype ParallelResult = ParallelResult(index: nat, err: Option<string>)

  datatype Failure = Wrapped(index: nat, cause: string) | Combined(message: string)

  function Message(f: Failure): string {
    match f
    case Wrapped(index, cause) => "activity[" + Itoa(index) + "]: " + cause
    case Combined(message) => message
  }

  // ---- The selector and the order in which it fires ----

  function Remove<T>(s: seq<T>, i: nat): seq<T>
    requires i < |s|
  {
    s[..i] + s[i + 1..]
  }

  /** Which of n ready futures fires next is up to the environment. */
  function Choice(picks: seq<nat>, n: nat): (i: nat)
    requires n > 0
    ensures i < n
  {
    if picks == [] || picks[0] >= n then 0 else picks[0]
  }

  function Rest(picks: seq<nat>): seq<nat> {
    if picks == [] then [] else picks[1..]
  }

  /** The order in which a selector over these futures fires under these choices. */
  function Order(pending: seq<nat>, picks: seq<nat>): seq<nat>
    decreases |pending|
  {
    if pending == [] then []
    else
      var i := Choice(picks, |pending|);
      [pending[i]] + Order(Remove(pending, i), Rest(picks))
  }

  class Selector {
    var pending: seq<nat>

    constructor ()
      ensures pending == []
    {
      pending := [];
    }

    method AddFuture(index: nat)
      modifies this
      ensures pending == old(pending) + [index]
    {
      pending := pending + [index];
    }

    /** Fires one pending future. With none pending the real selector would block forever. */
    method Select(picks: seq<nat>) returns (index: nat)
      requires pending != []
      modifies this
      ensures index == old(pending)[Choice(picks, |old(pending)|)]
      ensures pending == Remove(old(pending), Choice(picks, |old(pending)|))
    {
      var i := Choice(picks, |pending|);
      index := pending[i];
      pending := Remove(pending, i);
    }
  }

  // ---- What a completion order produces ----

  function ResultOf<V>(outcome: nat -> Ending<V>, i: nat): ParallelResult {
    ParallelResult(i, if outcome(i).Error? then Some(outcome(i).message) else None)
  }

  function ResultsOf<V>(outcome: nat -> Ending<V>, order: seq<nat>): seq<ParallelResult> {
    if order == [] then []
    else ResultsOf(outcome, order[..|order| - 1]) + [ResultOf(outcome, order[|order| - 1])]
  }

  predicate PointersFit(calls: seq<ActivityCall>, n: nat) {
    forall c :: c in calls && c.resultPtr.Some? ==> c.resultPtr.value < n
  }

  /** A successful activity writes its own cell; a failed one writes nothing. */
  function Decode<V>(cells: seq<V>, c: ActivityCall, e: Ending<V>): (after: seq<V>)
    requires c.resultPtr.Some? ==> c.resultPtr.value < |cells|
    ensures |after| == |cells|
  {
    if c.resultPtr.Some? && e.Value? then cells[c.resultPtr.value := e.value] else cells
  }

  predicate InRange(order: seq<nat>, n: nat) {
    forall j :: 0 <= j < |order| ==> order[j] < n
  }

  function CellsAfter<V>(cells: seq<V>, calls: seq<ActivityCall>, outcome: nat -> Ending<V>, order: seq<nat>)
    : (after: seq<V>)
    requires PointersFit(calls, |cells|)
    requires InRange(order, |calls|)
    ensures |after| == |cells|
  {
    if order == [] then cells
    else
      var last := order[|order| - 1];
      Decode(CellsAfter(cells, calls, outcome, order[..|order| - 1]), calls[last], outcome(last))
  }

  function Failures(results: seq<ParallelResult>): seq<Failure> {
    if results == [] then []
    else
      var last := results[|results| - 1];
      Failures(results[..|results| - 1]) + if last.err.Some? then [Wrapped(last.index, last.err.value)] else []
  }

  function Listing(errs: seq<Failure>): string {
    if errs == [] then "" else Listing(errs[..|errs| - 1]) + ("\n  - " + Message(errs[|errs| - 1]))
  }

  function ErrorFor(errs: seq<Failure>): Option<Failure> {
    if errs == [] then None
    else if |errs| == 1 then Some(errs[0])
    else Some(Combined(Itoa(|errs|) + " activities failed:" + Listing(errs)))
  }

  function Indices(n: nat): (s: seq<nat>)
    ensures |s| == n && forall i :: 0 <= i < n ==> s[i] == i
  {
    seq(n, i => i)
  }

  lemma ListingNext(errs: seq<Failure>, k: nat)
    requires k < |errs|
    ensures Listing(errs[..k + 1]) == Listing(errs[..k]) + ("\n  - " + Message(errs[k]))
  {
    assert errs[..k + 1][..k] == errs[..k];
  }

  method CombineErrors(errs: seq<Failure>) returns (err: Failure)
    requires errs != []
    ensures Some(err) == ErrorFor(errs)
    ensures |errs| >= 2 ==>
      err.Combined? && exists offsets :: Lists(err.message, Itoa(|errs|) + " activities failed:", errs, offsets)
  {
    if |errs| == 1 {
      return errs[0];
    }
    var header := Itoa(|errs|) + " activities failed:";
    var msg := header;
    for k := 0 to |errs|
      invariant msg == header + Listing(errs[..k])
    {
      ListingNext(errs, k);
      Associate(header, Listing(errs[..k]), "\n  - " + Message(errs[k]));
      msg := msg + ("\n  - " + Message(errs[k]));
    }
    assert errs[..|errs|] == errs;
    ghost var _ := ListingLists(header, errs);
    return Combined(msg);
  }

  /** fut.Get: decodes the value into the call's cell, if it has one and the activity succeeded. */
  method CompleteOne<V>(calls: seq<ActivityCall>, index: nat, ending: Ending<V>, cells: array<V>)
    requires PointersFit(calls, cells.Length) && index < |calls|
    modifies cells
    ensures calls[index].resultPtr.Some? ==> calls[index].resultPtr.value < cells.Length
    ensures cells[..] == Decode(old(cells[..]), calls[index], ending)
  {
    var call := calls[index];
    assert call in calls;
    if call.resultPtr.Some? && ending.Value? {
      cells[call.resultPtr.value] := ending.value;
    }
  }

  /** One Select and the callback it fires: decode into the cell, and report how the activity ended. */
  method FireOne<V>(
    sel: Selector, calls: seq<ActivityCall>, outcome: nat -> Ending<V>, picks: seq<nat>, cells: array<V>)
    returns (result: ParallelResult)
    requires PointersFit(calls, cells.Length) && sel.pending != [] && InRange(sel.pending, |calls|)
    modifies sel, cells
    ensures sel.pending == Remove(old(sel.pending), Choice(picks, |old(sel.pending)|))
    ensures InRange(sel.pending, |calls|)
    ensures result == ResultOf(outcome, old(sel.pending)[Choice(picks, |old(sel.pending)|)])
    ensures result.index < |calls| && PointersFit(calls, |old(cells[..])|)
    ensures calls[result.index].resultPtr.Some? ==> calls[result.index].resultPtr.value < |old(cells[..])|
    ensures cells[..] == Decode(old(cells[..]), calls[result.index], outcome(result.index))
  {
    var index := sel.Select(picks);
    CompleteOne(calls, index, outcome(index), cells);
    result := ParallelResult(index, if outcome(index).Error? then Some(outcome(index).message) else None);
  }

  /** The fan-in loop: one Select per call, each appending one result and decoding into one cell. */
  method FanIn<V>(sel: Selector, calls: seq<ActivityCall>, outcome: nat -> Ending<V>, picks: seq<nat>, cells: array<V>)
    returns (results: seq<ParallelResult>)
    requires PointersFit(calls, cells.Length) && |sel.pending| == |calls| && InRange(sel.pending, |calls|)
    modifies sel, cells
    ensures sel.pending == []
    ensures InRange(Order(old(sel.pending), picks), |calls|)
    ensures results == ResultsOf(outcome, Order(old(sel.pending), picks))
    ensures cells[..] == CellsAfter(old(cells[..]), calls, outcome, Order(old(sel.pending), picks))
  {
    ghost var order := Order(sel.pending, picks);
    results := [];
    ghost var done: seq<nat> := [];
    var choices := picks;
    for k := 0 to |calls|
      invariant |sel.pending| == |calls| - k && InRange(sel.pending, |calls|)
      invariant order == done + Order(sel.pending, choices)
      invariant InRange(done, |calls|)
      invariant results == ResultsOf(outcome, done)
      invariant cells[..] == CellsAfter(old(cells[..]), calls, outcome, done)
    {
      ghost var before := done;
      var result := FireOne(sel, calls, outcome, choices, cells);
      results := results + [result];
      done := done + [result.index];
      choices := Rest(choices);
      Associate(before, [result.index], Order(sel.pending, choices));
      assert done[..|done| - 1] == before;
    }
    assert order == done;
  }

  /** The aggregation loop. */
  method CollectErrors(results: seq<ParallelResult>) returns (errs: seq<Failure>)
    ensures errs == Failures(results)
  {
    errs := [];
    for k := 0 to |results|
      invariant errs == Failures(results[..k])
    {
      var r := results[k];
      assert results[..k + 1][..k] == results[..k];
      if r.err.Some? {
        errs := errs + [Wrapped(r.index, r.err.value)];
      }
    }
    assert results[..|results|] == results;
  }

  method ExecuteParallel<V>(calls: seq<ActivityCall>, outcome: nat -> Ending<V>, picks: seq<nat>, cells: array<V>)
    returns (results: seq<ParallelResult>, err: Option<Failure>)
    requires PointersFit(calls, cells.Length)
    modifies cells
    ensures InRange(Order(Indices(|calls|), picks), |calls|)
    ensures results == ResultsOf(outcome, Order(Indices(|calls|), picks))
    ensures err == ErrorFor(Failures(results))
    ensures cells[..] == CellsAfter(old(cells[..]), calls, outcome, Order(Indices(|calls|), picks))
  {
    if |calls| == 0 {
      return [], None;
    }
    var sel := new Selector();
    for i := 0 to |calls|
      invariant fresh(sel) && sel.pending == Indices(i)
      invariant cells[..] == old(cells[..])
    {
      sel.AddFuture(i);
    }
    results := FanIn(sel, calls, outcome, picks, cells);
    var errs := CollectErrors(results);
    if |errs| > 0 {
      var combined := CombineErrors(errs);
      return results, Some(combined);
    }
    return results, None;
  }

  method ExecuteParallelBestEffort<V>(
    calls: seq<ActivityCall>, outcome: nat -> Ending<V>, picks: seq<nat>, cells: array<V>)
    returns (results: seq<ParallelResult>)
    requires PointersFit(calls, cells.Length)
    modifies cells
    ensures InRange(Order(Indices(|calls|), picks), |calls|)
    ensures results == ResultsOf(outcome, Order(Indices(|calls|), picks))
    ensures cells[..] == CellsAfter(old(cells[..]), calls, outcome, Order(Indices(|calls|), picks))
  {
    var ignored;
    results, ignored := ExecuteParallel(calls, outcome, picks, cells);
  }

  // ---- Theorems about every completion order ----

  lemma RemovePermutes<T>(s: seq<T>, i: nat)
    requires i < |s|
    ensures multiset(s) == multiset{s[i]} + multiset(Remove(s, i))
  {
    assert s == s[..i] + [s[i]] + s[i + 1..];
  }

  /** Permutations stay permutations when the same element is taken out of both. */
  lemma PullOut<T>(a: seq<T>, k: nat, b: seq<T>) returns (i: nat)
    requires multiset(a) == multiset(b) && k < |a|
    ensures |a| == |b| && i < |b| && b[i] == a[k]
    ensures multiset(Remove(a, k)) == multiset(Remove(b, i))
  {
    assert |multiset(a)| == |a| && |multiset(b)| == |b|;
    assert a[k] in multiset(a);
    i :| i < |b| && b[i] == a[k];
    RemovePermutes(a, k);
    RemovePermutes(b, i);
    SubtractOne(multiset(Remove(a, k)), multiset(Remove(b, i)), a[k]);
  }

  lemma SubtractOne<T>(a: multiset<T>, b: multiset<T>, x: T)
    requires multiset{x} + a == multiset{x} + b
    ensures a == b
  {
    assert (multiset{x} + a) - multiset{x} == a;
    assert (multiset{x} + b) - multiset{x} == b;
  }

  /** Every future fires exactly once. */
  lemma {:induction false} OrderPermutes(pending: seq<nat>, picks: seq<nat>)
    ensures multiset(Order(pending, picks)) == multiset(pending)
    decreases |pending|
  {
    if pending != [] {
      var i := Choice(picks, |pending|);
      RemovePermutes(pending, i);
      OrderPermutes(Remove(pending, i), Rest(picks));
    }
  }

  /** And every order is the firing order of some environment. */
  lemma {:induction false} EveryOrderIsPossible(pending: seq<nat>, order: seq<nat>) returns (picks: seq<nat>)
    requires multiset(order) == multiset(pending)
    ensures Order(pending, picks) == order
    decreases |pending|
  {
    if pending == [] {
      assert |multiset(order)| == |order|;
      picks := [];
    } else {
      assert |multiset(order)| == |order| && |multiset(pending)| == |pending|;
      var i := PullOut(order, 0, pending);
      assert Remove(order, 0) == order[1..];
      var rest := EveryOrderIsPossible(Remove(pending, i), order[1..]);
      picks := [i] + rest;
      FirstPick(pending, i, rest);
    }
  }

  lemma FirstPick(pending: seq<nat>, i: nat, rest: seq<nat>)
    requires i < |pending|
    ensures Order(pending, [i] + rest) == [pending[i]] + Order(Remove(pending, i), rest)
  {
    assert ([i] + rest)[1..] == rest;
  }

  ghost predicate IsOrder(order: seq<nat>, n: nat) {
    multiset(order) == multiset(Indices(n))
  }

  lemma {:induction false} IndicesOnce(n: nat, i: nat)
    ensures multiset(Indices(n))[i] == if i < n then 1 else 0
  {
    if n > 0 {
      IndicesOnce(n - 1, i);
      assert Indices(n) == Indices(n - 1) + [n - 1];
    }
  }

  lemma {:induction false} ResultsAt<V>(outcome: nat -> Ending<V>, order: seq<nat>)
    ensures |ResultsOf(outcome, order)| == |order|
    ensures forall j :: 0 <= j < |order| ==> ResultsOf(outcome, order)[j] == ResultOf(outcome, order[j])
  {
    if order != [] {
      ResultsAt(outcome, order[..|order| - 1]);
    }
  }

  /** A completion order has no repetition, covers every index, and nothing else. */
  lemma OrderIsAPermutation(order: seq<nat>, n: nat)
    requires IsOrder(order, n)
    ensures |order| == n && InRange(order, n) && NoRepeats(order)
    ensures forall i: nat :: i in order <==> i < n
  {
    assert |multiset(order)| == |order| && |multiset(Indices(n))| == n;
    forall i: nat ensures i in order <==> i < n {
      IndicesOnce(n, i);
      assert i in order <==> i in multiset(order);
    }
    assert forall j :: 0 <= j < |order| ==> order[j] in order;
    forall j, k | 0 <= j < k < |order| ensures order[j] != order[k] {
      if order[j] == order[k] {
        IndicesOnce(n, order[k]);
        TwiceInMultiset(order, j, k);
      }
    }
  }

  lemma TwiceInMultiset(order: seq<nat>, j: nat, k: nat)
    requires j < k < |order| && order[j] == order[k]
    ensures multiset(order)[order[k]] >= 2
  {
    assert order == order[..k] + [order[k]] + order[k + 1..];
    assert order[..k] == order[..j] + [order[j]] + order[..k][j + 1..];
  }

  /**
   After n selects the results are a permutation of the calls: every index once, each with the error of
   its own activity.
   */
  lemma FanInIsCorrect<V>(n: nat, outcome: nat -> Ending<V>, order: seq<nat>)
    requires IsOrder(order, n)
    ensures var results := ResultsOf(outcome, order);
      && |results| == n
      && (forall j :: 0 <= j < n ==> results[j].index < n && results[j] == ResultOf(outcome, results[j].index))
      && (forall j, k :: 0 <= j < k < n ==> results[j].index != results[k].index)
      && (forall i: nat :: i < n ==> ResultOf(outcome, i) in results)
  {
    OrderIsAPermutation(order, n);
    ResultsAt(outcome, order);
    forall i: nat | i < n ensures ResultOf(outcome, i) in ResultsOf(outcome, order) {
      assert i in order;
      var j :| 0 <= j < |order| && order[j] == i;
      assert ResultsOf(outcome, order)[j] == ResultOf(outcome, i);
    }
  }

  predicate AllSucceeded<V>(n: nat, outcome: nat -> Ending<V>) {
    forall i: nat :: i < n ==> outcome(i).Value?
  }

  predicate AllFine(results: seq<ParallelResult>) {
    forall r :: r in results ==> r.err.None?
  }

  lemma SuccessesAreFine<V>(n: nat, outcome: nat -> Ending<V>, order: seq<nat>)
    requires IsOrder(order, n) && AllSucceeded(n, outcome)
    ensures AllFine(ResultsOf(outcome, order))
  {
    FanInIsCorrect(n, outcome, order);
  }

  lemma FineMeansSuccess<V>(n: nat, outcome: nat -> Ending<V>, order: seq<nat>)
    requires IsOrder(order, n) && AllFine(ResultsOf(outcome, order))
    ensures AllSucceeded(n, outcome)
  {
    FanInIsCorrect(n, outcome, order);
    forall i: nat | i < n ensures outcome(i).Value? {
      assert ResultOf(outcome, i) in ResultsOf(outcome, order);
    }
  }

  /** The combined error is nil exactly when every activity succeeded. */
  lemma {:induction false} NoErrorIffAllSucceeded<V>(n: nat, outcome: nat -> Ending<V>, order: seq<nat>)
    requires IsOrder(order, n)
    ensures ErrorFor(Failures(ResultsOf(outcome, order))).None? <==> AllSucceeded(n, outcome)
  {
    NoFailures(ResultsOf(outcome, order));
    if AllSucceeded(n, outcome) {
      SuccessesAreFine(n, outcome, order);
    } else if AllFine(ResultsOf(outcome, order)) {
      FineMeansSuccess(n, outcome, order);
    }
  }

  lemma {:induction false} NoFailures(results: seq<ParallelResult>)
    ensures Failures(results) == [] <==> AllFine(results)
  {
    if results != [] {
      var rest, last := results[..|results| - 1], results[|results| - 1];
      NoFailures(rest);
      assert forall r :: r in results <==> r in rest || r == last;
    }
  }

  /** The failing activities of a completion order, in that order. */
  function Failing<V>(outcome: nat -> Ending<V>, order: seq<nat>): seq<nat> {
    if order == [] then []
    else
      var last := order[|order| - 1];
      Failing(outcome, order[..|order| - 1]) + if outcome(last).Error? then [last] else []
  }

  /** The wrapped errors of some failing activities. */
  function Wrap<V>(outcome: nat -> Ending<V>, failing: seq<nat>): (errs: seq<Failure>)
    ensures |errs| == |failing|
    ensures forall j :: 0 <= j < |failing| && outcome(failing[j]).Error? ==>
      errs[j] == Wrapped(failing[j], outcome(failing[j]).message)
  {
    if failing == [] then []
    else
      var last := failing[|failing| - 1];
      Wrap(outcome, failing[..|failing| - 1]) +
      [Wrapped(last, if outcome(last).Error? then outcome(last).message else "")]
  }

  lemma {:induction false} FailingMembers<V>(outcome: nat -> Ending<V>, order: seq<nat>)
    ensures forall i: nat :: i in Failing(outcome, order) <==> i in order && outcome(i).Error?
    ensures forall j :: 0 <= j < |Failing(outcome, order)| ==> outcome(Failing(outcome, order)[j]).Error?
    ensures NoRepeats(order) ==> NoRepeats(Failing(outcome, order))
  {
    if order != [] {
      var rest, last := order[..|order| - 1], order[|order| - 1];
      FailingMembers(outcome, rest);
      assert order == rest + [last];
      assert NoRepeats(order) ==> NoRepeats(rest) && last !in rest;
      assert forall j :: 0 <= j < |Failing(outcome, rest)| ==> Failing(outcome, rest)[j] in Failing(outcome, rest);
    }
  }

  lemma FailuresSnoc(results: seq<ParallelResult>, last: ParallelResult)
    ensures Failures(results + [last]) == Failures(results) +
      if last.err.Some? then [Wrapped(last.index, last.err.value)] else []
  {
    assert (results + [last])[..|results|] == results;
  }

  lemma WrapSnoc<V>(outcome: nat -> Ending<V>, failing: seq<nat>, last: nat)
    requires outcome(last).Error?
    ensures Wrap(outcome, failing + [last]) == Wrap(outcome, failing) + [Wrapped(last, outcome(last).message)]
  {
    assert (failing + [last])[..|failing|] == failing;
  }

  lemma {:induction false} FailuresWrapFailing<V>(outcome: nat -> Ending<V>, order: seq<nat>)
    ensures Failures(ResultsOf(outcome, order)) == Wrap(outcome, Failing(outcome, order))
  {
    if order != [] {
      var rest, last := order[..|order| - 1], order[|order| - 1];
      FailuresWrapFailing(outcome, rest);
      FailuresSnoc(ResultsOf(outcome, rest), ResultOf(outcome, last));
      if outcome(last).Error? {
        WrapSnoc(outcome, Failing(outcome, rest), last);
      } else {
        assert Failing(outcome, rest) + [] == Failing(outcome, rest);
      }
    }
  }

  /** x completed before y. */
  ghost predicate Before(order: seq<nat>, x: nat, y: nat) {
    exists p, q :: 0 <= p < q < |order| && order[p] == x && order[q] == y
  }

  /** Failing activities are listed in the order in which they completed. */
  lemma {:induction false} FailingKeepsTheOrder<V>(outcome: nat -> Ending<V>, order: seq<nat>, j: nat, l: nat)
    returns (p: nat, q: nat)
    requires j < l < |Failing(outcome, order)|
    ensures p < q < |order| && order[p] == Failing(outcome, order)[j] && order[q] == Failing(outcome, order)[l]
  {
    var rest, last := order[..|order| - 1], order[|order| - 1];
    if l < |Failing(outcome, rest)| {
      p, q := FailingKeepsTheOrder(outcome, rest, j, l);
    } else {
      FailingMembers(outcome, rest);
      assert Failing(outcome, rest)[j] in rest;
      p :| 0 <= p < |rest| && rest[p] == Failing(outcome, rest)[j];
      q := |rest|;
    }
  }

  /** The listed errors are exactly the failing activities, once each, in completion order. */
  lemma ErrorsInCompletionOrder<V>(n: nat, outcome: nat -> Ending<V>, order: seq<nat>)
    requires IsOrder(order, n)
    ensures var failing := Failing(outcome, order);
      && NoRepeats(failing)
      && (forall i: nat :: i in failing <==> i < n && outcome(i).Error?)
      && (forall j :: 0 <= j < |failing| ==> outcome(failing[j]).Error?)
      && (forall j, l :: 0 <= j < l < |failing| ==> Before(order, failing[j], failing[l]))
      && Failures(ResultsOf(outcome, order)) == Wrap(outcome, failing)
  {
    forall j: nat, l: nat | j < l < |Failing(outcome, order)|
      ensures Before(order, Failing(outcome, order)[j], Failing(outcome, order)[l])
    {
      var p, q := FailingKeepsTheOrder(outcome, order, j, l);
    }
    OrderIsAPermutation(order, n);
    FailingMembers(outcome, order);
    FailuresWrapFailing(outcome, order);
  }

  /** The text between two offsets. */
  predicate Between(text: string, start: nat, end: nat, piece: string) {
    start <= end <= |text| && text[start..end] == piece
  }

  /** The text is the header followed by one piece per wrapped failure, at the given offsets, and nothing else. */
  ghost predicate Lists(text: string, header: string, errs: seq<Failure>, offsets: seq<nat>) {
    && |offsets| == |errs| + 1 && offsets[|errs|] == |text|
    && offsets[0] == |header| && header <= text
    && forall j :: 0 <= j < |errs| && errs[j].Wrapped? ==>
         Between(text, offsets[j], offsets[j + 1],
                 "\n  - " + ("activity[" + Itoa(errs[j].index) + "]: " + errs[j].cause))
  }

  lemma BetweenInLonger(text: string, more: string, start: nat, end: nat, piece: string)
    requires Between(text, start, end, piece)
    ensures Between(text + more, start, end, piece)
  {
    assert (text + more)[start..end] == text[start..end];
  }

  lemma ListsOneMore(text: string, header: string, errs: seq<Failure>, offsets: seq<nat>, e: Failure, piece: string)
    requires Lists(text, header, errs, offsets)
    requires e.Wrapped? ==> piece == "\n  - " + ("activity[" + Itoa(e.index) + "]: " + e.cause)
    ensures Lists(text + piece, header, errs + [e], offsets + [|text + piece|])
  {
    forall j | 0 <= j < |errs| && errs[j].Wrapped?
      ensures Between(text + piece, offsets[j], offsets[j + 1],
                      "\n  - " + ("activity[" + Itoa(errs[j].index) + "]: " + errs[j].cause))
    {
      BetweenInLonger(text, piece, offsets[j], offsets[j + 1],
                      "\n  - " + ("activity[" + Itoa(errs[j].index) + "]: " + errs[j].cause));
    }
    assert Between(text + piece, |text|, |text + piece|, piece);
  }

  lemma {:induction false} ListingLists(header: string, errs: seq<Failure>) returns (offsets: seq<nat>)
    ensures Lists(header + Listing(errs), header, errs, offsets)
  {
    if errs == [] {
      offsets := [|header|];
      assert header + Listing(errs) == header;
    } else {
      var rest, last := errs[..|errs| - 1], errs[|errs| - 1];
      var before := ListingLists(header, rest);
      ListsOneMore(header + Listing(rest), header, rest, before, last, "\n  - " + Message(last));
      Associate(header, Listing(rest), "\n  - " + Message(last));
      assert rest + [last] == errs;
      offsets := before + [|header + Listing(errs)|];
    }
  }

  /**
   Two or more failures are returned as one error whose text is their number and then one line for every failing
   activity, with its index and its own message, in completion order, and nothing else.
   */
  lemma EveryFailureIsListed<V>(n: nat, outcome: nat -> Ending<V>, order: seq<nat>) returns (offsets: seq<nat>)
    requires IsOrder(order, n) && |Failing(outcome, order)| >= 2
    ensures var failing, err := Failing(outcome, order), ErrorFor(Failures(ResultsOf(outcome, order)));
      && err.Some? && err.value.Combined?
      && var text, header := err.value.message, Itoa(|failing|) + " activities failed:";
         && |offsets| == |failing| + 1 && offsets[|failing|] == |text|
         && offsets[0] == |header| && header <= text
         && forall j :: 0 <= j < |failing| ==>
              && outcome(failing[j]).Error?
              && Between(text, offsets[j], offsets[j + 1],
                         "\n  - " + ("activity[" + Itoa(failing[j]) + "]: " + outcome(failing[j]).message))
  {
    ErrorsInCompletionOrder(n, outcome, order);
    var failing := Failing(outcome, order);
    offsets := ListingLists(Itoa(|failing|) + " activities failed:", Wrap(outcome, failing));
  }

  /** A failure is returned as its own wrapped error exactly when it is the only one. */
  lemma SoleFailureIsReturned<V>(n: nat, outcome: nat -> Ending<V>, order: seq<nat>, i: nat)
    requires IsOrder(order, n) && i < n && outcome(i).Error?
    ensures (ErrorFor(Failures(ResultsOf(outcome, order))) == Some(Wrapped(i, outcome(i).message)))
      <==> forall j: nat :: j < n && j != i ==> outcome(j).Value?
    ensures Message(Wrapped(i, outcome(i).message)) == "activity[" + Itoa(i) + "]: " + outcome(i).message
  {
    ErrorsInCompletionOrder(n, outcome, order);
    var failing := Failing(outcome, order);
    var errs := Wrap(outcome, failing);
    assert i in failing;
    var k :| 0 <= k < |failing| && failing[k] == i;
    SoleError(errs, errs[k]);
    OneFailingIff(n, outcome, failing, i);
  }

  lemma OneFailingIff<V>(n: nat, outcome: nat -> Ending<V>, failing: seq<nat>, i: nat)
    requires NoRepeats(failing) && i in failing
    requires forall j: nat :: j in failing <==> j < n && outcome(j).Error?
    ensures |failing| == 1 <==> forall j: nat :: j < n && j != i ==> outcome(j).Value?
  {
    if j: nat :| j < n && j != i && outcome(j).Error? {
      assert j in failing;
    } else {
      assert forall l :: 0 <= l < |failing| ==> failing[l] in failing;
      OnlyMember(failing, i);
    }
  }

  lemma SoleError(errs: seq<Failure>, f: Failure)
    requires f in errs && f.Wrapped?
    ensures ErrorFor(errs) == Some(f) <==> |errs| == 1
  {
  }

  lemma OnlyMember(s: seq<nat>, i: nat)
    requires NoRepeats(s) && i in s && forall k :: 0 <= k < |s| ==> s[k] == i
    ensures s == [i]
  {
    if |s| > 1 {
      TwoDiffer(s, i);
    }
  }

  lemma TwoDiffer(s: seq<nat>, i: nat)
    requires |s| > 1 && NoRepeats(s)
    ensures s[0] != i || s[1] != i
  {
  }

  // ---- Confluence ----

  lemma {:induction false} ResultsRemove<V>(outcome: nat -> Ending<V>, order: seq<nat>, i: nat)
    requires i < |order|
    ensures multiset(ResultsOf(outcome, order)) ==
      multiset(ResultsOf(outcome, Remove(order, i))) + multiset{ResultOf(outcome, order[i])}
  {
    var rest, last := order[..|order| - 1], order[|order| - 1];
    if i == |rest| {
      assert Remove(order, i) == rest;
    } else {
      ResultsRemove(outcome, rest, i);
      RemoveSnoc(order, i);
      ResultsSnoc(outcome, Remove(rest, i), last);
      SnocBoth(ResultsOf(outcome, rest), ResultsOf(outcome, Remove(rest, i)),
               ResultOf(outcome, order[i]), ResultOf(outcome, last));
    }
  }

  lemma RemoveSnoc<T>(s: seq<T>, i: nat)
    requires i < |s| - 1
    ensures Remove(s, i) == Remove(s[..|s| - 1], i) + [s[|s| - 1]]
  {
  }

  lemma SnocBoth<T>(s: seq<T>, t: seq<T>, x: T, y: T)
    requires multiset(s) == multiset(t) + multiset{x}
    ensures multiset(s + [y]) == multiset(t + [y]) + multiset{x}
  {
  }

  lemma ResultsSnoc<V>(outcome: nat -> Ending<V>, order: seq<nat>, last: nat)
    ensures ResultsOf(outcome, order + [last]) == ResultsOf(outcome, order) + [ResultOf(outcome, last)]
  {
    assert (order + [last])[..|order|] == order;
  }

  /** Two completion orders of the same outcomes give the same results, as a multiset. */
  lemma {:induction false} ResultsAreConfluent<V>(outcome: nat -> Ending<V>, a: seq<nat>, b: seq<nat>)
    requires multiset(a) == multiset(b)
    ensures multiset(ResultsOf(outcome, a)) == multiset(ResultsOf(outcome, b))
    decreases |a|
  {
    assert |multiset(a)| == |a| && |multiset(b)| == |b|;
    if a != [] {
      var i := PullOut(a, 0, b);
      ResultsAreConfluent(outcome, Remove(a, 0), Remove(b, i));
      ResultsRemove(outcome, a, 0);
      ResultsRemove(outcome, b, i);
    }
  }

  predicate SortedByIndex(results: seq<ParallelResult>) {
    forall j, k :: 0 <= j < k < |results| ==> results[j].index <= results[k].index
  }

  /** Sorting the results of any completion order by index gives one and the same list. */
  lemma SortedResultsAreCanonical<V>(n: nat, outcome: nat -> Ending<V>, order: seq<nat>, sorted: seq<ParallelResult>)
    requires IsOrder(order, n)
    requires multiset(sorted) == multiset(ResultsOf(outcome, order)) && SortedByIndex(sorted)
    ensures sorted == ResultsOf(outcome, Indices(n))
  {
    ResultsAreConfluent(outcome, order, Indices(n));
    CanonicalIsTheOnlySorted(n, outcome, sorted);
  }

  lemma {:induction false} CanonicalIsTheOnlySorted<V>(n: nat, outcome: nat -> Ending<V>, sorted: seq<ParallelResult>)
    requires multiset(sorted) == multiset(ResultsOf(outcome, Indices(n))) && SortedByIndex(sorted)
    ensures sorted == ResultsOf(outcome, Indices(n))
  {
    if n == 0 {
      assert |multiset(sorted)| == |sorted|;
    } else {
      PeelLargest(n, outcome, sorted);
      CanonicalIsTheOnlySorted(n - 1, outcome, sorted[..n - 1]);
      CanonicalSnoc(n, outcome);
    }
  }

  lemma CanonicalSnoc<V>(n: nat, outcome: nat -> Ending<V>)
    requires n > 0
    ensures ResultsOf(outcome, Indices(n)) == ResultsOf(outcome, Indices(n - 1)) + [ResultOf(outcome, n - 1)]
    ensures var others := ResultsOf(outcome, Indices(n - 1));
      |others| == n - 1 && forall j :: 0 <= j < n - 1 ==> others[j].index == j
  {
    assert Indices(n)[..n - 1] == Indices(n - 1);
    ResultsAt(outcome, Indices(n - 1));
  }

  lemma PeelLargest<V>(n: nat, outcome: nat -> Ending<V>, sorted: seq<ParallelResult>)
    requires n > 0
    requires multiset(sorted) == multiset(ResultsOf(outcome, Indices(n))) && SortedByIndex(sorted)
    ensures |sorted| == n && sorted[n - 1] == ResultOf(outcome, n - 1)
    ensures multiset(sorted[..n - 1]) == multiset(ResultsOf(outcome, Indices(n - 1)))
  {
    var others, largest := ResultsOf(outcome, Indices(n - 1)), ResultOf(outcome, n - 1);
    CanonicalSnoc(n, outcome);
    var p := PullOut(others + [largest], n - 1, sorted);
    assert Remove(others + [largest], n - 1) == others;
    if p < n - 1 {
      LastIsAmongOthers(sorted, p, others);
    }
    assert Remove(sorted, p) == sorted[..n - 1];
  }

  lemma LastIsAmongOthers<T>(s: seq<T>, p: nat, others: seq<T>)
    requires p < |s| - 1 && multiset(Remove(s, p)) == multiset(others)
    ensures s[|s| - 1] in others
  {
    assert Remove(s, p)[|s| - 2] == s[|s| - 1];
    assert s[|s| - 1] in multiset(Remove(s, p));
  }

  // ---- Result pointers ----

  predicate DistinctPointers(calls: seq<ActivityCall>) {
    forall i, j :: 0 <= i < j < |calls| && calls[i].resultPtr.Some? ==> calls[i].resultPtr != calls[j].resultPtr
  }

  /** Cell p after some completions, when it belongs to call i only. */
  lemma {:induction false} CellContents<V>(
    cells: seq<V>, calls: seq<ActivityCall>, outcome: nat -> Ending<V>, order: seq<nat>, i: nat)
    requires PointersFit(calls, |cells|) && DistinctPointers(calls)
    requires InRange(order, |calls|)
    requires i < |calls| && calls[i].resultPtr.Some?
    ensures calls[i].resultPtr.value < |cells|
    ensures CellsAfter(cells, calls, outcome, order)[calls[i].resultPtr.value] ==
      if i in order && outcome(i).Value? then outcome(i).value else cells[calls[i].resultPtr.value]
  {
    assert calls[i] in calls;
    if order != [] {
      var rest, last := order[..|order| - 1], order[|order| - 1];
      CellContents(cells, calls, outcome, rest, i);
      assert i in order <==> i in rest || i == last;
    }
  }

  /** Distinct pointers: each holds its own activity's value on success and is left alone on failure. */
  lemma EachPointerHoldsItsOwnValue<V>(
    cells: seq<V>, calls: seq<ActivityCall>, outcome: nat -> Ending<V>, order: seq<nat>, i: nat)
    requires PointersFit(calls, |cells|) && DistinctPointers(calls) && IsOrder(order, |calls|)
    requires i < |calls| && calls[i].resultPtr.Some?
    ensures InRange(order, |calls|) && calls[i].resultPtr.value < |cells|
    ensures CellsAfter(cells, calls, outcome, order)[calls[i].resultPtr.value] ==
      if outcome(i).Value? then outcome(i).value else cells[calls[i].resultPtr.value]
  {
    OrderIsAPermutation(order, |calls|);
    CellContents(cells, calls, outcome, order, i);
  }
}
