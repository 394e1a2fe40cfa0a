/**
 The activity options builder over Go slices. A slice is a length over a backing array that other slices may
 share; append writes into spare capacity when there is any and copies to a new array otherwise.
 */
module OptionsBuilder {
  import opened Temporal

  /** All backing arrays ever allocated; the length of an entry is its capacity. */
  type Arrays = seq<seq<string>>

  datatype Slice = NilSlice | Slice(base: nat, len: nat)

  predicate Fits(arrays: Arrays, s: Slice) {
    s.Slice? ==> s.base < |arrays| && s.len <= |arrays[s.base]|
  }

  function Contents(arrays: Arrays, s: Slice): seq<string>
    requires Fits(arrays, s)
  {
    if s.NilSlice? then [] else arrays[s.base][..s.len]
  }

  /** Go's append; `slack` is the spare capacity of the array it allocates, if it allocates one. */
  function Append(arrays: Arrays, s: Slice, codes: seq<string>, slack: nat): (r: (Arrays, Slice))
    requires Fits(arrays, s)
  {
    if codes == [] then (arrays, s)
    else if s.Slice? && s.len + |codes| <= |arrays[s.base]| then
      var a := arrays[s.base];
      (arrays[s.base := a[..s.len] + codes + a[s.len + |codes|..]], Slice(s.base, s.len + |codes|))
    else
      (arrays + [Contents(arrays, s) + codes + seq(slack, _ => "")], Slice(|arrays|, |Contents(arrays, s)| + |codes|))
  }

  /** The slice of fresh variadic arguments: exactly as long as its array, or nil if there are none. */
  function Variadic(arrays: Arrays, codes: seq<string>): (Arrays, Slice) {
    if codes == [] then (arrays, NilSlice) else (arrays + [codes], Slice(|arrays|, |codes|))
  }

  const BUSINESS_ERROR_CODES: seq<string> := [
    "InsufficientFund", "BorrowerBlacklisted", "LoanAlreadyDisbursed", "DuplicateTransaction",
    "InvalidLoanAmount", "ExpiredOffer", "CompensationError"]

  /** The package variable: the first array, full. */
  const GLOBAL: Slice := Slice(0, |BUSINESS_ERROR_CODES|)

  class Memory {
    var arrays: Arrays

    constructor ()
      ensures arrays == [BUSINESS_ERROR_CODES]
      ensures BUSINESS_ERROR_CODES == [
        "InsufficientFund", "BorrowerBlacklisted", "LoanAlreadyDisbursed", "DuplicateTransaction",
        "InvalidLoanAmount", "ExpiredOffer", "CompensationError"]
    {
      arrays := [BUSINESS_ERROR_CODES];
    }
  }

  const MINUTE: Time := 60 * 1000000000

  datatype RetryPolicy = RetryPolicy(
    initialInterval: Time, backoff: real, maximumInterval: Time, maximumAttempts: int, nonRetryable: Slice)

  datatype ActivityOptions = ActivityOptions(
    scheduleToClose: Time, startToClose: Time, heartbeat: Time, retry: RetryPolicy)

  class Builder {
    const memory: Memory
    var scheduleToClose: Time
    var startToClose: Time
    var heartbeat: Time
    var maxAttempts: int
    var initialInterval: Time
    var maxInterval: Time
    var backoff: real
    var nonRetryable: Slice

    /** NewOptionsBuilder: every builder starts from the same global slice. */
    constructor (memory: Memory)
      ensures this.memory == memory && nonRetryable == GLOBAL && maxAttempts == 5 && heartbeat == 0
      ensures scheduleToClose == 300 * 1000000000 && startToClose == 120 * 1000000000
      ensures initialInterval == 2 * 1000000000 && maxInterval == 30 * 1000000000 && backoff == 2.0
    {
      this.memory := memory;
      this.scheduleToClose, this.startToClose, this.heartbeat := 5 * MINUTE, 2 * MINUTE, 0;
      this.maxAttempts, this.initialInterval, this.maxInterval, this.backoff := 5, 2 * 1000000000, 30 * 1000000000, 2.0;
      this.nonRetryable := GLOBAL;
    }

    method WithNonRetryableErrors(codes: seq<string>)
      modifies this`nonRetryable, memory
      ensures (memory.arrays, nonRetryable) == Variadic(old(memory.arrays), codes)
    {
      var r := Variadic(memory.arrays, codes);
      memory.arrays := r.0;
      nonRetryable := r.1;
    }

    method AddNonRetryableErrors(codes: seq<string>, slack: nat)
      requires Fits(memory.arrays, nonRetryable)
      modifies this`nonRetryable, memory
      ensures (memory.arrays, nonRetryable) == Append(old(memory.arrays), old(nonRetryable), codes, slack)
    {
      var r := Append(memory.arrays, nonRetryable, codes, slack);
      memory.arrays := r.0;
      nonRetryable := r.1;
    }

    method NoRetry()
      modifies this`maxAttempts, this`nonRetryable
      ensures maxAttempts == 0 && nonRetryable == NilSlice
    {
      maxAttempts := 0;
      nonRetryable := NilSlice;
    }

    /** The options share the builder's slice. A timeout that is not positive stays unset. */
    method Build() returns (opts: ActivityOptions)
      ensures opts.retry.initialInterval == initialInterval && opts.retry.maximumInterval == maxInterval
      ensures opts.retry.backoff == backoff && opts.retry.maximumAttempts == maxAttempts
      ensures opts.retry.nonRetryable == nonRetryable
      ensures opts.scheduleToClose == scheduleToClose
      ensures opts.startToClose == if startToClose > 0 then startToClose else 0
      ensures opts.heartbeat == if heartbeat > 0 then heartbeat else 0
    {
      opts := ActivityOptions(
        scheduleToClose, 0, 0, RetryPolicy(initialInterval, backoff, maxInterval, maxAttempts, nonRetryable));
      if startToClose > 0 {
        opts := opts.(startToClose := startToClose);
      }
      if heartbeat > 0 {
        opts := opts.(heartbeat := heartbeat);
      }
    }
  }

  // ---- Any number of builders ----

  /** The lists of all builders, and of all options built so far. */
  datatype World = World(arrays: Arrays, builders: seq<Slice>, built: seq<Slice>)

  /** Operations; one that names a builder that does not exist does nothing. */
  datatype Op =
    | New
    | Replace(i: nat, codes: seq<string>)
    | Add(i: nat, codes: seq<string>, slack: nat)
    | Clear(i: nat)
    | Build(i: nat)

  ghost predicate AllFit(w: World) {
    && |w.arrays| > 0 && w.arrays[0] == BUSINESS_ERROR_CODES
    && (forall i :: 0 <= i < |w.builders| ==> Fits(w.arrays, w.builders[i]))
    && (forall k :: 0 <= k < |w.built| ==> Fits(w.arrays, w.built[k]))
  }

  function Step(w: World, op: Op): World
    requires AllFit(w)
  {
    if op.New? then w.(builders := w.builders + [GLOBAL])
    else if op.i >= |w.builders| then w
    else
      match op
      case Replace(i, codes) =>
        var (arrays, s) := Variadic(w.arrays, codes);
        w.(arrays := arrays, builders := w.builders[i := s])
      case Add(i, codes, slack) =>
        var (arrays, s) := Append(w.arrays, w.builders[i], codes, slack);
        w.(arrays := arrays, builders := w.builders[i := s])
      case Clear(i) => w.(builders := w.builders[i := NilSlice])
      case Build(i) => w.(built := w.built + [w.builders[i]])
  }

  /** The same operations on lists that are plain values. */
  datatype Lists = Lists(builders: seq<seq<string>>, built: seq<seq<string>>)

  function ListStep(l: Lists, op: Op): Lists {
    if op.New? then l.(builders := l.builders + [BUSINESS_ERROR_CODES])
    else if op.i >= |l.builders| then l
    else
      match op
      case Replace(i, codes) => l.(builders := l.builders[i := codes])
      case Add(i, codes, _) => l.(builders := l.builders[i := l.builders[i] + codes])
      case Clear(i) => l.(builders := l.builders[i := []])
      case Build(i) => l.(built := l.built + [l.builders[i]])
  }

  function ListRun(ops: seq<Op>): Lists {
    if ops == [] then Lists([], []) else ListStep(ListRun(ops[..|ops| - 1]), ops[|ops| - 1])
  }

  /** A slice with no spare capacity: appending always copies. */
  predicate Full(arrays: Arrays, s: Slice)
    requires Fits(arrays, s)
  {
    s.Slice? ==> s.len == |arrays[s.base]|
  }

  predicate SameArray(s: Slice, t: Slice) {
    s.Slice? && t.Slice? && s.base == t.base
  }

  /** Builder i may write beyond its length without anyone noticing. */
  ghost predicate Exclusive(w: World, i: nat)
    requires i < |w.builders|
  {
    && !SameArray(w.builders[i], GLOBAL)
    && (forall j :: 0 <= j < |w.builders| && j != i ==> !SameArray(w.builders[i], w.builders[j]))
    && (forall k :: 0 <= k < |w.built| && SameArray(w.builders[i], w.built[k]) ==> w.built[k].len <= w.builders[i].len)
  }

  ghost predicate Inv(w: World) {
    AllFit(w) && forall i :: 0 <= i < |w.builders| ==> Full(w.arrays, w.builders[i]) || Exclusive(w, i)
  }

  ghost predicate Shows(w: World, l: Lists)
    requires AllFit(w)
  {
    && |l.builders| == |w.builders| && |l.built| == |w.built|
    && (forall i :: 0 <= i < |w.builders| ==> Contents(w.arrays, w.builders[i]) == l.builders[i])
    && (forall k :: 0 <= k < |w.built| ==> Contents(w.arrays, w.built[k]) == l.built[k])
  }

  /** What append leaves alone, and what it returns. */
  lemma AppendFrame(arrays: Arrays, s: Slice, codes: seq<string>, slack: nat, t: Slice)
    requires Fits(arrays, s) && Fits(arrays, t)
    requires SameArray(s, t) ==> t.len <= s.len || Full(arrays, s)
    ensures var (after, r) := Append(arrays, s, codes, slack);
      && Fits(after, r) && Contents(after, r) == Contents(arrays, s) + codes
      && Fits(after, t) && Contents(after, t) == Contents(arrays, t)
      && (t.Slice? ==> |after[t.base]| == |arrays[t.base]|)
  {
    var (after, r) := Append(arrays, s, codes, slack);
    if codes == [] {
      assert Contents(arrays, s) + [] == Contents(arrays, s);
    } else if s.Slice? && s.len + |codes| <= |arrays[s.base]| {
      assert after[s.base][..s.len + |codes|] == arrays[s.base][..s.len] + codes;
      assert SameArray(s, t) ==> after[s.base][..t.len] == arrays[s.base][..t.len];
    }
  }

  lemma AddAllFit(w: World, i: nat, codes: seq<string>, slack: nat)
    requires Inv(w) && i < |w.builders|
    ensures AllFit(Step(w, Add(i, codes, slack)))
    ensures var v := Step(w, Add(i, codes, slack));
      && (forall j :: 0 <= j < |w.builders| && j != i ==>
            v.builders[j] == w.builders[j] && Contents(v.arrays, v.builders[j]) == Contents(w.arrays, w.builders[j]) &&
            (Full(w.arrays, w.builders[j]) ==> Full(v.arrays, v.builders[j])))
      && (forall k :: 0 <= k < |w.built| ==> Contents(v.arrays, w.built[k]) == Contents(w.arrays, w.built[k]))
      && Contents(v.arrays, v.builders[i]) == Contents(w.arrays, w.builders[i]) + codes
  {
    var s := w.builders[i];
    forall j | 0 <= j < |w.builders| && j != i
      ensures var (after, r) := Append(w.arrays, s, codes, slack);
        Fits(after, w.builders[j]) && Contents(after, w.builders[j]) == Contents(w.arrays, w.builders[j]) &&
        (Full(w.arrays, w.builders[j]) ==> Full(after, w.builders[j]))
    {
      AppendFrame(w.arrays, s, codes, slack, w.builders[j]);
    }
    forall k | 0 <= k < |w.built|
      ensures var (after, r) := Append(w.arrays, s, codes, slack);
        Fits(after, w.built[k]) && Contents(after, w.built[k]) == Contents(w.arrays, w.built[k])
    {
      AppendFrame(w.arrays, s, codes, slack, w.built[k]);
    }
    AppendFrame(w.arrays, s, codes, slack, GLOBAL);
  }

  lemma AddKeepsExclusive(w: World, i: nat, codes: seq<string>, slack: nat)
    requires Inv(w) && i < |w.builders|
    ensures AllFit(Step(w, Add(i, codes, slack)))
    ensures var v := Step(w, Add(i, codes, slack));
      && (Full(v.arrays, v.builders[i]) || Exclusive(v, i))
      && (forall j :: 0 <= j < |w.builders| && j != i && Exclusive(w, j) ==> Exclusive(v, j))
  {
    AddAllFit(w, i, codes, slack);
    var v := Step(w, Add(i, codes, slack));
    assert |v.builders| == |w.builders| && v.built == w.built;
    assert v.builders[i] == w.builders[i] || (v.builders[i].Slice? &&
      (v.builders[i].base == |w.arrays| ||
       (SameArray(v.builders[i], w.builders[i]) && v.builders[i].len >= w.builders[i].len &&
        !Full(w.arrays, w.builders[i]))));
  }

  lemma VariadicStep(w: World, i: nat, codes: seq<string>)
    requires Inv(w) && i < |w.builders|
    ensures AllFit(Step(w, Replace(i, codes)))
    ensures var v := Step(w, Replace(i, codes));
      && Inv(v)
      && (forall j :: 0 <= j < |w.builders| && j != i ==>
            Contents(v.arrays, v.builders[j]) == Contents(w.arrays, w.builders[j]))
      && (forall k :: 0 <= k < |w.built| ==> Contents(v.arrays, w.built[k]) == Contents(w.arrays, w.built[k]))
      && Contents(v.arrays, v.builders[i]) == codes
  {
    var v := Step(w, Replace(i, codes));
    assert forall j :: 0 <= j < |w.builders| && j != i ==> v.builders[j] == w.builders[j];
    assert forall j :: 0 <= j < |w.builders| && j != i && Exclusive(w, j) ==> Exclusive(v, j);
  }

  lemma AddRefines(w: World, l: Lists, i: nat, codes: seq<string>, slack: nat)
    requires Inv(w) && Shows(w, l) && i < |w.builders|
    ensures Inv(Step(w, Add(i, codes, slack)))
    ensures Shows(Step(w, Add(i, codes, slack)), ListStep(l, Add(i, codes, slack)))
  {
    AddAllFit(w, i, codes, slack);
    AddKeepsExclusive(w, i, codes, slack);
  }

  lemma ReplaceRefines(w: World, l: Lists, i: nat, codes: seq<string>)
    requires Inv(w) && Shows(w, l) && i < |w.builders|
    ensures Inv(Step(w, Replace(i, codes))) && Shows(Step(w, Replace(i, codes)), ListStep(l, Replace(i, codes)))
  {
    VariadicStep(w, i, codes);
  }

  /** The operations that allocate nothing. */
  lemma SharingRefines(w: World, l: Lists, op: Op)
    requires Inv(w) && Shows(w, l) && (op.New? || op.Clear? || op.Build?)
    ensures Inv(Step(w, op)) && Shows(Step(w, op), ListStep(l, op))
  {
    var v := Step(w, op);
    assert forall j :: 0 <= j < |w.builders| && (op.New? || op.i != j) ==> v.builders[j] == w.builders[j];
    assert forall j :: 0 <= j < |w.builders| && v.builders[j] == w.builders[j] && Exclusive(w, j) ==> Exclusive(v, j);
  }

  /** One operation, seen through the lists, is the same operation on plain values. */
  lemma StepRefines(w: World, l: Lists, op: Op)
    requires Inv(w) && Shows(w, l)
    ensures Inv(Step(w, op)) && Shows(Step(w, op), ListStep(l, op))
  {
    if op.New? || op.Clear? || op.Build? {
      SharingRefines(w, l, op);
    } else if op.i < |w.builders| {
      match op
      case Replace(i, codes) => ReplaceRefines(w, l, i, codes);
      case Add(i, codes, slack) => AddRefines(w, l, i, codes, slack);
    }
  }

  const START: World := World([BUSINESS_ERROR_CODES], [], [])

  ghost predicate Runs(ws: seq<World>, ops: seq<Op>) {
    && |ws| == |ops| + 1 && ws[0] == START
    && forall k :: 0 <= k < |ops| ==> AllFit(ws[k]) && ws[k + 1] == Step(ws[k], ops[k])
  }

  /**
   In every run of operations on any number of builders, every builder's list and every list ever built read as
   if lists were plain values, and the global list never changes.
   */
  lemma {:induction false} BuildersAreIsolated(ws: seq<World>, ops: seq<Op>)
    requires Runs(ws, ops)
    ensures Inv(ws[|ops|]) && Shows(ws[|ops|], ListRun(ops))
    ensures Contents(ws[|ops|].arrays, GLOBAL) == BUSINESS_ERROR_CODES
  {
    if ops != [] {
      BuildersAreIsolated(ws[..|ops|], ops[..|ops| - 1]);
      StepRefines(ws[|ops| - 1], ListRun(ops[..|ops| - 1]), ops[|ops| - 1]);
    }
  }

  /** Such a run exists for every list of operations: no operation ever gets stuck. */
  lemma {:induction false} EveryOperationListRuns(ops: seq<Op>) returns (ws: seq<World>)
    ensures Runs(ws, ops)
  {
    if ops == [] {
      ws := [START];
    } else {
      var rest := EveryOperationListRuns(ops[..|ops| - 1]);
      BuildersAreIsolated(rest, ops[..|ops| - 1]);
      ws := rest + [Step(rest[|ops| - 1], ops[|ops| - 1])];
    }
  }

  // ---- The exact condition ----

  /** No append to s, whatever is appended, can change what t shows. */
  ghost predicate Unaffected(arrays: Arrays, s: Slice, t: Slice)
    requires Fits(arrays, s) && Fits(arrays, t)
  {
    forall codes, slack :: Fits(Append(arrays, s, codes, slack).0, t) &&
      Contents(Append(arrays, s, codes, slack).0, t) == Contents(arrays, t)
  }

  /** For lists of any origin: t is safe from appends to s exactly if it is on another array or no longer than s. */
  lemma UnaffectedIff(arrays: Arrays, s: Slice, t: Slice)
    requires Fits(arrays, s) && Fits(arrays, t)
    ensures Unaffected(arrays, s, t) <==> !SameArray(s, t) || t.len <= s.len
  {
    if !SameArray(s, t) || t.len <= s.len {
      forall codes, slack
        ensures Fits(Append(arrays, s, codes, slack).0, t)
        ensures Contents(Append(arrays, s, codes, slack).0, t) == Contents(arrays, t)
      {
        AppendFrame(arrays, s, codes, slack, t);
      }
    } else {
      var code := if arrays[s.base][s.len] == "" then "x" else "";
      var after := Append(arrays, s, [code], 0).0;
      assert after[s.base][s.len] == code;
      assert Contents(arrays, t)[s.len] != code;
      assert Contents(after, t)[s.len] == code;
    }
  }

  /**
   Why the lists must be fresh: two builders given one caller-owned slice with spare capacity overwrite each
   other's additions.
   */
  lemma SharedCallerSliceInterferes(list: seq<string>, x: string, y: string, spare: seq<string>)
    requires x != y && spare != []
    ensures var owned := Slice(0, |list|);
      var (first, one) := Append([list + spare], owned, [x], 0);
      var (second, two) := Append(first, owned, [y], 0);
      && Contents(first, one) == list + [x]
      && Fits(second, one) && Contents(second, one) == list + [y] != list + [x]
  {
    var owned := Slice(0, |list|);
    assert (list + spare)[..|list|] == list;
    AppendFrame([list + spare], owned, [x], 0, owned);
    var (first, one) := Append([list + spare], owned, [x], 0);
    AppendFrame(first, owned, [y], 0, owned);
    assert (list + [x])[|list|] != (list + [y])[|list|];
  }

  // ---- Slices of any origin, over whole runs ----

  /** The lists as they read now. */
  function ListsOf(w: World): Lists
    requires AllFit(w)
  {
    Lists(seq(|w.builders|, i requires 0 <= i < |w.builders| => Contents(w.arrays, w.builders[i])),
          seq(|w.built|, k requires 0 <= k < |w.built| => Contents(w.arrays, w.built[k])))
  }

  /** From w on, through all of the operations, every list reads as if lists were plain values. */
  ghost predicate Stays(w: World, l: Lists, ops: seq<Op>)
    decreases |ops|
  {
    AllFit(w) && Shows(w, l) && (ops == [] || Stays(Step(w, ops[0]), ListStep(l, ops[0]), ops[1..]))
  }

  /** Whatever is done from now on, no builder affects another, a built list, or the global one. */
  ghost predicate IsolatedForever(w: World)
    requires AllFit(w)
  {
    forall ops :: Stays(w, ListsOf(w), ops)
  }

  lemma {:induction false} InvariantWorldsStay(w: World, l: Lists, ops: seq<Op>)
    requires Inv(w) && Shows(w, l)
    ensures Stays(w, l, ops)
    decreases |ops|
  {
    if ops != [] {
      StepRefines(w, l, ops[0]);
      InvariantWorldsStay(Step(w, ops[0]), ListStep(l, ops[0]), ops[1..]);
    }
  }

  /** A code that differs from what the array of s holds right behind s. */
  function Other(arrays: Arrays, s: Slice): string
    requires Fits(arrays, s) && !Full(arrays, s)
  {
    if arrays[s.base][s.len] == "" then "x" else ""
  }

  /** Adding to a slice with spare capacity changes every longer slice on its array. */
  lemma Overwrites(arrays: Arrays, s: Slice, code: string, t: Slice)
    requires Fits(arrays, s) && Fits(arrays, t) && !Full(arrays, s) && code != arrays[s.base][s.len]
    requires SameArray(s, t) && s.len < t.len
    ensures var after := Append(arrays, s, [code], 0).0;
      after[s.base] != arrays[s.base] && Fits(after, t) && Contents(after, t) != Contents(arrays, t)
  {
    var after := Append(arrays, s, [code], 0).0;
    assert after[s.base][s.len] == code;
    assert Contents(after, t)[s.len] == code != Contents(arrays, t)[s.len];
  }

  lemma OneStepBreaks(w: World, op: Op)
    requires AllFit(w)
    requires !AllFit(Step(w, op)) || !Shows(Step(w, op), ListStep(ListsOf(w), op))
    ensures !IsolatedForever(w)
  {
    assert !Stays(w, ListsOf(w), [op]);
  }

  /** Builder i has spare capacity on the global array. */
  lemma GlobalBreaks(w: World, i: nat)
    requires AllFit(w) && i < |w.builders| && !Full(w.arrays, w.builders[i]) && SameArray(w.builders[i], GLOBAL)
    ensures !IsolatedForever(w)
  {
    var code := Other(w.arrays, w.builders[i]);
    Overwrites(w.arrays, w.builders[i], code, GLOBAL);
    OneStepBreaks(w, Add(i, [code], 0));
  }

  /** Builder i has spare capacity that a longer built list uses. */
  lemma BuiltBreaks(w: World, i: nat, k: nat)
    requires AllFit(w) && i < |w.builders| && !Full(w.arrays, w.builders[i]) && k < |w.built|
    requires SameArray(w.builders[i], w.built[k]) && w.builders[i].len < w.built[k].len
    ensures !IsolatedForever(w)
  {
    var code := Other(w.arrays, w.builders[i]);
    Overwrites(w.arrays, w.builders[i], code, w.built[k]);
    OneStepBreaks(w, Add(i, [code], 0));
  }

  /** Adding to builder j's spare capacity changes the longer list of builder i. */
  lemma AddBreaks(w: World, l: Lists, j: nat, i: nat, code: string)
    requires AllFit(w) && Shows(w, l) && i < |w.builders| && j < |w.builders| && !Full(w.arrays, w.builders[j])
    requires SameArray(w.builders[j], w.builders[i]) && w.builders[j].len < w.builders[i].len
    requires code != w.arrays[w.builders[j].base][w.builders[j].len]
    ensures !Stays(w, l, [Add(j, [code], 0)])
  {
    var op := Add(j, [code], 0);
    Overwrites(w.arrays, w.builders[j], code, w.builders[i]);
    assert Step(w, op).builders[i] == w.builders[i];
    assert ListStep(l, op).builders[i] == Contents(w.arrays, w.builders[i]);
  }

  /** Builder i has spare capacity that the longer list of builder j uses. */
  lemma LongerBreaks(w: World, i: nat, j: nat)
    requires AllFit(w) && i < |w.builders| && j < |w.builders| && !Full(w.arrays, w.builders[i])
    requires SameArray(w.builders[i], w.builders[j]) && w.builders[i].len < w.builders[j].len
    ensures !IsolatedForever(w)
  {
    var code := Other(w.arrays, w.builders[i]);
    AddBreaks(w, ListsOf(w), i, j, code);
    assert !Stays(w, ListsOf(w), [Add(i, [code], 0)]);
  }

  /** Two builders of one length share spare capacity: each overwrites what the other adds. */
  lemma TwinsBreak(w: World, i: nat, j: nat)
    requires AllFit(w) && i < |w.builders| && j < |w.builders| && i != j && !Full(w.arrays, w.builders[i])
    requires SameArray(w.builders[i], w.builders[j]) && w.builders[i].len == w.builders[j].len
    ensures !IsolatedForever(w)
  {
    var op := Add(i, ["x"], 0);
    var v, l := Step(w, op), ListStep(ListsOf(w), op);
    if AllFit(v) && Shows(v, l) {
      assert v.builders[j] == w.builders[j] && v.arrays[v.builders[j].base][v.builders[j].len] == "x";
      AddBreaks(v, l, j, i, "");
      var ops := [op, Add(j, [""], 0)];
      assert ops[1..] == [Add(j, [""], 0)];
      assert !Stays(w, ListsOf(w), ops);
    } else {
      OneStepBreaks(w, op);
    }
  }

  /**
   For slices of any origin, caller-owned ones included, the exact condition over whole runs: all builders and
   built lists stay isolated, whatever is done from now on, if and only if every builder is at the capacity of
   its array or nobody else reads that array beyond it.
   */
  lemma IsolatedForeverIff(w: World)
    requires AllFit(w)
    ensures IsolatedForever(w) <==> Inv(w)
  {
    if Inv(w) {
      forall ops ensures Stays(w, ListsOf(w), ops) {
        InvariantWorldsStay(w, ListsOf(w), ops);
      }
    } else {
      var i: nat :| i < |w.builders| && !Full(w.arrays, w.builders[i]) && !Exclusive(w, i);
      if SameArray(w.builders[i], GLOBAL) {
        GlobalBreaks(w, i);
      } else if k: nat :| k < |w.built| && SameArray(w.builders[i], w.built[k]) && w.builders[i].len < w.built[k].len {
        BuiltBreaks(w, i, k);
      } else {
        var j: nat :| j < |w.builders| && j != i && SameArray(w.builders[i], w.builders[j]);
        if w.builders[i].len < w.builders[j].len {
          LongerBreaks(w, i, j);
        } else if w.builders[j].len < w.builders[i].len {
          LongerBreaks(w, j, i);
        } else {
          TwinsBreak(w, i, j);
        }
      }
    }
  }

  /** No builder and no built list is on the array of s. */
  ghost predicate Unused(w: World, s: Slice) {
    && !SameArray(s, GLOBAL)
    && (forall j :: 0 <= j < |w.builders| ==> !SameArray(s, w.builders[j]))
    && (forall k :: 0 <= k < |w.built| ==> !SameArray(s, w.built[k]))
  }

  /**
   A caller hands its own slice to builders, as `codes...` does. One builder may always have it. Two builders
   stay isolated exactly when the slice has no spare capacity.
   */
  lemma CallerSliceIsSafeIff(w: World, s: Slice, i: nat, j: nat)
    requires Inv(w) && Fits(w.arrays, s) && Unused(w, s) && i < |w.builders| && j < |w.builders| && i != j
    ensures IsolatedForever(w.(builders := w.builders[i := s]))
    ensures IsolatedForever(w.(builders := w.builders[i := s][j := s])) <==> Full(w.arrays, s)
  {
    var one, two := w.(builders := w.builders[i := s]), w.(builders := w.builders[i := s][j := s]);
    IsolatedForeverIff(one);
    IsolatedForeverIff(two);
    assert Exclusive(one, i);
    assert forall m :: 0 <= m < |w.builders| && m != i && Exclusive(w, m) ==> Exclusive(one, m);
    assert forall m :: 0 <= m < |w.builders| && m != i && m != j && Exclusive(w, m) ==> Exclusive(two, m);
    assert s.Slice? ==> SameArray(two.builders[i], two.builders[j]);
  }
}
