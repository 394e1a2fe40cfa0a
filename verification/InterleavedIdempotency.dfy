/**
 Attempts that overlap: each runs check, execute, record as separate atomic steps, in any interleaving with
 the others, and may stop anywhere. The store may err at every step, and what it keeps may expire.
 */
module InterleavedIdempotency {
  import opened Temporal
  import opened IdempotencyStores
  import opened IdempotentExecution

  type Key = string

  /**
   A check that is not honest may answer anything: an error reads as a miss, foreign bytes as any value. A
   result that cannot be encoded is a record that is lost.
   */
  datatype Event<V> =
    | Checked(attempt: nat, key: Key, hit: Option<V>, honest: bool, at: Time)
    | Executed(attempt: nat, key: Key, fn: FnOutcome<V>)
    | Recorded(attempt: nat, key: Key, value: V, record: RecordFault, ttl: Time, at: Time)

  /** Where an attempt is: after a miss, after a success not yet recorded, or over. */
  datatype Phase<V> = Missed(key: Key) | Succeeded(key: Key, value: V) | Over

  datatype Kept<V> = Kept(value: V, ttl: Time, at: Time)

  datatype State<V> = State(store: map<Key, Kept<V>>, phases: map<nat, Phase<V>>)

  function Get<V>(b: Backend, store: map<Key, Kept<V>>, key: Key, now: Time): Option<V> {
    if key in store && !Expired(b, store[key].ttl, store[key].at, now) then Some(store[key].value) else None
  }

  /** The step an event stands for; `None` if the state does not allow it. */
  function Next<V(==)>(b: Backend, s: State<V>, e: Event<V>): Option<State<V>> {
    match e
    case Checked(a, key, hit, honest, at) =>
      if a in s.phases || (honest && hit != Get(b, s.store, key, at)) then None
      else Some(s.(phases := s.phases[a := if hit.Some? then Over else Missed(key)]))
    case Executed(a, key, fn) =>
      if a !in s.phases || s.phases[a] != Missed(key) then None
      else Some(s.(phases := s.phases[a := if fn.Returned? then Succeeded(key, fn.value) else Over]))
    case Recorded(a, key, v, record, ttl, at) =>
      if a !in s.phases || s.phases[a] != Succeeded(key, v) then None
      else Some(State(if record.Lost? then s.store else s.store[key := Kept(v, ttl, at)], s.phases[a := Over]))
  }

  /** The state after an interleaving, if it is a possible one. */
  function Reach<V(==)>(b: Backend, trace: seq<Event<V>>): Option<State<V>> {
    if trace == [] then Some(State(map[], map[]))
    else
      match Reach(b, trace[..|trace| - 1])
      case None => None
      case Some(s) => Next(b, s, trace[|trace| - 1])
  }

  // ---- What is kept under a key ----

  /** The event stores a value under the key. */
  predicate Keeps<V>(e: Event<V>, key: Key) {
    e.Recorded? && e.key == key && !e.record.Lost?
  }

  predicate NothingKeptBefore<V>(trace: seq<Event<V>>, key: Key, c: nat)
    requires c <= |trace|
  {
    forall r :: 0 <= r < c ==> !Keeps(trace[r], key)
  }

  /** Position r keeps a value under the key, and no later position before c does. */
  predicate LatestKept<V>(trace: seq<Event<V>>, key: Key, c: nat, r: nat)
    requires c <= |trace|
  {
    r < c && Keeps(trace[r], key) && forall q :: r < q < c ==> !Keeps(trace[q], key)
  }

  /** The latest position that keeps a value under the key. */
  function LastKept<V>(trace: seq<Event<V>>, key: Key): (r: Option<nat>)
    ensures r.Some? ==> LatestKept(trace, key, |trace|, r.value)
    ensures r.None? ==> NothingKeptBefore(trace, key, |trace|)
  {
    if trace == [] then None
    else if Keeps(trace[|trace| - 1], key) then Some(|trace| - 1)
    else LastKept(trace[..|trace| - 1], key)
  }

  /** What the store holds under the key. */
  function Holding<V>(trace: seq<Event<V>>, key: Key): Option<Kept<V>> {
    var r := LastKept(trace, key);
    if r.None? then None else Some(Kept(trace[r.value].value, trace[r.value].ttl, trace[r.value].at))
  }

  /** By the check at c, the latest value kept under the key has expired. */
  predicate ExpiredBy<V>(b: Backend, trace: seq<Event<V>>, key: Key, c: nat)
    requires c < |trace| && trace[c].Checked?
  {
    exists r: nat :: r < c && LatestKept(trace, key, c, r) && Expired(b, trace[r].ttl, trace[r].at, trace[c].at)
  }

  // ---- Three ways to miss ----

  predicate IsMiss<V>(e: Event<V>, key: Key) {
    e.Checked? && e.key == key && e.hit.None?
  }

  /** The store did not answer honestly. */
  predicate IsLie<V>(trace: seq<Event<V>>, key: Key, c: nat)
    requires c < |trace|
  {
    IsMiss(trace[c], key) && !trace[c].honest
  }

  /** Nothing had been kept yet. */
  predicate IsEarly<V>(trace: seq<Event<V>>, key: Key, c: nat)
    requires c < |trace|
  {
    IsMiss(trace[c], key) && trace[c].honest && NothingKeptBefore(trace, key, c)
  }

  /** What had been kept last had expired. */
  predicate IsLapse<V>(b: Backend, trace: seq<Event<V>>, key: Key, c: nat)
    requires c < |trace|
  {
    IsMiss(trace[c], key) && trace[c].honest && ExpiredBy(b, trace, key, c)
  }

  /** The check at c is a miss of one of the three kinds. */
  predicate IsExplained<V>(b: Backend, trace: seq<Event<V>>, key: Key, c: nat)
    requires c < |trace|
  {
    IsLie(trace, key, c) || IsEarly(trace, key, c) || IsLapse(b, trace, key, c)
  }

  // ---- Invariants of every interleaving ----

  function StoreOf<V>(s: State<V>, key: Key): Option<Kept<V>> {
    if key in s.store then Some(s.store[key]) else None
  }

  ghost predicate StoreInv<V>(trace: seq<Event<V>>, s: State<V>) {
    forall key :: StoreOf(s, key) == Holding(trace, key)
  }

  ghost predicate MissedAt<V>(trace: seq<Event<V>>, a: nat, key: Key, c: nat) {
    c < |trace| && IsMiss(trace[c], key) && trace[c].attempt == a
  }

  ghost predicate PhaseInv<V>(trace: seq<Event<V>>, s: State<V>) {
    && (forall a :: a in s.phases && s.phases[a].Missed? ==> exists c :: MissedAt(trace, a, s.phases[a].key, c))
    && (forall a :: a in s.phases && s.phases[a].Succeeded? ==>
          Executed(a, s.phases[a].key, Returned(s.phases[a].value)) in trace)
  }

  lemma HoldingNext<V>(trace: seq<Event<V>>, e: Event<V>, key: Key)
    ensures Holding(trace + [e], key) ==
      if Keeps(e, key) then Some(Kept(e.value, e.ttl, e.at)) else Holding(trace, key)
  {
    assert (trace + [e])[..|trace|] == trace;
  }

  lemma NextKeepsStore<V>(b: Backend, trace: seq<Event<V>>, s: State<V>, e: Event<V>)
    requires StoreInv(trace, s) && Next(b, s, e).Some?
    ensures StoreInv(trace + [e], Next(b, s, e).value)
  {
    forall key ensures StoreOf(Next(b, s, e).value, key) == Holding(trace + [e], key) {
      HoldingNext(trace, e, key);
      assert StoreOf(s, key) == Holding(trace, key);
    }
  }

  lemma {:induction false} ReachKeepsStore<V>(b: Backend, trace: seq<Event<V>>)
    requires Reach(b, trace).Some?
    ensures StoreInv(trace, Reach(b, trace).value)
  {
    if trace != [] {
      var rest := trace[..|trace| - 1];
      ReachKeepsStore(b, rest);
      NextKeepsStore(b, rest, Reach(b, rest).value, trace[|trace| - 1]);
      assert rest + [trace[|trace| - 1]] == trace;
    }
  }

  lemma {:induction false} ReachKeepsPhases<V>(b: Backend, trace: seq<Event<V>>)
    requires Reach(b, trace).Some?
    ensures PhaseInv(trace, Reach(b, trace).value)
  {
    if trace != [] {
      var rest := trace[..|trace| - 1];
      ReachKeepsPhases(b, rest);
      NextKeepsPhases(b, rest, Reach(b, rest).value, trace[|trace| - 1]);
      assert rest + [trace[|trace| - 1]] == trace;
    }
  }

  lemma NextKeepsPhases<V>(b: Backend, trace: seq<Event<V>>, s: State<V>, e: Event<V>)
    requires PhaseInv(trace, s) && Next(b, s, e).Some?
    ensures PhaseInv(trace + [e], Next(b, s, e).value)
  {
    var t, longer := Next(b, s, e).value, trace + [e];
    forall a | a in t.phases && t.phases[a].Missed? ensures exists c :: MissedAt(longer, a, t.phases[a].key, c) {
      if a == e.attempt {
        assert MissedAt(longer, a, e.key, |trace|);
      } else {
        var c: nat :| MissedAt(trace, a, s.phases[a].key, c);
        assert MissedAt(longer, a, s.phases[a].key, c);
      }
    }
  }

  lemma {:induction false} PrefixReaches<V>(b: Backend, trace: seq<Event<V>>, i: nat)
    requires Reach(b, trace).Some? && i <= |trace|
    ensures Reach(b, trace[..i]).Some?
    ensures i < |trace| ==> Next(b, Reach(b, trace[..i]).value, trace[i]).Some?
  {
    if i == |trace| {
      assert trace[..i] == trace;
    } else {
      var rest := trace[..|trace| - 1];
      PrefixReaches(b, rest, i);
      assert rest[..i] == trace[..i];
    }
  }

  // ---- What checks find ----

  lemma PrefixHolding<V>(trace: seq<Event<V>>, key: Key, c: nat)
    requires c <= |trace|
    ensures Holding(trace[..c], key).None? <==> NothingKeptBefore(trace, key, c)
    ensures forall r: nat :: LatestKept(trace, key, c, r) ==>
      Holding(trace[..c], key) == Some(Kept(trace[r].value, trace[r].ttl, trace[r].at))
    ensures Holding(trace[..c], key).Some? ==> exists r: nat :: LatestKept(trace, key, c, r)
  {
    var before := trace[..c];
    assert forall r :: 0 <= r < c ==> before[r] == trace[r];
    var l := LastKept(before, key);
    if l.Some? {
      assert LatestKept(trace, key, c, l.value);
    }
    forall r: nat | LatestKept(trace, key, c, r) ensures l == Some(r) {
      assert Keeps(before[r], key);
    }
  }

  /**
   Exactly what an honest check finds: it misses if nothing was kept under its key before it or the latest
   value kept had expired, and returns that value otherwise.
   */
  lemma {:induction false} HonestChecksMissIff<V>(b: Backend, trace: seq<Event<V>>, c: nat)
    requires Reach(b, trace).Some? && c < |trace| && trace[c].Checked? && trace[c].honest
    ensures trace[c].hit.None? <==> NothingKeptBefore(trace, trace[c].key, c) || ExpiredBy(b, trace, trace[c].key, c)
    ensures trace[c].hit.Some? ==>
      exists r: nat :: LatestKept(trace, trace[c].key, c, r) && trace[r].value == trace[c].hit.value
  {
    PrefixReaches(b, trace, c);
    ReachKeepsStore(b, trace[..c]);
    assert StoreOf(Reach(b, trace[..c]).value, trace[c].key) == Holding(trace[..c], trace[c].key);
    PrefixHolding(trace, trace[c].key, c);
  }

  /** Whoever runs `fn` on a key missed before: by a lie, before anything was kept, or after an expiry. */
  lemma ExecutionsFollowMisses<V>(b: Backend, trace: seq<Event<V>>, i: nat)
    requires Reach(b, trace).Some? && i < |trace| && trace[i].Executed?
    ensures exists c :: 0 <= c < i && trace[c].attempt == trace[i].attempt && IsExplained(b, trace, trace[i].key, c)
  {
    PrefixReaches(b, trace, i);
    ReachKeepsPhases(b, trace[..i]);
    var c: nat :| MissedAt(trace[..i], trace[i].attempt, trace[i].key, c);
    assert trace[c] == trace[..i][c];
    if trace[c].honest {
      HonestChecksMissIff(b, trace, c);
    }
    assert IsExplained(b, trace, trace[i].key, c);
  }

  /** The record at r is about v, which the same attempt's `fn` returned at e. */
  predicate Produced<V(==)>(trace: seq<Event<V>>, e: nat, r: nat, v: V)
    requires e < |trace| && r < |trace|
  {
    && trace[r].Recorded? && trace[r].value == v
    && trace[e] == Executed(trace[r].attempt, trace[r].key, Returned(v))
  }

  /** Every record is about what a successful `fn` of the same attempt returned for the same key. */
  lemma RecordsComeFromExecutions<V>(b: Backend, trace: seq<Event<V>>, r: nat)
    requires Reach(b, trace).Some? && r < |trace| && trace[r].Recorded?
    ensures exists e :: 0 <= e < r && Produced(trace, e, r, trace[r].value)
  {
    PrefixReaches(b, trace, r);
    ReachKeepsPhases(b, trace[..r]);
    var e :| 0 <= e < r && trace[..r][e] == Executed(trace[r].attempt, trace[r].key, Returned(trace[r].value));
    assert Produced(trace, e, r, trace[r].value);
  }

  /** Every honest hit returns the latest kept value of its key, which some successful `fn` had produced. */
  lemma HitsReturnRecordedResults<V>(b: Backend, trace: seq<Event<V>>, i: nat)
    requires Reach(b, trace).Some? && i < |trace|
    requires trace[i].Checked? && trace[i].honest && trace[i].hit.Some?
    ensures exists r, e ::
      0 <= e < r < i && LatestKept(trace, trace[i].key, i, r) && Produced(trace, e, r, trace[i].hit.value)
  {
    HonestChecksMissIff(b, trace, i);
    var r: nat :| LatestKept(trace, trace[i].key, i, r) && trace[r].value == trace[i].hit.value;
    RecordsComeFromExecutions(b, trace, r);
    var e :| 0 <= e < r && Produced(trace, e, r, trace[r].value);
    assert Produced(trace, e, r, trace[i].hit.value);
  }

  /**
   Once a value is kept under a key, no attempt with a later honest check executes under that key, unless the
   latest value has expired by then.
   */
  lemma LateCheckersNeverExecute<V>(b: Backend, trace: seq<Event<V>>, r: nat, c: nat, i: nat)
    requires Reach(b, trace).Some? && r < c < i < |trace|
    requires trace[c].Checked? && trace[c].honest && trace[i].Executed?
    requires trace[c].attempt == trace[i].attempt && !ExpiredBy(b, trace, trace[i].key, c)
    ensures !Keeps(trace[r], trace[i].key)
  {
    ExecutionsFollowMisses(b, trace, i);
    var d :| 0 <= d < i && trace[d].attempt == trace[i].attempt && IsExplained(b, trace, trace[i].key, d);
    OneCheckPerAttempt(b, trace, c, d);
  }

  lemma {:induction false} PhasesGrow<V>(b: Backend, trace: seq<Event<V>>, c: nat)
    requires Reach(b, trace).Some? && c < |trace|
    ensures trace[c].attempt in Reach(b, trace).value.phases
    ensures !trace[c].Checked? ==> !Reach(b, trace).value.phases[trace[c].attempt].Missed?
  {
    var rest := trace[..|trace| - 1];
    if c < |rest| {
      PhasesGrow(b, rest, c);
    }
  }

  lemma OneCheckPerAttempt<V>(b: Backend, trace: seq<Event<V>>, c: nat, d: nat)
    requires Reach(b, trace).Some? && c < |trace| && d < |trace|
    requires trace[c].Checked? && trace[d].Checked? && trace[c].attempt == trace[d].attempt
    ensures c == d
  {
    var first, second := if c < d then c else d, if c < d then d else c;
    if first < second {
      PrefixReaches(b, trace, second);
      PhasesGrow(b, trace[..second], first);
    }
  }

  lemma OneExecutionPerAttempt<V>(b: Backend, trace: seq<Event<V>>, i: nat, j: nat)
    requires Reach(b, trace).Some? && i < |trace| && j < |trace|
    requires trace[i].Executed? && trace[j].Executed? && trace[i].attempt == trace[j].attempt
    ensures i == j
  {
    var first, second := if i < j then i else j, if i < j then j else i;
    if first < second {
      PrefixReaches(b, trace, second);
      PhasesGrow(b, trace[..second], first);
    }
  }

  // ---- How many executions succeed under a key ----

  predicate IsSuccess<V>(e: Event<V>, key: Key) {
    e.Executed? && e.key == key && e.fn.Returned?
  }

  /** The positions of the successful executions on the key. */
  function Executions<V>(trace: seq<Event<V>>, key: Key): set<nat> {
    set i: nat | i < |trace| && IsSuccess(trace[i], key)
  }

  /** The checks on the key that missed because the store did not answer honestly. */
  function Lies<V>(trace: seq<Event<V>>, key: Key): set<nat> {
    set c: nat | c < |trace| && IsLie(trace, key, c)
  }

  /** The honest checks on the key that missed before anything was kept. */
  function Earlies<V>(trace: seq<Event<V>>, key: Key): set<nat> {
    set c: nat | c < |trace| && IsEarly(trace, key, c)
  }

  /** The honest checks on the key that missed after an expiry. */
  function Lapses<V>(b: Backend, trace: seq<Event<V>>, key: Key): set<nat> {
    set c: nat | c < |trace| && IsLapse(b, trace, key, c)
  }

  /** The attempts at some positions. */
  function Attempts<V>(trace: seq<Event<V>>, s: set<nat>): set<nat>
    requires forall i :: i in s ==> i < |trace|
  {
    set i | i in s :: trace[i].attempt
  }

  lemma {:induction false} NoMoreAttemptsThanPositions<V>(trace: seq<Event<V>>, s: set<nat>)
    requires forall i :: i in s ==> i < |trace|
    ensures |Attempts(trace, s)| <= |s|
  {
    if s == {} {
      assert Attempts(trace, s) == {};
    } else {
      var i :| i in s;
      NoMoreAttemptsThanPositions(trace, s - {i});
      assert Attempts(trace, s) == Attempts(trace, s - {i}) + {trace[i].attempt};
    }
  }

  lemma {:induction false} AsManyAttemptsAsPositions<V>(trace: seq<Event<V>>, s: set<nat>)
    requires forall i :: i in s ==> i < |trace|
    requires forall i, j :: i in s && j in s && trace[i].attempt == trace[j].attempt ==> i == j
    ensures |Attempts(trace, s)| == |s|
  {
    if s == {} {
      assert Attempts(trace, s) == {};
    } else {
      var i :| i in s;
      AsManyAttemptsAsPositions(trace, s - {i});
      assert trace[i].attempt !in Attempts(trace, s - {i});
      assert Attempts(trace, s) == Attempts(trace, s - {i}) + {trace[i].attempt};
    }
  }

  /** An attempt executes at most once, so counting attempts is counting executions. */
  lemma CountingAttempts<V>(b: Backend, trace: seq<Event<V>>, key: Key)
    requires Reach(b, trace).Some?
    ensures |Attempts(trace, Executions(trace, key))| == |Executions(trace, key)|
  {
    forall i, j | i in Executions(trace, key) && j in Executions(trace, key) && trace[i].attempt == trace[j].attempt
      ensures i == j
    {
      OneExecutionPerAttempt(b, trace, i, j);
    }
    AsManyAttemptsAsPositions(trace, Executions(trace, key));
  }

  lemma ExecutionsAreExplained<V>(b: Backend, trace: seq<Event<V>>, key: Key)
    requires Reach(b, trace).Some?
    ensures Attempts(trace, Executions(trace, key)) <=
      Attempts(trace, Lies(trace, key)) + Attempts(trace, Earlies(trace, key)) + Attempts(trace, Lapses(b, trace, key))
  {
    forall i | i in Executions(trace, key)
      ensures trace[i].attempt in
        Attempts(trace, Lies(trace, key)) + Attempts(trace, Earlies(trace, key)) +
        Attempts(trace, Lapses(b, trace, key))
    {
      ExecutionsFollowMisses(b, trace, i);
      var c: nat :| c < i && trace[c].attempt == trace[i].attempt && IsExplained(b, trace, key, c);
      assert c in Lies(trace, key) + Earlies(trace, key) + Lapses(b, trace, key);
    }
  }

  lemma SubsetIsNoLarger(s: set<nat>, t: set<nat>)
    requires s <= t
    ensures |s| <= |t|
  {
    assert t == s + (t - s);
  }

  /**
   In every interleaving and under every store fault, the successful executions under a key are at most the
   checks on it that the store lied to, plus those made before anything was kept, plus those after an expiry.
   */
  lemma DuplicationIsFaultsPlusRaces<V>(b: Backend, trace: seq<Event<V>>, key: Key)
    requires Reach(b, trace).Some?
    ensures |Executions(trace, key)| <=
      |Lies(trace, key)| + |Earlies(trace, key)| + |Lapses(b, trace, key)|
  {
    var lies, earlies, lapses := Lies(trace, key), Earlies(trace, key), Lapses(b, trace, key);
    CountingAttempts(b, trace, key);
    ExecutionsAreExplained(b, trace, key);
    SubsetIsNoLarger(Attempts(trace, Executions(trace, key)),
                     Attempts(trace, lies) + Attempts(trace, earlies) + Attempts(trace, lapses));
    NoMoreAttemptsThanPositions(trace, lies);
    NoMoreAttemptsThanPositions(trace, earlies);
    NoMoreAttemptsThanPositions(trace, lapses);
  }

  // ---- Attempts that do not overlap ----

  /** No attempt takes a step after a later attempt has checked the same key. */
  predicate NoOverlap<V>(trace: seq<Event<V>>, key: Key) {
    forall i: nat, j: nat, k: nat ::
      i < j < k < |trace| && trace[j].Checked? && trace[j].key == key && trace[i].attempt == trace[k].attempt ==>
        trace[j].attempt == trace[i].attempt
  }

  predicate IsRecordOf<V>(e: Event<V>, a: nat) {
    e.Recorded? && e.attempt == a
  }

  /** The records on the key that the store lost. */
  function Losses<V>(trace: seq<Event<V>>, key: Key): set<nat> {
    set r: nat | r < |trace| && trace[r].Recorded? && trace[r].key == key && trace[r].record.Lost?
  }

  /** The successful execution at i is never followed by a record: the attempt stopped in between. */
  predicate IsAbandoned<V>(trace: seq<Event<V>>, key: Key, i: nat)
    requires i < |trace|
  {
    IsSuccess(trace[i], key) && forall r: nat :: r < |trace| ==> !IsRecordOf(trace[r], trace[i].attempt)
  }

  function Abandoned<V>(trace: seq<Event<V>>, key: Key): set<nat> {
    set i: nat | i < |trace| && IsAbandoned(trace, key, i)
  }

  /** The attempt checks early at c and has its result kept at r. */
  predicate RacesAt<V>(trace: seq<Event<V>>, key: Key, a: nat, c: nat, r: nat)
    requires c < |trace| && r < |trace|
  {
    trace[c].attempt == trace[r].attempt == a && IsEarly(trace, key, c) && Keeps(trace[r], key)
  }

  /** The attempt checked the key before anything was kept, and then had its own result kept. */
  predicate Races<V>(trace: seq<Event<V>>, key: Key, a: nat) {
    exists c: nat, r: nat :: c < |trace| && r < |trace| && RacesAt(trace, key, a, c, r)
  }

  function Racers<V>(trace: seq<Event<V>>, key: Key): set<nat> {
    set a | a in Attempts(trace, Executions(trace, key)) && Races(trace, key, a)
  }

  lemma RecordsFollowChecks<V>(b: Backend, trace: seq<Event<V>>, r: nat, c: nat)
    requires Reach(b, trace).Some? && r < |trace| && c < |trace|
    requires trace[r].Recorded? && trace[c].Checked? && trace[r].attempt == trace[c].attempt
    ensures c < r
  {
    if r < c {
      PrefixReaches(b, trace, c);
      PhasesGrow(b, trace[..c], r);
    }
  }

  /** Without overlap, the later of two early checks would have seen the earlier attempt's result. */
  lemma EarlierRacerIsSeen<V>(b: Backend, trace: seq<Event<V>>, key: Key, c: nat, d: nat, r: nat)
    requires Reach(b, trace).Some? && c < d < |trace| && r < |trace|
    requires IsMiss(trace[c], key) && IsMiss(trace[d], key) && trace[c].attempt != trace[d].attempt
    requires trace[r].attempt == trace[c].attempt && Keeps(trace[r], key) && NothingKeptBefore(trace, key, d)
    ensures !NoOverlap(trace, key)
  {
    RecordsFollowChecks(b, trace, r, c);
    assert c < d < r;
  }

  lemma RacersAreOne<V>(b: Backend, trace: seq<Event<V>>, key: Key, a: nat, c: nat, r: nat, a': nat, d: nat, q: nat)
    requires Reach(b, trace).Some? && NoOverlap(trace, key)
    requires c < |trace| && r < |trace| && RacesAt(trace, key, a, c, r)
    requires d < |trace| && q < |trace| && RacesAt(trace, key, a', d, q)
    ensures a == a'
  {
    if a != a' && c < d {
      EarlierRacerIsSeen(b, trace, key, c, d, r);
    } else if a != a' {
      EarlierRacerIsSeen(b, trace, key, d, c, q);
    }
  }

  lemma AtMostOneRacer<V>(b: Backend, trace: seq<Event<V>>, key: Key, a: nat, a': nat)
    requires Reach(b, trace).Some? && NoOverlap(trace, key)
    requires Races(trace, key, a) && Races(trace, key, a')
    ensures a == a'
  {
    var c: nat, r: nat :| c < |trace| && r < |trace| && RacesAt(trace, key, a, c, r);
    var d: nat, q: nat :| d < |trace| && q < |trace| && RacesAt(trace, key, a', d, q);
    RacersAreOne(b, trace, key, a, c, r, a', d, q);
  }

  /** A record of an attempt is for the key on which the attempt executed. */
  lemma RecordsKeepTheKey<V>(b: Backend, trace: seq<Event<V>>, i: nat, r: nat)
    requires Reach(b, trace).Some? && i < |trace| && r < |trace|
    requires trace[i].Executed? && trace[r].Recorded? && trace[i].attempt == trace[r].attempt
    ensures trace[r].key == trace[i].key
  {
    RecordsComeFromExecutions(b, trace, r);
    var e: nat :| e < r && Produced(trace, e, r, trace[r].value);
    OneExecutionPerAttempt(b, trace, i, e);
  }

  /** The positions that excuse a further execution. */
  function Excuses<V>(b: Backend, trace: seq<Event<V>>, key: Key): (s: set<nat>)
    ensures forall i :: i in s ==> i < |trace|
  {
    Lies(trace, key) + Lapses(b, trace, key) + Losses(trace, key) + Abandoned(trace, key)
  }

  /** The attempt of a successful execution is excused, or it is a racer. */
  lemma ExecutionIsClassified<V>(b: Backend, trace: seq<Event<V>>, key: Key, i: nat)
    requires Reach(b, trace).Some? && i in Executions(trace, key)
    ensures trace[i].attempt in Attempts(trace, Excuses(b, trace, key)) + Racers(trace, key)
  {
    var a := trace[i].attempt;
    ExecutionsFollowMisses(b, trace, i);
    var c: nat :| c < i && trace[c].attempt == a && IsExplained(b, trace, key, c);
    if IsLie(trace, key, c) || IsLapse(b, trace, key, c) {
      assert c in Excuses(b, trace, key);
    } else if r: nat :| r < |trace| && IsRecordOf(trace[r], a) {
      RecordsKeepTheKey(b, trace, i, r);
      if trace[r].record.Lost? {
        assert r in Excuses(b, trace, key);
      } else {
        assert RacesAt(trace, key, a, c, r);
      }
    } else {
      assert i in Excuses(b, trace, key);
    }
  }

  lemma ExecutionsAreClassified<V>(b: Backend, trace: seq<Event<V>>, key: Key)
    requires Reach(b, trace).Some?
    ensures Attempts(trace, Executions(trace, key)) <= Attempts(trace, Excuses(b, trace, key)) + Racers(trace, key)
  {
    forall i | i in Executions(trace, key)
      ensures trace[i].attempt in Attempts(trace, Excuses(b, trace, key)) + Racers(trace, key)
    {
      ExecutionIsClassified(b, trace, key, i);
    }
  }

  lemma AtMostOneRaces<V>(b: Backend, trace: seq<Event<V>>, key: Key)
    requires Reach(b, trace).Some? && NoOverlap(trace, key)
    ensures |Racers(trace, key)| <= 1
  {
    forall a, a' | a in Racers(trace, key) && a' in Racers(trace, key) ensures a == a' {
      AtMostOneRacer(b, trace, key, a, a');
    }
    AtMostOneElement(Racers(trace, key));
  }

  lemma UnionIsNoLarger(s: set<nat>, t: set<nat>, u: set<nat>)
    requires s <= t + u
    ensures |s| <= |t| + |u|
  {
    SubsetIsNoLarger(s, t + u);
  }

  /**
   Attempts that do not overlap on the key: at most one successful execution, plus one for every check the
   store lied to, every expiry met, every record lost, and every attempt that stopped before recording.
   */
  lemma WithoutOverlapAtMostOnePlusFaults<V>(b: Backend, trace: seq<Event<V>>, key: Key)
    requires Reach(b, trace).Some? && NoOverlap(trace, key)
    ensures |Executions(trace, key)| <=
      |Lies(trace, key)| + |Lapses(b, trace, key)| + |Losses(trace, key)| + |Abandoned(trace, key)| + 1
  {
    CountingAttempts(b, trace, key);
    ExecutionsAreClassified(b, trace, key);
    UnionIsNoLarger(Attempts(trace, Executions(trace, key)), Attempts(trace, Excuses(b, trace, key)),
                    Racers(trace, key));
    NoMoreAttemptsThanPositions(trace, Excuses(b, trace, key));
    AtMostOneRaces(b, trace, key);
  }

  lemma AtMostOneElement(s: set<nat>)
    requires forall a, b :: a in s && b in s ==> a == b
    ensures |s| <= 1
  {
    if s != {} {
      var a :| a in s;
      assert s == {a};
    }
  }

  // ---- Races are real ----

  /** The i-th event when n attempts all check, then all execute, then all record, on a store without faults. */
  function RaceEvent<V>(n: nat, i: nat, key: Key, v: V): Event<V> {
    if i < n then Checked(i, key, None, true, 0)
    else if i < 2 * n then Executed(i - n, key, Returned(v))
    else Recorded(i - 2 * n, key, v, Stored, 1, 0)
  }

  /** The first m events of that race. */
  function Race<V>(n: nat, m: nat, key: Key, v: V): (race: seq<Event<V>>)
    ensures |race| == m && forall i :: 0 <= i < m ==> race[i] == RaceEvent(n, i, key, v)
  {
    seq(m, i requires 0 <= i < m => RaceEvent(n, i, key, v))
  }

  /** Where attempt i is after m events. */
  function RacePhase<V>(n: nat, m: nat, i: nat, key: Key, v: V): Phase<V> {
    if 2 * n + i < m then Over else if n + i < m then Succeeded(key, v) else Missed(key)
  }

  function RacePhases<V>(n: nat, m: nat, checked: nat, key: Key, v: V): (phases: map<nat, Phase<V>>)
    ensures forall i: nat :: i in phases <==> i < checked
    ensures forall i: nat :: i < checked ==> phases[i] == RacePhase(n, m, i, key, v)
  {
    if checked == 0 then map[]
    else RacePhases(n, m, checked - 1, key, v)[checked - 1 := RacePhase(n, m, checked - 1, key, v)]
  }

  function RaceState<V>(n: nat, m: nat, key: Key, v: V): State<V> {
    State(if m <= 2 * n then map[] else map[key := Kept(v, 1, 0)], RacePhases(n, m, if m < n then m else n, key, v))
  }

  lemma NextCheck<V>(b: Backend, n: nat, m: nat, key: Key, v: V)
    requires m < n
    ensures Next(b, RaceState(n, m, key, v), RaceEvent(n, m, key, v)) == Some(RaceState(n, m + 1, key, v))
  {
    assert RaceState(n, m, key, v).phases[m := Missed(key)] == RaceState(n, m + 1, key, v).phases;
  }

  lemma NextExecution<V>(b: Backend, n: nat, m: nat, key: Key, v: V)
    requires n <= m < 2 * n
    ensures Next(b, RaceState(n, m, key, v), RaceEvent(n, m, key, v)) == Some(RaceState(n, m + 1, key, v))
  {
    assert RaceState(n, m, key, v).phases[m - n := Succeeded(key, v)] == RaceState(n, m + 1, key, v).phases;
  }

  lemma NextRecord<V>(b: Backend, n: nat, m: nat, key: Key, v: V)
    requires 2 * n <= m < 3 * n
    ensures Next(b, RaceState(n, m, key, v), RaceEvent(n, m, key, v)) == Some(RaceState(n, m + 1, key, v))
  {
    var s, t := RaceState(n, m, key, v), RaceState(n, m + 1, key, v);
    assert s.phases[m - 2 * n := Over] == t.phases;
    assert s.store[key := Kept(v, 1, 0)] == t.store;
  }

  lemma NextInRace<V>(b: Backend, n: nat, m: nat, key: Key, v: V)
    requires m < 3 * n
    ensures Next(b, RaceState(n, m, key, v), RaceEvent(n, m, key, v)) == Some(RaceState(n, m + 1, key, v))
  {
    if m < n {
      NextCheck(b, n, m, key, v);
    } else if m < 2 * n {
      NextExecution(b, n, m, key, v);
    } else {
      NextRecord(b, n, m, key, v);
    }
  }

  lemma {:induction false} RaceReaches<V>(b: Backend, n: nat, m: nat, key: Key, v: V)
    requires m <= 3 * n
    ensures Reach(b, Race(n, m, key, v)) == Some(RaceState(n, m, key, v))
  {
    if m == 0 {
      assert Race(n, 0, key, v) == [] && RaceState(n, 0, key, v) == State(map[], map[]);
    } else {
      RaceReaches(b, n, m - 1, key, v);
      NextInRace(b, n, m - 1, key, v);
      assert Race(n, m, key, v)[..m - 1] == Race(n, m - 1, key, v);
    }
  }

  /** In such a race nothing goes wrong: no lie, no expiry, no lost record, no abandoned attempt. */
  lemma RacesAreFaultless<V>(b: Backend, n: nat, key: Key, v: V)
    ensures var race := Race(n, 3 * n, key, v);
      Lies(race, key) == Lapses(b, race, key) == Losses(race, key) == Abandoned(race, key) == {}
  {
    var race := Race(n, 3 * n, key, v);
    forall i: nat | i < |race| && IsSuccess(race[i], key) ensures !IsAbandoned(race, key, i) {
      assert IsRecordOf(race[i + n], race[i].attempt);
    }
  }

  function UpTo(n: nat): (numbers: set<nat>)
    ensures |numbers| == n && forall i: nat :: i in numbers <==> i < n
  {
    if n == 0 then {} else UpTo(n - 1) + {n - 1}
  }

  lemma EveryRacerExecutes<V>(n: nat, key: Key, v: V)
    ensures var race := Race(n, 3 * n, key, v); Attempts(race, Executions(race, key)) == UpTo(n)
  {
    var race := Race(n, 3 * n, key, v);
    forall a: nat | a < n ensures a in Attempts(race, Executions(race, key)) {
      assert n + a in Executions(race, key) && race[n + a].attempt == a;
    }
  }

  /** For every n there is an interleaving of n attempts, without any fault, in which all n succeed. */
  lemma RacesAreReal<V>(b: Backend, n: nat, key: Key, v: V)
    ensures var race := Race(n, 3 * n, key, v);
      && Reach(b, race).Some? && |Executions(race, key)| == n
      && Lies(race, key) == Lapses(b, race, key) == Losses(race, key) == Abandoned(race, key) == {}
  {
    RaceReaches(b, n, 3 * n, key, v);
    RacesAreFaultless(b, n, key, v);
    EveryRacerExecutes(n, key, v);
    CountingAttempts(b, Race(n, 3 * n, key, v), key);
  }

  // ---- The three steps of one attempt, run back to back ----

  /** The store holds the encoding of each value, with its expiry. */
  ghost predicate Represents<V>(entries: Entries, codec: Codec<V>, store: map<Key, Kept<V>>) {
    && store.Keys == entries.Keys
    && forall key :: key in store ==>
         && entries[key].data.Some? && codec.decode(entries[key].data.value) == Some(store[key].value)
         && entries[key].ttl == store[key].ttl && entries[key].at == store[key].at
  }

  /** What the attempt's check finds, as the interleaved model sees it. */
  function HitOf<V>(entries: Entries, env: Setting<V>, a: Attempt<V>): Option<V> {
    var cached := Cached(env.target, IdempotentExecution.Reply(entries, env, a));
    if cached.Some? then cached.value else None
  }

  /** The attempt's record. */
  function RecordOf<V>(codec: Codec<V>, id: nat, a: Attempt<V>, v: V): Event<V> {
    Recorded(id, a.key, v, if codec.encode(v).None? then Lost else a.record, a.ttl, a.recordedAt)
  }

  /** Under every fault and clock, an attempt nobody interrupts does exactly what one call of the library does. */
  lemma UninterruptedAttempt<V(!new)>(
    b: Backend, s: State<V>, id: nat, entries: Entries, codec: Codec<V>, a: Attempt<V>)
    requires id !in s.phases && Represents(entries, codec, s.store) && Lawful(codec)
    ensures var env := Setting(b, Into(codec));
      Next(b, s, Checked(id, a.key, HitOf(entries, env, a), a.check.Honest?, a.checkedAt)).Some?
    ensures var env := Setting(b, Into(codec));
      var checked := Next(b, s, Checked(id, a.key, HitOf(entries, env, a), a.check.Honest?, a.checkedAt)).value;
      var after := EntriesAfter(entries, env, a);
      match StepOf(entries, env, a)
      case Hit(v) => v == HitOf(entries, env, a) && v.Some? && Represents(after, codec, checked.store)
      case FnFailed(message) =>
        var failed := Next(b, checked, Executed(id, a.key, a.fn));
        a.fn == Errored(message) && failed.Some? && Represents(after, codec, failed.value.store)
      case Ran(v) =>
        var executed := Next(b, checked, Executed(id, a.key, a.fn));
        && a.fn == Returned(v) && executed.Some?
        && var recorded := Next(b, executed.value, RecordOf(codec, id, a, v));
           recorded.Some? && Represents(after, codec, recorded.value.store)
  {
  }
}
