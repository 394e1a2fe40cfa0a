/** Check, execute, record: one attempt, and any sequence of attempts that do not overlap. */
module IdempotentExecution {
  import opened Temporal
  import opened IdempotencyStores
  import opened IdempotencyKeys

  /** JSON for one result type; encoding may fail and foreign bytes may not decode. */
  datatype Codec<!V> = Codec(encode: V -> Option<string>, decode: string -> Option<V>)

  ghost predicate Lawful<V(!new)>(c: Codec<V>) {
    forall v :: c.encode(v).Some? ==> c.decode(c.encode(v).value) == Some(v)
  }

  /** The resultPtr argument: nil, or a pointer to a value with this codec. */
  datatype Target<!V> = NoResult | Into(codec: Codec<V>)

  datatype FnOutcome<V> = Returned(value: V) | Errored(message: string)

  /** A store that answers, one that errs, and one whose entry came back as other bytes. */
  datatype CheckFault = Honest | Broken | Corrupted(data: Option<string>)

  /** A write that is kept, lost, or kept although an error was returned. */
  datatype RecordFault = Stored | Lost | KeptButFailed

  /** One attempt: its key and TTL, what `fn` would do, and how the store and the clock behave. */
  datatype Attempt<V> = Attempt(
    key: string, ttl: Time, fn: FnOutcome<V>,
    check: CheckFault, checkedAt: Time, record: RecordFault, recordedAt: Time)

  /** What all attempts have in common: which store they use and where results go. */
  datatype Setting<!V> = Setting(backend: Backend, target: Target<V>)

  /** How an attempt ended: served from the store, executed, or failed in `fn`. */
  datatype Step<V> = Hit(value: Option<V>) | Ran(result: V) | FnFailed(message: string)

  function Reply<V>(entries: Entries, env: Setting<V>, a: Attempt<V>): Answer {
    match a.check
    case Honest => Lookup(env.backend, entries, a.key, a.checkedAt)
    case Broken => BROKEN
    case Corrupted(data) => Answer(data, true, false)
  }

  /** The cached result an answer yields, if it is usable at all. */
  function Cached<V>(target: Target<V>, answer: Answer): Option<Option<V>> {
    if !answer.found || answer.data.None? then None
    else
      match target
      case NoResult => Some(None)
      case Into(codec) =>
        var v := codec.decode(answer.data.value);
        if v.None? then None else Some(v)
  }

  function Encoded<V>(target: Target<V>, v: V): Option<string> {
    match target
    case NoResult => Some("null")
    case Into(codec) => codec.encode(v)
  }

  function StepOf<V>(entries: Entries, env: Setting<V>, a: Attempt<V>): Step<V> {
    var cached := Cached(env.target, Reply(entries, env, a));
    if cached.Some? then Hit(cached.value)
    else if a.fn.Returned? then Ran(a.fn.value) else FnFailed(a.fn.message)
  }

  /** The attempt writes its result, and the store keeps it. */
  predicate Keeps<V>(entries: Entries, env: Setting<V>, a: Attempt<V>) {
    StepOf(entries, env, a).Ran? && Encoded(env.target, a.fn.value).Some? && !a.record.Lost?
  }

  /** What a successful attempt writes. */
  function ResultWrite<V>(env: Setting<V>, a: Attempt<V>): Write
    requires a.fn.Returned?
  {
    Write(a.key, Encoded(env.target, a.fn.value), a.ttl, a.recordedAt)
  }

  function EntriesAfter<V>(entries: Entries, env: Setting<V>, a: Attempt<V>): Entries {
    if Keeps(entries, env, a) then entries[a.key := ResultWrite(env, a)] else entries
  }

  method ExecuteIdempotentWithTTL<V>(store: Store, target: Target<V>, a: Attempt<V>, ghost entries: Entries)
    returns (err: Option<string>, result: Option<V>)
    requires store.Holds(entries)
    modifies store.Footprint()
    ensures store.Holds(EntriesAfter(entries, Setting(store.Kind(), target), a))
    ensures match StepOf(entries, Setting(store.Kind(), target), a)
      case Hit(v) => err == None && result == v
      case Ran(v) => err == None && result == Some(v)
      case FnFailed(message) => err == Some(message)
    ensures err.Some? ==> a.fn == Errored(err.value)
    ensures err.None? && a.fn.Errored? ==> store.Holds(entries)
  {
    result := None;
    var answer;
    match a.check {
      case Honest => answer := store.Check(a.key, a.checkedAt, false, entries);
      case Broken => answer := store.Check(a.key, a.checkedAt, true, entries);
      case Corrupted(data) => answer := Answer(data, true, false);
    }
    var data, found := answer.data, answer.found;
    if found && data.Some? {
      if target.Into? {
        result := target.codec.decode(data.value);
        if result.None? {
          found := false;
        }
      }
      if found {
        err := None;
        return;
      }
    }
    if a.fn.Errored? {
      err := Some(a.fn.message);
      return;
    }
    result := Some(a.fn.value);
    err := None;
    if target.Into? {
      data := target.codec.encode(a.fn.value);
      if data.None? {
        return;
      }
    } else {
      data := Some("null");
    }
    store.Record(a.key, data, a.ttl, a.recordedAt, a.record.Lost?, entries);
  }

  // ---- Sequences of attempts, from an empty store ----

  function After<V>(ats: seq<Attempt<V>>, env: Setting<V>): Entries {
    if ats == [] then map[] else EntriesAfter(After(ats[..|ats| - 1], env), env, ats[|ats| - 1])
  }

  /** What the i-th attempt does. */
  function StepAt<V>(ats: seq<Attempt<V>>, env: Setting<V>, i: nat): Step<V>
    requires i < |ats|
  {
    StepOf(After(ats[..i], env), env, ats[i])
  }

  /** The store let this attempt down: at the check, or after a success. */
  predicate Faulty<V>(entries: Entries, env: Setting<V>, a: Attempt<V>) {
    || !a.check.Honest?
    || (StepOf(entries, env, a).Ran? && (Encoded(env.target, a.fn.value).None? || !a.record.Stored?))
  }

  /** The check found an entry that had expired. */
  predicate Lapsed<V>(entries: Entries, env: Setting<V>, a: Attempt<V>) {
    a.check.Honest? && a.key in entries && Expired(env.backend, entries[a.key].ttl, entries[a.key].at, a.checkedAt)
  }

  function Tally(b: bool): nat { if b then 1 else 0 }

  /** Successful executions of `fn` under a key. */
  function Successes<V>(ats: seq<Attempt<V>>, env: Setting<V>, key: string): nat {
    if ats == [] then 0
    else
      var rest, a := ats[..|ats| - 1], ats[|ats| - 1];
      Successes(rest, env, key) + Tally(a.key == key && StepOf(After(rest, env), env, a).Ran?)
  }

  function Faults<V>(ats: seq<Attempt<V>>, env: Setting<V>, key: string): nat {
    if ats == [] then 0
    else
      var rest, a := ats[..|ats| - 1], ats[|ats| - 1];
      Faults(rest, env, key) + Tally(a.key == key && Faulty(After(rest, env), env, a))
  }

  function Lapses<V>(ats: seq<Attempt<V>>, env: Setting<V>, key: string): nat {
    if ats == [] then 0
    else
      var rest, a := ats[..|ats| - 1], ats[|ats| - 1];
      Lapses(rest, env, key) + Tally(a.key == key && Lapsed(After(rest, env), env, a))
  }

  ghost predicate LawfulTarget<V(!new)>(target: Target<V>) {
    target.Into? ==> Lawful(target.codec)
  }

  /** Whatever was recorded can be served again. */
  lemma {:induction false} RecordedDataIsUsable<V(!new)>(ats: seq<Attempt<V>>, env: Setting<V>, key: string)
    requires LawfulTarget(env.target) && key in After(ats, env)
    ensures Cached(env.target, Answer(After(ats, env)[key].data, true, false)).Some?
  {
    var rest := ats[..|ats| - 1];
    if key in After(rest, env) {
      RecordedDataIsUsable(rest, env, key);
    }
  }

  // ---- Which attempts execute, exactly ----

  /** The i-th attempt writes its result, and the store keeps it. */
  predicate KeptAt<V>(ats: seq<Attempt<V>>, env: Setting<V>, i: nat)
    requires i < |ats|
  {
    Keeps(After(ats[..i], env), env, ats[i])
  }

  /** The last attempt on the key whose write was kept. */
  predicate LastKeptAt<V>(ats: seq<Attempt<V>>, env: Setting<V>, key: string, k: nat) {
    && k < |ats| && ats[k].key == key && KeptAt(ats, env, k)
    && forall j :: k < j < |ats| && ats[j].key == key ==> !KeptAt(ats, env, j)
  }

  /** No attempt on the key left anything in the store. */
  predicate NeverKept<V>(ats: seq<Attempt<V>>, env: Setting<V>, key: string) {
    forall j :: 0 <= j < |ats| && ats[j].key == key ==> !KeptAt(ats, env, j)
  }

  lemma KeptAtPrefix<V(!new)>(ats: seq<Attempt<V>>, env: Setting<V>, n: nat, i: nat)
    requires i < n <= |ats|
    ensures KeptAt(ats[..n], env, i) == KeptAt(ats, env, i)
  {
    assert ats[..n][..i] == ats[..i];
  }

  /** One more attempt that keeps nothing under the key changes nothing about it. */
  lemma LastKeptStays<V(!new)>(ats: seq<Attempt<V>>, env: Setting<V>, key: string, n: nat)
    requires |ats| == n + 1 && !(ats[n].key == key && KeptAt(ats, env, n))
    ensures forall k: nat :: LastKeptAt(ats[..n], env, key, k) ==> LastKeptAt(ats, env, key, k)
    ensures NeverKept(ats[..n], env, key) ==> NeverKept(ats, env, key)
  {
    forall i: nat | i < n ensures KeptAt(ats[..n], env, i) == KeptAt(ats, env, i) {
      KeptAtPrefix(ats, env, n, i);
    }
  }

  /** The key's entry is the result of the k-th attempt, the last on it whose write was kept. */
  ghost predicate ShowsLastKept<V>(ats: seq<Attempt<V>>, env: Setting<V>, key: string, k: nat) {
    LastKeptAt(ats, env, key, k) && key in After(ats, env) && After(ats, env)[key] == ResultWrite(env, ats[k])
  }

  /** The store shows, for every key, the result of the last attempt on it whose write was kept. */
  lemma {:induction false} EntryIsTheLastKept<V(!new)>(ats: seq<Attempt<V>>, env: Setting<V>, key: string)
    ensures if key in After(ats, env) then exists k: nat :: ShowsLastKept(ats, env, key, k)
      else NeverKept(ats, env, key)
  {
    if ats != [] {
      var n := |ats| - 1;
      if ats[n].key == key && KeptAt(ats, env, n) {
        assert ShowsLastKept(ats, env, key, n);
      } else {
        EntryIsTheLastKept(ats[..n], env, key);
        LastKeptStays(ats, env, key, n);
        if key in After(ats[..n], env) {
          var k: nat :| ShowsLastKept(ats[..n], env, key, k);
          assert ShowsLastKept(ats, env, key, k);
        }
      }
    }
  }

  lemma LastKeptIsUnique<V(!new)>(ats: seq<Attempt<V>>, env: Setting<V>, key: string, k: nat, l: nat)
    requires LastKeptAt(ats, env, key, k) && LastKeptAt(ats, env, key, l)
    ensures k == l
  {
  }

  predicate Usable<V>(target: Target<V>, data: Option<string>) {
    data.Some? && (target.Into? ==> target.codec.decode(data.value).Some?)
  }

  /**
   After some earlier attempts, the attempt finds a usable result: one that was kept last and has not expired,
   or foreign bytes that decode.
   */
  ghost predicate Finds<V>(earlier: seq<Attempt<V>>, env: Setting<V>, a: Attempt<V>) {
    match a.check
    case Honest =>
      exists k: nat ::
        && LastKeptAt(earlier, env, a.key, k)
        && !Expired(env.backend, earlier[k].ttl, earlier[k].recordedAt, a.checkedAt)
    case Broken => false
    case Corrupted(data) => Usable(env.target, data)
  }

  /** An attempt is served from the store exactly when it finds something, and executes `fn` otherwise. */
  lemma HitsExactlyWhenItFinds<V(!new)>(ats: seq<Attempt<V>>, env: Setting<V>, i: nat)
    requires LawfulTarget(env.target) && i < |ats|
    ensures StepAt(ats, env, i).Hit? <==> Finds(ats[..i], env, ats[i])
    ensures StepAt(ats, env, i).Ran? <==> ats[i].fn.Returned? && !Finds(ats[..i], env, ats[i])
  {
    var earlier, key := ats[..i], ats[i].key;
    EntryIsTheLastKept(earlier, env, key);
    if key in After(earlier, env) {
      RecordedDataIsUsable(earlier, env, key);
      var k: nat :| ShowsLastKept(earlier, env, key, k);
      forall l: nat | LastKeptAt(earlier, env, key, l) ensures l == k {
        LastKeptIsUnique(earlier, env, key, k, l);
      }
    }
  }

  /**
   What every attempt returns, under every fault: the error of its own `fn`, or the result of its own `fn`, or what
   it found. That is what the `fn` of the attempt kept last had returned, or what the foreign bytes decode to.
   */
  lemma StepsAreExact<V(!new)>(ats: seq<Attempt<V>>, env: Setting<V>, i: nat)
    requires LawfulTarget(env.target) && i < |ats|
    ensures match StepAt(ats, env, i)
      case FnFailed(message) => ats[i].fn == Errored(message) && !Finds(ats[..i], env, ats[i])
      case Ran(v) => ats[i].fn == Returned(v) && !Finds(ats[..i], env, ats[i])
      case Hit(v) =>
        && Finds(ats[..i], env, ats[i])
        && (env.target.NoResult? ==> v == None)
        && (env.target.Into? && ats[i].check.Corrupted? ==>
              ats[i].check.data.Some? && v == env.target.codec.decode(ats[i].check.data.value))
        && (env.target.Into? && ats[i].check.Honest? ==>
              v.Some? && exists k: nat :: LastKeptAt(ats[..i], env, ats[i].key, k) && ats[k].fn == Returned(v.value))
  {
    HitsExactlyWhenItFinds(ats, env, i);
    if ats[i].check.Honest? && env.target.Into? && StepAt(ats, env, i).Hit? {
      EntryIsTheLastKept(ats[..i], env, ats[i].key);
      var k: nat :| ShowsLastKept(ats[..i], env, ats[i].key, k);
      assert ats[..i][k] == ats[k];
    }
  }

  /**
   Exactly what is stored: an attempt's write is kept if it found nothing, its `fn` succeeded, the result encodes,
   and the store did not lose it; the entry then holds the encoded result, or `null` if there is no result pointer,
   with the attempt's own TTL.
   */
  lemma WritesAreExact<V(!new)>(ats: seq<Attempt<V>>, env: Setting<V>, i: nat)
    requires LawfulTarget(env.target) && i < |ats|
    ensures KeptAt(ats, env, i) <==>
      && !Finds(ats[..i], env, ats[i]) && ats[i].fn.Returned? && !ats[i].record.Lost?
      && (env.target.Into? ==> env.target.codec.encode(ats[i].fn.value).Some?)
    ensures KeptAt(ats, env, i) ==>
      var data := if env.target.Into? then env.target.codec.encode(ats[i].fn.value) else Some("null");
      After(ats[..i + 1], env) ==
        After(ats[..i], env)[ats[i].key := Write(ats[i].key, data, ats[i].ttl, ats[i].recordedAt)]
    ensures !KeptAt(ats, env, i) ==> After(ats[..i + 1], env) == After(ats[..i], env)
  {
    HitsExactlyWhenItFinds(ats, env, i);
    assert ats[..i + 1][..i] == ats[..i];
  }

  /** The i-th attempt is on the key, finds nothing, and its `fn` succeeds. */
  ghost predicate Executes<V>(ats: seq<Attempt<V>>, env: Setting<V>, key: string, i: nat)
    requires i < |ats|
  {
    ats[i].key == key && ats[i].fn.Returned? && !Finds(ats[..i], env, ats[i])
  }

  ghost function Executions<V(!new)>(ats: seq<Attempt<V>>, env: Setting<V>, key: string): set<nat> {
    set i: nat | i < |ats| && Executes(ats, env, key, i)
  }

  lemma OneMoreAttempt<V(!new)>(ats: seq<Attempt<V>>, env: Setting<V>, key: string, n: nat)
    requires |ats| == n + 1
    ensures Executions(ats, env, key) ==
      Executions(ats[..n], env, key) + if Executes(ats, env, key, n) then {n} else {}
    ensures n !in Executions(ats[..n], env, key)
  {
    forall i: nat | i < n ensures Executes(ats[..n], env, key, i) == Executes(ats, env, key, i) {
      assert ats[..n][..i] == ats[..i];
    }
  }

  /** The number of successful executions under a key is exactly the number of attempts that find nothing. */
  lemma {:induction false} SuccessesAreExecutions<V(!new)>(ats: seq<Attempt<V>>, env: Setting<V>, key: string)
    requires LawfulTarget(env.target)
    ensures Successes(ats, env, key) == |Executions(ats, env, key)|
  {
    if ats == [] {
      assert Executions(ats, env, key) == {};
    } else {
      var n := |ats| - 1;
      SuccessesAreExecutions(ats[..n], env, key);
      HitsExactlyWhenItFinds(ats, env, n);
      OneMoreAttempt(ats, env, key, n);
    }
  }

  /**
   The double execution the store is there to prevent happens exactly when, after a success on the key, some
   later attempt on it finds nothing and succeeds too.
   */
  lemma AtMostOnceIff<V(!new)>(ats: seq<Attempt<V>>, env: Setting<V>, key: string)
    requires LawfulTarget(env.target)
    ensures Successes(ats, env, key) <= 1 <==>
      forall i: nat, j: nat | i < j < |ats| && ats[i].key == ats[j].key == key ::
        StepAt(ats, env, i).Ran? && ats[j].fn.Returned? ==> Finds(ats[..j], env, ats[j])
  {
    SuccessesAreExecutions(ats, env, key);
    AtMostOneIff(Executions(ats, env, key));
    forall i: nat | i < |ats| && ats[i].key == key
      ensures i in Executions(ats, env, key) <==> StepAt(ats, env, i).Ran?
      ensures i in Executions(ats, env, key) <==> ats[i].fn.Returned? && !Finds(ats[..i], env, ats[i])
    {
      HitsExactlyWhenItFinds(ats, env, i);
      assert Executes(ats, env, key, i) <==> ats[i].fn.Returned? && !Finds(ats[..i], env, ats[i]);
    }
  }

  /** A finite set has at most one element exactly when no two of its elements are in order. */
  lemma AtMostOneIff(s: set<nat>)
    ensures |s| <= 1 <==> forall i, j :: i in s && j in s ==> !(i < j)
  {
    if s != {} {
      var i :| i in s;
      var rest := s - {i};
      assert s == rest + {i};
      if rest != {} {
        var j :| j in rest;
        assert |rest| >= 1 && j in s && i != j;
      } else {
        assert s == {i};
      }
    }
  }

  // ---- Bounds ----

  /**
   Under any faults and any clock, the successful executions under a key are at most one more than the
   attempts the store let down plus the attempts that came after an expiry.
   */
  lemma {:induction false} DuplicationIsBounded<V(!new)>(ats: seq<Attempt<V>>, env: Setting<V>, key: string)
    requires LawfulTarget(env.target)
    ensures Successes(ats, env, key) <=
      Faults(ats, env, key) + Lapses(ats, env, key) + Tally(key in After(ats, env))
  {
    if ats != [] {
      var rest, a := ats[..|ats| - 1], ats[|ats| - 1];
      DuplicationIsBounded(rest, env, key);
      if a.key == key && key in After(rest, env) {
        RecordedDataIsUsable(rest, env, key);
      }
    }
  }

  /** Every check on the key happens before any earlier kept write on it expires. */
  ghost predicate WithinTtl<V>(ats: seq<Attempt<V>>, env: Setting<V>, key: string) {
    forall i: nat, j: nat ::
      i < j < |ats| && ats[i].key == key && ats[j].key == key && KeptAt(ats, env, i) ==>
        !Expired(env.backend, ats[i].ttl, ats[i].recordedAt, ats[j].checkedAt)
  }

  lemma {:induction false} NoLapsesWithinTtl<V(!new)>(ats: seq<Attempt<V>>, env: Setting<V>, key: string)
    requires WithinTtl(ats, env, key)
    ensures Lapses(ats, env, key) == 0
  {
    if ats != [] {
      var n := |ats| - 1;
      forall i: nat | i < n ensures KeptAt(ats[..n], env, i) == KeptAt(ats, env, i) {
        KeptAtPrefix(ats, env, n, i);
      }
      NoLapsesWithinTtl(ats[..n], env, key);
      EntryIsTheLastKept(ats[..n], env, key);
      if ats[n].key == key && key in After(ats[..n], env) {
        var k: nat :| ShowsLastKept(ats[..n], env, key, k);
        assert KeptAt(ats, env, k);
      }
    }
  }

  /** Within the TTL: at most one success plus one per faulty attempt; on a healthy store, at most one. */
  lemma AtMostOncePlusFaults<V(!new)>(ats: seq<Attempt<V>>, env: Setting<V>, key: string)
    requires LawfulTarget(env.target) && WithinTtl(ats, env, key)
    ensures Successes(ats, env, key) <= 1 + Faults(ats, env, key)
  {
    DuplicationIsBounded(ats, env, key);
    NoLapsesWithinTtl(ats, env, key);
  }

  /** An attempt on a healthy store whose write is, or is not, kept. */
  function Success<V>(key: string, v: V, record: RecordFault): Attempt<V> {
    Attempt(key, 1, Returned(v), Honest, 0, record, 0)
  }

  /** f successes whose writes are lost, then one whose write is kept. */
  function WorstCase<V>(f: nat, key: string, v: V): seq<Attempt<V>> {
    seq(f, _ => Success(key, v, Lost)) + [Success(key, v, Stored)]
  }

  /** The bound cannot be improved: f faulty attempts do allow f + 1 successes, on either store. */
  lemma BoundIsTight<V(!new)>(backend: Backend, f: nat, key: string, v: V)
    ensures var env, ats := Setting(backend, NoResult), WorstCase(f, key, v);
      WithinTtl(ats, env, key) && Faults(ats, env, key) == f && Successes(ats, env, key) == f + 1
  {
    var env, lost := Setting(backend, NoResult), seq(f, _ => Success(key, v, Lost));
    LostWrites(lost, env, Success(key, v, Lost));
    LastAttempt(lost, Success(key, v, Stored), env, key);
  }

  lemma LastAttempt<V(!new)>(ats: seq<Attempt<V>>, a: Attempt<V>, env: Setting<V>, key: string)
    requires a.key == key
    ensures Faults(ats + [a], env, key) == Faults(ats, env, key) + Tally(Faulty(After(ats, env), env, a))
    ensures Successes(ats + [a], env, key) ==
      Successes(ats, env, key) + Tally(StepOf(After(ats, env), env, a).Ran?)
  {
    assert (ats + [a])[..|ats|] == ats;
  }

  lemma {:induction false} LostWrites<V(!new)>(ats: seq<Attempt<V>>, env: Setting<V>, lost: Attempt<V>)
    requires env.target.NoResult? && lost.fn.Returned? && lost.check.Honest? && lost.record.Lost?
    requires forall i :: 0 <= i < |ats| ==> ats[i] == lost
    ensures After(ats, env) == map[]
    ensures Faults(ats, env, lost.key) == Successes(ats, env, lost.key) == |ats|
  {
    if ats != [] {
      LostWrites(ats[..|ats| - 1], env, lost);
    }
  }

  // ---- Healthy store: everyone gets the first success's result ----

  /** The result of the first successful execution under a key. */
  function FirstResult<V>(ats: seq<Attempt<V>>, env: Setting<V>, key: string): Option<V> {
    if ats == [] then None
    else
      var rest, a := ats[..|ats| - 1], ats[|ats| - 1];
      var first := FirstResult(rest, env, key);
      if first.None? && a.key == key && StepOf(After(rest, env), env, a).Ran? then Some(a.fn.value) else first
  }

  /** No fault and no expiry so far: the entry is exactly the first result. */
  lemma {:induction false} HealthyEntryIsTheFirstResult<V(!new)>(ats: seq<Attempt<V>>, env: Setting<V>, key: string)
    requires env.target.Into? && Lawful(env.target.codec)
    requires Faults(ats, env, key) == 0 && Lapses(ats, env, key) == 0
    ensures var first, entries := FirstResult(ats, env, key), After(ats, env);
      if first.None? then key !in entries
      else key in entries && entries[key].data.Some? && env.target.codec.decode(entries[key].data.value) == first
  {
    if ats != [] {
      HealthyEntryIsTheFirstResult(ats[..|ats| - 1], env, key);
    }
  }

  lemma {:induction false} FaultFreePrefix<V(!new)>(ats: seq<Attempt<V>>, env: Setting<V>, key: string, i: nat)
    requires i <= |ats| && Faults(ats, env, key) == 0 && Lapses(ats, env, key) == 0
    ensures Faults(ats[..i], env, key) == 0 && Lapses(ats[..i], env, key) == 0
    ensures FirstResult(ats[..i], env, key).Some? ==>
      FirstResult(ats, env, key) == FirstResult(ats[..i], env, key)
    ensures i < |ats| && ats[i].key == key ==>
      !Faulty(After(ats[..i], env), env, ats[i]) && !Lapsed(After(ats[..i], env), env, ats[i])
  {
    if i < |ats| {
      var rest := ats[..|ats| - 1];
      if i < |rest| {
        FaultFreePrefix(rest, env, key, i);
      }
      assert rest[..i] == ats[..i];
    } else {
      assert ats[..i] == ats;
    }
  }

  /** Without faults and expiries, every attempt that does not fail returns the result of the first success. */
  lemma EveryoneGetsTheFirstResult<V(!new)>(ats: seq<Attempt<V>>, env: Setting<V>, key: string, i: nat)
    requires env.target.Into? && Lawful(env.target.codec)
    requires Faults(ats, env, key) == 0 && Lapses(ats, env, key) == 0
    requires i < |ats| && ats[i].key == key && !StepAt(ats, env, i).FnFailed?
    ensures match StepAt(ats, env, i)
      case Hit(v) => v.Some? && v == FirstResult(ats, env, key)
      case Ran(v) => Some(v) == FirstResult(ats, env, key) && FirstResult(ats[..i], env, key).None?
  {
    FaultFreePrefix(ats, env, key, i);
    FaultFreePrefix(ats, env, key, i + 1);
    HealthyEntryIsTheFirstResult(ats[..i], env, key);
    assert ats[..i + 1][..i] == ats[..i];
  }

  /**
   Retries that use the per-attempt key, numbered from `first` on (Temporal starts at 1), are never
   deduplicated: an attempt is served from the store exactly when its check returned foreign bytes that happen
   to be usable, whatever was recorded before.
   */
  lemma PerAttemptKeysNeverHit<V(!new)>(ats: seq<Attempt<V>>, env: Setting<V>, info: Info, first: int, i: nat)
    requires forall j :: 0 <= j < |ats| ==> ats[j].key == IdempotencyKey(info.(attempt := first + j))
    requires i < |ats|
    ensures StepAt(ats, env, i).Hit? <==> ats[i].check.Corrupted? && Usable(env.target, ats[i].check.data)
  {
    forall j | 0 <= j < i ensures ats[..i][j].key != ats[i].key {
      RetriesShareOnlyTheStableKey(info.(attempt := first + j), first + i);
    }
    UnusedKeyIsAbsent(ats[..i], env, ats[i].key);
  }

  lemma {:induction false} UnusedKeyIsAbsent<V(!new)>(ats: seq<Attempt<V>>, env: Setting<V>, key: string)
    requires forall j :: 0 <= j < |ats| ==> ats[j].key != key
    ensures key !in After(ats, env)
  {
    if ats != [] {
      UnusedKeyIsAbsent(ats[..|ats| - 1], env, key);
    }
  }
}
