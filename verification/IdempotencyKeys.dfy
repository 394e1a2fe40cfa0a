/** The two key formats: one per attempt, one stable across retries. */
module IdempotencyKeys {
  import opened Decimal

  datatype Info = Info(workflowId: string, activityId: string, attempt: int)

  function IdempotencyKey(info: Info): string {
    info.workflowId + "/" + info.activityId + "/" + Itoa(info.attempt)
  }

  function IdempotencyKeyNoRetry(info: Info): string {
    info.workflowId + "/" + info.activityId
  }

  /** The formats on an example: workflow, activity, and the attempt in decimal, separated by slashes. */
  lemma KeyFormats()
    ensures IdempotencyKey(Info("order-7", "charge", 12)) == "order-7/charge/12"
    ensures IdempotencyKeyNoRetry(Info("order-7", "charge", 12)) == "order-7/charge"
  {
    assert Itoa(12) == Digits(1) + "2" == "12";
  }

  /** The last slash splits a string in one way only. */
  lemma SplitAtLastSlash(w: string, a: string, v: string, b: string)
    requires w + "/" + a == v + "/" + b
    requires '/' !in a && '/' !in b
    ensures w == v && a == b
  {
    LastSlash(w, a);
    LastSlash(v, b);
    var s := w + "/" + a;
    assert |w| == |v|;
    assert s[..|w|] == w && s[..|v|] == v;
    assert s[|w| + 1..] == a && s[|v| + 1..] == b;
  }

  lemma LastSlash(w: string, a: string)
    requires '/' !in a
    ensures (w + "/" + a)[|w|] == '/'
    ensures forall i :: |w| < i < |w + "/" + a| ==> (w + "/" + a)[i] != '/'
  {
    assert forall i :: |w| < i < |w + "/" + a| ==> (w + "/" + a)[i] == a[i - |w| - 1];
  }

  /** The stable key identifies workflow and activity, even if workflow ids contain slashes. */
  lemma NoRetryKeyInjective(x: Info, y: Info)
    requires '/' !in x.activityId && '/' !in y.activityId
    requires IdempotencyKeyNoRetry(x) == IdempotencyKeyNoRetry(y)
    ensures x.workflowId == y.workflowId && x.activityId == y.activityId
  {
    SplitAtLastSlash(x.workflowId, x.activityId, y.workflowId, y.activityId);
  }

  /**
   Whatever the ids contain, two per-attempt keys coincide exactly when the attempts do and the stable keys do:
   the attempt number adds no ambiguity of its own.
   */
  lemma KeysEqualIff(x: Info, y: Info)
    ensures IdempotencyKey(x) == IdempotencyKey(y) <==>
      x.attempt == y.attempt && IdempotencyKeyNoRetry(x) == IdempotencyKeyNoRetry(y)
  {
    if IdempotencyKey(x) == IdempotencyKey(y) {
      SplitAtLastSlash(IdempotencyKeyNoRetry(x), Itoa(x.attempt), IdempotencyKeyNoRetry(y), Itoa(y.attempt));
      ItoaInjective(x.attempt, y.attempt);
    }
  }

  /** The per-attempt key identifies workflow, activity and attempt. */
  lemma KeyInjective(x: Info, y: Info)
    requires '/' !in x.activityId && '/' !in y.activityId
    requires IdempotencyKey(x) == IdempotencyKey(y)
    ensures x == y
  {
    KeysEqualIff(x, y);
    NoRetryKeyInjective(x, y);
  }

  /** Retries of one activity never share a per-attempt key, and always share the stable one. */
  lemma RetriesShareOnlyTheStableKey(x: Info, attempt: int)
    requires attempt != x.attempt
    ensures IdempotencyKey(x) != IdempotencyKey(x.(attempt := attempt))
    ensures IdempotencyKeyNoRetry(x) == IdempotencyKeyNoRetry(x.(attempt := attempt))
  {
    KeysEqualIff(x, x.(attempt := attempt));
  }

  /** Exactly when a stable key and a per-attempt key coincide, for slash-free activity ids. */
  lemma FamiliesCollideIff(x: Info, y: Info)
    requires '/' !in x.activityId
    ensures IdempotencyKeyNoRetry(x) == IdempotencyKey(y) <==>
      x.workflowId == IdempotencyKeyNoRetry(y) && x.activityId == Itoa(y.attempt)
  {
    if IdempotencyKeyNoRetry(x) == IdempotencyKey(y) {
      SplitAtLastSlash(x.workflowId, x.activityId, IdempotencyKeyNoRetry(y), Itoa(y.attempt));
    }
  }

  /** Hence the two families are disjoint as soon as workflow ids contain no slash either. */
  lemma FamiliesNeverCollide(x: Info, y: Info)
    requires '/' !in x.activityId && '/' !in x.workflowId
    ensures IdempotencyKeyNoRetry(x) != IdempotencyKey(y)
  {
    FamiliesCollideIff(x, y);
    assert IdempotencyKeyNoRetry(y)[|y.workflowId|] == '/';
  }

  predicate EndsWith(s: string, t: string) {
    |t| <= |s| && s[|s| - |t|..] == t
  }

  ghost predicate CanCollide(a: string, b: string) {
    exists w, v :: w + "/" + a == v + "/" + b
  }

  /**
   What slashes in activity ids cost: two different activity ids can yield the same stable key, for some
   pair of workflows, exactly when one of them ends in a slash followed by the other.
   */
  lemma StableKeysCollideIff(a: string, b: string)
    requires a != b
    ensures CanCollide(a, b) <==> EndsWith(a, "/" + b) || EndsWith(b, "/" + a)
  {
    if CanCollide(a, b) {
      var w, v :| w + "/" + a == v + "/" + b;
      if |a| < |b| {
        CollisionIsASuffix(w, a, v, b);
      } else if |b| < |a| {
        CollisionIsASuffix(v, b, w, a);
      } else {
        SameLengthSuffix(w, a, v, b);
      }
    }
    if EndsWith(a, "/" + b) {
      SuffixCollides(a, b);
      assert "" + "/" + a == ("/" + a[..|a| - |b| - 1]) + "/" + b;
    }
    if EndsWith(b, "/" + a) {
      SuffixCollides(b, a);
      assert ("/" + b[..|b| - |a| - 1]) + "/" + a == "" + "/" + b;
    }
  }

  lemma SameLengthSuffix(w: string, a: string, v: string, b: string)
    requires w + "/" + a == v + "/" + b && |a| == |b|
    ensures a == b
  {
    var s := w + "/" + a;
    assert s[|s| - |a|..] == a && s[|s| - |b|..] == b;
  }

  lemma CollisionIsASuffix(w: string, a: string, v: string, b: string)
    requires w + "/" + a == v + "/" + b && |a| < |b|
    ensures EndsWith(b, "/" + a)
  {
    var s := w + "/" + a;
    var k := |b| - |a| - 1;
    assert s[|w|..] == "/" + a;
    assert s[|v| + 1..] == b;
    assert b[k..] == s[|v| + 1..][k..] == s[|w|..];
  }

  lemma SuffixCollides(a: string, b: string)
    requires EndsWith(a, "/" + b)
    ensures "" + "/" + a == ("/" + a[..|a| - |b| - 1]) + "/" + b
  {
    assert a == a[..|a| - |b| - 1] + ("/" + b);
  }
}
