/**
 The in-memory and the Redis-backed result stores. Byte slices and strings hold the same bytes, so data is a
 string; `None` is Go's nil slice. Clock readings are parameters.
 */
module IdempotencyStores {
  import opened Temporal

  /** What Check returns: result, found, and whether an error came with them. */
  datatype Answer = Answer(data: Option<string>, found: bool, failed: bool)

  const MISS := Answer(None, false, false)
  const BROKEN := Answer(None, false, true)

  datatype MemEntry = MemEntry(data: Option<string>, expiresAt: Time)

  function MemLookup(entries: map<string, MemEntry>, key: string, now: Time): Answer {
    if key !in entries then MISS
    else if now > entries[key].expiresAt then MISS
    else Answer(entries[key].data, true, false)
  }

  class InMemoryStore {
    var entries: map<string, MemEntry>

    constructor ()
      ensures entries == map[]
    {
      entries := map[];
    }

    method Check(key: string, now: Time) returns (a: Answer)
      ensures a == MemLookup(entries, key, now)
      ensures !a.failed && (a.found <==> key in entries && now <= entries[key].expiresAt)
      ensures a.data == if a.found then entries[key].data else None
    {
      if key !in entries {
        return MISS;
      }
      var entry := entries[key];
      if now > entry.expiresAt {
        return MISS;
      }
      return Answer(entry.data, true, false);
    }

    method Record(key: string, data: Option<string>, ttl: Time, now: Time)
      modifies this
      ensures entries == MemWrite(old(entries), Write(key, data, ttl, now))
      ensures entries == old(entries)[key := MemEntry(data, now + ttl)]
    {
      entries := entries[key := MemEntry(data, now + ttl)];
    }

    method Flush()
      modifies this
      ensures forall key, now :: MemLookup(entries, key, now) == MISS
    {
      entries := map[];
    }

    /** Counts expired entries too. */
    method Len() returns (n: nat)
      ensures n == |entries.Keys|
    {
      n := |entries|;
    }
  }

  /** Redis keeps a string per key; a positive expiration removes it at that instant, any other keeps it. */
  datatype RedisEntry = RedisEntry(value: string, expiresAt: Option<Time>)

  function RedisGet(db: map<string, RedisEntry>, key: string, now: Time): Option<string> {
    if key !in db then None
    else if db[key].expiresAt.Some? && now >= db[key].expiresAt.value then None
    else Some(db[key].value)
  }

  function RedisSet(
    db: map<string, RedisEntry>, key: string, value: string, expiration: Time, now: Time): map<string, RedisEntry>
  {
    db[key := RedisEntry(value, if expiration > 0 then Some(now + expiration) else None)]
  }

  class RedisServer {
    var db: map<string, RedisEntry>

    constructor ()
      ensures db == map[]
    {
      db := map[];
    }
  }

  const SEPARATOR := ":idem:"

  function RedisKey(prefix: string, key: string): string {
    prefix + SEPARATOR + key
  }

  /** The format on an example. */
  lemma RedisKeyFormat()
    ensures RedisKey("loan-service", "order-7/charge") == "loan-service:idem:order-7/charge"
  {
  }

  function BytesOf(data: Option<string>): string {
    if data.Some? then data.value else ""
  }

  function RedisLookup(db: map<string, RedisEntry>, prefix: string, key: string, now: Time): Answer {
    var value := RedisGet(db, RedisKey(prefix, key), now);
    if value.None? then MISS else Answer(value, true, false)
  }

  class RedisStore {
    const client: RedisServer
    const keyPrefix: string

    constructor (client: RedisServer, keyPrefix: string)
      ensures this.client == client && this.keyPrefix == keyPrefix
    {
      this.client, this.keyPrefix := client, keyPrefix;
    }

    /** `broken` is a transport error, which is reported as such and never as a hit. */
    method Check(key: string, now: Time, broken: bool) returns (a: Answer)
      ensures a == if broken then BROKEN else RedisLookup(client.db, keyPrefix, key, now)
      ensures a.failed == broken && (broken ==> !a.found)
    {
      if broken {
        return Answer(None, false, true);
      }
      var value := RedisGet(client.db, RedisKey(keyPrefix, key), now);
      if value.None? {
        return Answer(None, false, false);
      }
      return Answer(Some(value.value), true, false);
    }

    method Record(key: string, data: Option<string>, ttl: Time, now: Time, broken: bool) returns (failed: bool)
      modifies client
      ensures failed == broken
      ensures client.db ==
        if broken then old(client.db) else RedisWrite(old(client.db), keyPrefix, Write(key, data, ttl, now))
    {
      if broken {
        return true;
      }
      client.db := RedisSet(client.db, RedisKey(keyPrefix, key), BytesOf(data), ttl, now);
      return false;
    }
  }

  // ---- Both stores are the same last-write map ----

  /** A Record call. Check changes nothing, so a sequence of writes is all a later Check can depend on. */
  datatype Write = Write(key: string, data: Option<string>, ttl: Time, at: Time)

  function MemWrite(entries: map<string, MemEntry>, w: Write): map<string, MemEntry> {
    entries[w.key := MemEntry(w.data, w.at + w.ttl)]
  }

  function RedisWrite(db: map<string, RedisEntry>, prefix: string, w: Write): map<string, RedisEntry> {
    RedisSet(db, RedisKey(prefix, w.key), BytesOf(w.data), w.ttl, w.at)
  }

  function MemAfter(ws: seq<Write>): map<string, MemEntry> {
    if ws == [] then map[] else MemWrite(MemAfter(ws[..|ws| - 1]), ws[|ws| - 1])
  }

  function RedisAfter(prefix: string, ws: seq<Write>): map<string, RedisEntry> {
    if ws == [] then map[] else RedisWrite(RedisAfter(prefix, ws[..|ws| - 1]), prefix, ws[|ws| - 1])
  }

  function LastWrite(ws: seq<Write>, key: string): (w: Option<Write>)
    ensures w.Some? ==> w.value in ws && w.value.key == key
    ensures w.None? ==> forall x :: x in ws ==> x.key != key
  {
    if ws == [] then None
    else if ws[|ws| - 1].key == key then Some(ws[|ws| - 1])
    else LastWrite(ws[..|ws| - 1], key)
  }

  lemma KeysWithinOneStore(prefix: string, k: string, l: string)
    requires RedisKey(prefix, k) == RedisKey(prefix, l)
    ensures k == l
  {
    assert RedisKey(prefix, k)[|prefix + SEPARATOR|..] == k;
    assert RedisKey(prefix, l)[|prefix + SEPARATOR|..] == l;
  }

  lemma {:induction false} MemFollowsLastWrite(ws: seq<Write>, key: string, now: Time)
    ensures var w := LastWrite(ws, key);
      MemLookup(MemAfter(ws), key, now) ==
        if w.None? || now > w.value.at + w.value.ttl then Answer(None, false, false)
        else Answer(w.value.data, true, false)
  {
    if ws != [] {
      MemFollowsLastWrite(ws[..|ws| - 1], key, now);
    }
  }

  lemma {:induction false} RedisFollowsLastWrite(prefix: string, ws: seq<Write>, key: string, now: Time)
    ensures var w := LastWrite(ws, key);
      RedisLookup(RedisAfter(prefix, ws), prefix, key, now) ==
        if w.None? || (w.value.ttl > 0 && now >= w.value.at + w.value.ttl) then Answer(None, false, false)
        else Answer(Some(if w.value.data.Some? then w.value.data.value else ""), true, false)
  {
    if ws != [] {
      RedisFollowsLastWrite(prefix, ws[..|ws| - 1], key, now);
      if RedisKey(prefix, ws[|ws| - 1].key) == RedisKey(prefix, key) {
        KeysWithinOneStore(prefix, ws[|ws| - 1].key, key);
      }
    }
  }

  /** For positive TTLs and data that is not nil, both stores give the last write until it expires. */
  lemma StoresAreLastWriteMaps(prefix: string, ws: seq<Write>, key: string, now: Time)
    requires LastWrite(ws, key).Some? ==>
      var w := LastWrite(ws, key).value; w.ttl > 0 && w.data.Some? && now < w.at + w.ttl
    ensures MemLookup(MemAfter(ws), key, now) == RedisLookup(RedisAfter(prefix, ws), prefix, key, now) ==
      if LastWrite(ws, key).None? then MISS else Answer(LastWrite(ws, key).value.data, true, false)
  {
    MemFollowsLastWrite(ws, key, now);
    RedisFollowsLastWrite(prefix, ws, key, now);
  }

  /**
   Exactly when the two stores can be told apart: with a positive TTL only at the very instant of expiry or,
   before it, by a nil result; with any other TTL by a nil result or once the in-memory entry has expired.
   */
  lemma StoresAgreeIff(prefix: string, ws: seq<Write>, key: string, now: Time)
    ensures MemLookup(MemAfter(ws), key, now) == RedisLookup(RedisAfter(prefix, ws), prefix, key, now) <==>
      LastWrite(ws, key).None? ||
      var w := LastWrite(ws, key).value;
      if w.ttl > 0 then now > w.at + w.ttl || (now < w.at + w.ttl && w.data.Some?)
      else now <= w.at + w.ttl && w.data.Some?
  {
    MemFollowsLastWrite(ws, key, now);
    RedisFollowsLastWrite(prefix, ws, key, now);
  }

  // ---- The store interface ----

  datatype Backend = InMemory | Redis

  /** When a check no longer finds a write: after the last instant, or from it on if there is one at all. */
  predicate Expired(b: Backend, ttl: Time, at: Time, now: Time) {
    match b
    case InMemory => now > at + ttl
    case Redis => ttl > 0 && now >= at + ttl
  }

  /** A store as its interface shows it: the last write of each key. */
  type Entries = map<string, Write>

  function Lookup(b: Backend, entries: Entries, key: string, now: Time): Answer {
    if key !in entries || Expired(b, entries[key].ttl, entries[key].at, now) then MISS
    else Answer(if b.Redis? then Some(BytesOf(entries[key].data)) else entries[key].data, true, false)
  }

  ghost predicate MemHolds(mem: map<string, MemEntry>, entries: Entries) {
    && mem.Keys == entries.Keys
    && forall key :: key in entries ==> mem[key] == MemEntry(entries[key].data, entries[key].at + entries[key].ttl)
  }

  /** The key is in the database, with the same data and expiry, exactly if it is among the entries. */
  predicate RedisShows(db: map<string, RedisEntry>, prefix: string, entries: Entries, key: string) {
    if key !in entries then RedisKey(prefix, key) !in db
    else
      var w := entries[key];
      && RedisKey(prefix, key) in db
      && db[RedisKey(prefix, key)] == RedisEntry(BytesOf(w.data), if w.ttl > 0 then Some(w.at + w.ttl) else None)
  }

  ghost predicate RedisHolds(db: map<string, RedisEntry>, prefix: string, entries: Entries) {
    forall key :: RedisShows(db, prefix, entries, key)
  }

  lemma RedisShowsAfter(db: map<string, RedisEntry>, prefix: string, entries: Entries, w: Write, key: string)
    requires RedisShows(db, prefix, entries, key)
    ensures RedisShows(RedisWrite(db, prefix, w), prefix, entries[w.key := w], key)
  {
    if RedisKey(prefix, key) == RedisKey(prefix, w.key) {
      KeysWithinOneStore(prefix, key, w.key);
    }
  }

  lemma RedisHoldsAfter(db: map<string, RedisEntry>, prefix: string, entries: Entries, w: Write)
    requires RedisHolds(db, prefix, entries)
    ensures RedisHolds(RedisWrite(db, prefix, w), prefix, entries[w.key := w])
  {
    var after, shown := RedisWrite(db, prefix, w), entries[w.key := w];
    forall key ensures RedisShows(after, prefix, shown, key) {
      RedisShowsAfter(db, prefix, entries, w, key);
    }
  }

  /** An interface value: either of the two stores. A check or a record may err. */
  datatype Store = Memory(mem: InMemoryStore) | Remote(redis: RedisStore) {
    ghost function Footprint(): set<object> {
      match this
      case Memory(mem) => {mem}
      case Remote(redis) => {redis.client}
    }

    function Kind(): Backend {
      if Memory? then InMemory else Redis
    }

    ghost predicate Holds(entries: Entries)
      reads Footprint()
    {
      match this
      case Memory(mem) => MemHolds(mem.entries, entries)
      case Remote(redis) => RedisHolds(redis.client.db, redis.keyPrefix, entries)
    }

    method Check(key: string, now: Time, broken: bool, ghost entries: Entries) returns (a: Answer)
      requires Holds(entries)
      ensures a == if broken then BROKEN else Lookup(Kind(), entries, key, now)
    {
      match this
      case Memory(mem) =>
        a := mem.Check(key, now);
        if broken {
          a := BROKEN;
        }
      case Remote(redis) =>
        assert RedisShows(redis.client.db, redis.keyPrefix, entries, key);
        a := redis.Check(key, now, broken);
    }

    method Record(key: string, data: Option<string>, ttl: Time, now: Time, broken: bool, ghost entries: Entries)
      requires Holds(entries)
      modifies Footprint()
      ensures Holds(if broken then entries else entries[key := Write(key, data, ttl, now)])
    {
      match this
      case Memory(mem) =>
        if !broken {
          mem.Record(key, data, ttl, now);
        }
      case Remote(redis) =>
        RedisHoldsAfter(redis.client.db, redis.keyPrefix, entries, Write(key, data, ttl, now));
        var _ := redis.Record(key, data, ttl, now, broken);
    }
  }

  // ---- Two stores on one Redis server ----

  ghost predicate KeysMeet(p: string, q: string) {
    exists k, l :: RedisKey(p, k) == RedisKey(q, l)
  }

  /** Keys of two prefixes can meet exactly when one prefix, with its separator, starts the other. */
  lemma KeysMeetIff(p: string, q: string)
    ensures KeysMeet(p, q) <==> p + SEPARATOR <= q + SEPARATOR || q + SEPARATOR <= p + SEPARATOR
  {
    var a, b := p + SEPARATOR, q + SEPARATOR;
    if KeysMeet(p, q) {
      var k, l :| RedisKey(p, k) == RedisKey(q, l);
      assert RedisKey(p, k)[..|a|] == a && RedisKey(q, l)[..|b|] == b;
      if |a| <= |b| {
        assert a == RedisKey(q, l)[..|b|][..|a|];
      } else {
        assert b == RedisKey(p, k)[..|a|][..|b|];
      }
    }
    if a <= b {
      assert RedisKey(p, b[|a|..]) == RedisKey(q, "");
    }
    if b <= a {
      assert RedisKey(p, "") == RedisKey(q, a[|b|..]);
    }
  }

  /** Distinct prefixes without a colon never share a key. */
  lemma ColonFreePrefixesAreSeparate(p: string, q: string)
    requires p != q && ':' !in p && ':' !in q
    ensures !KeysMeet(p, q)
  {
    KeysMeetIff(p, q);
    if p + SEPARATOR <= q + SEPARATOR {
      ColonFreePrefix(p, q);
    }
    if q + SEPARATOR <= p + SEPARATOR {
      ColonFreePrefix(q, p);
    }
  }

  lemma ColonFreePrefix(p: string, q: string)
    requires ':' !in q && p + SEPARATOR <= q + SEPARATOR
    ensures p == q
  {
    var a, b := p + SEPARATOR, q + SEPARATOR;
    assert b[|p|] == a[|p|] == ':';
    assert forall i :: 0 <= i < |q| ==> b[i] == q[i];
    assert b[..|p|] == a[..|p|] == p && b[..|q|] == q;
  }

  /** A write by the first (true) or the second store. */
  datatype Shared = Shared(first: bool, write: Write)

  function SharedAfter(p: string, q: string, ws: seq<Shared>): map<string, RedisEntry> {
    if ws == [] then map[]
    else RedisWrite(SharedAfter(p, q, ws[..|ws| - 1]), if ws[|ws| - 1].first then p else q, ws[|ws| - 1].write)
  }

  function Own(ws: seq<Shared>): seq<Write> {
    if ws == [] then []
    else Own(ws[..|ws| - 1]) + if ws[|ws| - 1].first then [ws[|ws| - 1].write] else []
  }

  lemma OwnWrite(
    db: map<string, RedisEntry>, other: map<string, RedisEntry>, p: string, w: Write, key: string, now: Time)
    requires RedisLookup(db, p, key, now) == RedisLookup(other, p, key, now)
    ensures RedisLookup(RedisWrite(db, p, w), p, key, now) == RedisLookup(RedisWrite(other, p, w), p, key, now)
  {
  }

  lemma ForeignWrite(db: map<string, RedisEntry>, p: string, q: string, w: Write, key: string, now: Time)
    requires !KeysMeet(p, q)
    ensures RedisLookup(RedisWrite(db, q, w), p, key, now) == RedisLookup(db, p, key, now)
  {
    assert RedisKey(q, w.key) != RedisKey(p, key);
  }

  /** A store on a shared server answers as it would on a server of its own. */
  lemma {:induction false} SharedStoresAreIsolated(p: string, q: string, ws: seq<Shared>, key: string, now: Time)
    requires !KeysMeet(p, q)
    ensures RedisLookup(SharedAfter(p, q, ws), p, key, now) == RedisLookup(RedisAfter(p, Own(ws)), p, key, now)
  {
    if ws != [] {
      var rest, last := ws[..|ws| - 1], ws[|ws| - 1];
      SharedStoresAreIsolated(p, q, rest, key, now);
      if last.first {
        assert Own(ws)[..|Own(ws)| - 1] == Own(rest);
        OwnWrite(SharedAfter(p, q, rest), RedisAfter(p, Own(rest)), p, last.write, key, now);
      } else {
        assert Own(ws) == Own(rest);
        ForeignWrite(SharedAfter(p, q, rest), p, q, last.write, key, now);
      }
    }
  }

  /** And the condition is necessary: keys that meet let one store see a write of the other. */
  lemma MeetingKeysInterfere(p: string, q: string)
    requires KeysMeet(p, q)
    ensures exists ws, key, now ::
      RedisLookup(SharedAfter(p, q, ws), p, key, now) != RedisLookup(RedisAfter(p, Own(ws)), p, key, now)
  {
    var k, l :| RedisKey(p, k) == RedisKey(q, l);
    var ws := [Shared(false, Write(l, Some(""), 1, 0))];
    assert ws[..0] == [] && Own(ws[..0]) == [] && Own(ws) == [];
    assert SharedAfter(p, q, ws[..0]) == map[];
    assert RedisLookup(SharedAfter(p, q, ws), p, k, 0) != RedisLookup(RedisAfter(p, Own(ws)), p, k, 0);
  }
}
