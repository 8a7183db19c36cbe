/** security/rate-limiter.ts: lazily refilled token buckets, evicted by age and by number. */
module RateLimiter {
  import opened Seqs
  import opened OrderedMaps

  datatype Config = Config(capacity: real, refillPerSecond: real, maxBuckets: int, bucketTtlMs: real) {
    /** What the constructor lets through. */
    predicate Valid() {
      capacity > 0.0 && refillPerSecond >= 0.0
    }
  }

  datatype Bucket = Bucket(tokens: real, lastRefill: real, createdAt: real)

  datatype State = State(buckets: Entries<Bucket>, lastCleanupTime: real)

  const EMPTY := State([], 0.0)
  const CLEANUP_INTERVAL_MS := 60000.0

  /** The clock readings of one call, in the order in which they may be taken. */
  datatype Reads = Reads(now: real, evicting: real, filled: real, created: real, refilled: real) {
    predicate Ordered() {
      now <= evicting <= filled <= created <= refilled
    }
  }

  datatype Request = Request(key: string, tokens: real, clock: Reads)

  /** What dt milliseconds add. */
  function Flow(cfg: Config, dt: real): real {
    dt / 1000.0 * cfg.refillPerSecond
  }

  predicate Fresh(cfg: Config, now: real, b: Bucket) {
    now - b.createdAt <= cfg.bucketTtlMs
  }

  function EvictOld(cfg: Config, buckets: Entries<Bucket>, now: real): Entries<Bucket> {
    if buckets == [] then []
    else
      var rest := EvictOld(cfg, buckets[1..], now);
      if Fresh(cfg, now, buckets[0].1) then [buckets[0]] + rest else rest
  }

  /** The position of the first bucket with the least creation time. */
  function Oldest(buckets: Entries<Bucket>): (i: nat)
    requires buckets != []
    ensures i < |buckets|
    ensures forall j :: 0 <= j < |buckets| ==> buckets[i].1.createdAt <= buckets[j].1.createdAt
    ensures forall j :: 0 <= j < i ==> buckets[i].1.createdAt < buckets[j].1.createdAt
  {
    if |buckets| == 1 then 0
    else
      var i := Oldest(buckets[..|buckets| - 1]);
      assert forall j :: 0 <= j < |buckets| - 1 ==> buckets[..|buckets| - 1][j] == buckets[j];
      if buckets[|buckets| - 1].1.createdAt < buckets[i].1.createdAt then |buckets| - 1 else i
  }

  /** The oldest bucket goes, unless its key is the empty string, which the source takes for none. */
  function EvictOldest(buckets: Entries<Bucket>): Entries<Bucket> {
    if buckets == [] || buckets[Oldest(buckets)].0 == "" then buckets else Remove(buckets, buckets[Oldest(buckets)].0)
  }

  function Cleaned(cfg: Config, st: State, clock: Reads): State {
    if clock.now - st.lastCleanupTime >= CLEANUP_INTERVAL_MS
    then State(EvictOld(cfg, st.buckets, clock.evicting), clock.now)
    else st
  }

  function MakeRoom(cfg: Config, buckets: Entries<Bucket>, key: string): Entries<Bucket> {
    if |buckets| >= cfg.maxBuckets && !Has(buckets, key) then EvictOldest(buckets) else buckets
  }

  function BucketOf(cfg: Config, buckets: Entries<Bucket>, key: string, clock: Reads): Bucket {
    Get(buckets, key).GetOr(Bucket(cfg.capacity, clock.filled, clock.created))
  }

  function Least(a: real, b: real): real {
    if a <= b then a else b
  }

  function Refill(cfg: Config, b: Bucket, now: real): Bucket {
    if now <= b.lastRefill then b
    else b.(tokens := Least(cfg.capacity, b.tokens + Flow(cfg, now - b.lastRefill)), lastRefill := now)
  }

  /** The bucket that decides on a request, refilled. */
  function Deciding(cfg: Config, st: State, q: Request): Bucket {
    Refill(cfg, BucketOf(cfg, MakeRoom(cfg, Cleaned(cfg, st, q.clock).buckets, q.key), q.key, q.clock), q.clock.refilled)
  }

  function Consume(cfg: Config, st: State, q: Request): (State, bool) {
    if q.tokens <= 0.0 then (st, true)
    else
      var cleaned := Cleaned(cfg, st, q.clock);
      var bucket := Deciding(cfg, st, q);
      var granted := bucket.tokens >= q.tokens;
      (State(Put(MakeRoom(cfg, cleaned.buckets, q.key), q.key, if granted then bucket.(tokens := bucket.tokens - q.tokens) else bucket),
             cleaned.lastCleanupTime),
       granted)
  }

  /** What a request comes to, once there is room and its bucket is refilled. */
  lemma ConsumeFrom(cfg: Config, st: State, q: Request, roomed: Entries<Bucket>, b: Bucket)
    requires q.tokens > 0.0 && roomed == MakeRoom(cfg, Cleaned(cfg, st, q.clock).buckets, q.key)
    requires b == Refill(cfg, BucketOf(cfg, roomed, q.key, q.clock), q.clock.refilled)
    ensures
      Consume(cfg, st, q) ==
      (State(Put(roomed, q.key, if b.tokens >= q.tokens then b.(tokens := b.tokens - q.tokens) else b),
             Cleaned(cfg, st, q.clock).lastCleanupTime),
       b.tokens >= q.tokens)
  {
  }

  function After(cfg: Config, qs: seq<Request>): State {
    if qs == [] then EMPTY else Consume(cfg, After(cfg, qs[..|qs| - 1]), qs[|qs| - 1]).0
  }

  // ---------------------------------------------------------------- the class

  class RateLimiter {
    const cfg: Config
    var buckets: Entries<Bucket>
    var lastCleanupTime: real

    ghost function View(): State
      reads this
    {
      State(buckets, lastCleanupTime)
    }

    ghost predicate Valid()
      reads this
    {
      cfg.Valid() && Distinct(buckets)
    }

    constructor (cfg: Config)
      requires cfg.Valid()
      ensures Valid() && this.cfg == cfg && View() == EMPTY
    {
      this.cfg := cfg;
      buckets, lastCleanupTime := [], 0.0;
    }

    method TryConsume(key: string, tokens: real, clock: Reads) returns (granted: bool)
      requires Valid()
      modifies this
      ensures Valid()
      ensures (View(), granted) == Consume(cfg, old(View()), Request(key, tokens, clock))
      ensures tokens <= 0.0 ==> granted && View() == old(View())
    {
      if tokens <= 0.0 {
        return true;
      }
      CleanAndMakeRoom(key, clock);
      ghost var roomed := buckets;
      var bucket := GetBucket(key, clock);
      PutTwice(roomed, key, bucket, Refill(cfg, bucket, clock.refilled));
      bucket := Refill(cfg, bucket, clock.refilled);
      ConsumeFrom(cfg, old(View()), Request(key, tokens, clock), roomed, bucket);
      StoreBucket(key, bucket);
      assert buckets == Put(roomed, key, bucket);
      if bucket.tokens < tokens {
        return false;
      }
      PutTwice(roomed, key, bucket, bucket.(tokens := bucket.tokens - tokens));
      StoreBucket(key, bucket.(tokens := bucket.tokens - tokens));
      assert buckets == Put(roomed, key, bucket.(tokens := bucket.tokens - tokens));
      return true;
    }

    /** The periodic clean-up, and room for a new key. */
    method CleanAndMakeRoom(key: string, clock: Reads)
      requires Valid()
      modifies this
      ensures Valid()
      ensures buckets == MakeRoom(cfg, Cleaned(cfg, old(View()), clock).buckets, key)
      ensures lastCleanupTime == Cleaned(cfg, old(View()), clock).lastCleanupTime
    {
      if clock.now - lastCleanupTime >= CLEANUP_INTERVAL_MS {
        EvictOldBuckets(clock.evicting);
        lastCleanupTime := clock.now;
      }
      if |buckets| >= cfg.maxBuckets && !Has(buckets, key) {
        EvictOldestBucket();
      }
    }

    /** Changing a bucket object in place changes it in the map that holds it. */
    method StoreBucket(key: string, bucket: Bucket)
      requires Valid() && Has(buckets, key)
      modifies this`buckets
      ensures Valid() && buckets == Put(old(buckets), key, bucket) && Has(buckets, key)
    {
      PutKeys(buckets, key, bucket);
      GetPut(buckets, key, bucket, key);
      buckets := Put(buckets, key, bucket);
    }

    method GetBucket(key: string, clock: Reads) returns (bucket: Bucket)
      requires Valid()
      modifies this`buckets
      ensures Valid() && Has(buckets, key)
      ensures bucket == BucketOf(cfg, old(buckets), key, clock)
      ensures buckets == Put(old(buckets), key, bucket)
    {
      var existing := Get(buckets, key);
      if existing.Some? {
        PutSame(buckets, key, existing.value);
        return existing.value;
      }
      bucket := Bucket(cfg.capacity, clock.filled, clock.created);
      PutKeys(buckets, key, bucket);
      GetPut(buckets, key, bucket, key);
      buckets := Put(buckets, key, bucket);
    }

    method EvictOldBuckets(now: real)
      requires Valid()
      modifies this`buckets
      ensures Valid() && buckets == EvictOld(cfg, old(buckets), now)
    {
      var keysToDelete: seq<string> := [];
      for i := 0 to |buckets|
        invariant keysToDelete == StaleKeys(cfg, buckets[..i], now)
      {
        assert buckets[..i + 1][..i] == buckets[..i];
        if now - buckets[i].1.createdAt > cfg.bucketTtlMs {
          keysToDelete := keysToDelete + [buckets[i].0];
        }
      }
      assert buckets[..|buckets|] == buckets;
      ghost var before := buckets;
      for i := 0 to |keysToDelete|
        invariant Valid() && buckets == RemoveAll(before, keysToDelete[..i])
      {
        assert keysToDelete[..i + 1][..i] == keysToDelete[..i];
        RemoveKeys(buckets, keysToDelete[i]);
        buckets := Remove(buckets, keysToDelete[i]);
      }
      assert keysToDelete[..|keysToDelete|] == keysToDelete;
      RemovingStaleKeysEvicts(cfg, before, now);
    }

    method EvictOldestBucket()
      requires Valid()
      modifies this`buckets
      ensures Valid() && buckets == EvictOldest(old(buckets))
    {
      var oldest: Option<nat> := None;
      for i := 0 to |buckets|
        invariant oldest == if i == 0 then None else Some(Oldest(buckets[..i]))
      {
        assert buckets[..i + 1][..i] == buckets[..i];
        if oldest.None? || buckets[i].1.createdAt < buckets[oldest.value].1.createdAt {
          oldest := Some(i);
        }
      }
      assert buckets[..|buckets|] == buckets;
      if oldest.Some? && buckets[oldest.value].0 != "" {
        RemoveKeys(buckets, buckets[oldest.value].0);
        buckets := Remove(buckets, buckets[oldest.value].0);
      }
    }
  }

  /** Exactly the entries older than the TTL go. */
  lemma {:induction false} EvictOldIsExact(cfg: Config, buckets: Entries<Bucket>, now: real)
    ensures forall e :: e in EvictOld(cfg, buckets, now) <==> e in buckets && now - e.1.createdAt <= cfg.bucketTtlMs
  {
    if buckets != [] {
      EvictOldIsExact(cfg, buckets[1..], now);
      var (first, rest) := (buckets[0], EvictOld(cfg, buckets[1..], now));
      forall e
        ensures e in EvictOld(cfg, buckets, now) <==> e in buckets && now - e.1.createdAt <= cfg.bucketTtlMs
      {
        assert e in buckets <==> e == first || e in buckets[1..];
        assert e in [first] + rest <==> e == first || e in rest;
      }
    }
  }

  /** A clean-up is due a minute after the last one, and only then. */
  lemma CleansOnceAMinute(cfg: Config, st: State, clock: Reads)
    ensures
      var st' := Cleaned(cfg, st, clock);
      if clock.now - st.lastCleanupTime >= 60000.0 then
        && st'.lastCleanupTime == clock.now
        && forall e :: e in st'.buckets <==> e in st.buckets && clock.evicting - e.1.createdAt <= cfg.bucketTtlMs
      else st' == st
  {
    EvictOldIsExact(cfg, st.buckets, clock.evicting);
  }

  function StaleKeys(cfg: Config, buckets: Entries<Bucket>, now: real): seq<string> {
    if buckets == [] then []
    else
      var n := |buckets| - 1;
      var rest := StaleKeys(cfg, buckets[..n], now);
      if Fresh(cfg, now, buckets[n].1) then rest else rest + [buckets[n].0]
  }

  function RemoveAll<T>(m: Entries<T>, keys: seq<string>): Entries<T> {
    if keys == [] then m else Remove(RemoveAll(m, keys[..|keys| - 1]), keys[|keys| - 1])
  }

  lemma {:induction false} RemoveAllFront<T>(m: Entries<T>, key: string, keys: seq<string>)
    ensures RemoveAll(m, [key] + keys) == RemoveAll(Remove(m, key), keys)
  {
    if keys == [] {
      assert [key] + keys == [key] && [key][..0] == [];
    } else {
      assert ([key] + keys)[..|keys|] == [key] + keys[..|keys| - 1];
      RemoveAllFront(m, key, keys[..|keys| - 1]);
    }
  }

  lemma {:induction false} RemoveAllOther<T>(e: (string, T), m: Entries<T>, keys: seq<string>)
    requires e.0 !in keys
    ensures RemoveAll([e] + m, keys) == [e] + RemoveAll(m, keys)
  {
    if keys != [] {
      RemoveAllOther(e, m, keys[..|keys| - 1]);
    }
  }

  lemma {:induction false} StaleKeysFront(cfg: Config, buckets: Entries<Bucket>, now: real)
    requires buckets != []
    ensures
      var rest := StaleKeys(cfg, buckets[1..], now);
      StaleKeys(cfg, buckets, now) == if Fresh(cfg, now, buckets[0].1) then rest else [buckets[0].0] + rest
  {
    var n := |buckets| - 1;
    if n > 0 {
      Middle(buckets);
      StaleKeysFront(cfg, buckets[..n], now);
    } else {
      assert buckets[1..] == [] && buckets[..0] == [];
    }
  }

  /** All but the first and the last. */
  lemma Middle<T>(s: seq<T>)
    requires |s| >= 2
    ensures s[1..][..|s| - 2] == s[..|s| - 1][1..]
  {
  }

  lemma {:induction false} StaleKeysAreKeys(cfg: Config, buckets: Entries<Bucket>, now: real)
    ensures forall key :: key in StaleKeys(cfg, buckets, now) ==> exists i :: 0 <= i < |buckets| && buckets[i].0 == key
  {
    if buckets != [] {
      StaleKeysAreKeys(cfg, buckets[..|buckets| - 1], now);
    }
  }

  lemma HeadStays(cfg: Config, buckets: Entries<Bucket>, keys: seq<string>, now: real)
    requires buckets != [] && Fresh(cfg, now, buckets[0].1) && buckets[0].0 !in keys
    requires RemoveAll(buckets[1..], keys) == EvictOld(cfg, buckets[1..], now)
    ensures RemoveAll(buckets, keys) == EvictOld(cfg, buckets, now)
  {
    FirstAndRest(buckets);
    RemoveAllOther(buckets[0], buckets[1..], keys);
  }

  lemma HeadGoes(cfg: Config, buckets: Entries<Bucket>, keys: seq<string>, now: real)
    requires buckets != [] && !Fresh(cfg, now, buckets[0].1)
    requires RemoveAll(buckets[1..], keys) == EvictOld(cfg, buckets[1..], now)
    ensures RemoveAll(buckets, [buckets[0].0] + keys) == EvictOld(cfg, buckets, now)
  {
    RemoveAllFront(buckets, buckets[0].0, keys);
  }

  lemma HeadIsNotListed(cfg: Config, buckets: Entries<Bucket>, now: real)
    requires buckets != [] && Distinct(buckets)
    ensures buckets[0].0 !in StaleKeys(cfg, buckets[1..], now)
  {
    StaleKeysAreKeys(cfg, buckets[1..], now);
  }

  /** Collecting the stale keys and deleting them one by one keeps exactly the fresh buckets. */
  lemma {:induction false} RemovingStaleKeysEvicts(cfg: Config, buckets: Entries<Bucket>, now: real)
    requires Distinct(buckets)
    ensures RemoveAll(buckets, StaleKeys(cfg, buckets, now)) == EvictOld(cfg, buckets, now)
  {
    if buckets != [] {
      var rest := StaleKeys(cfg, buckets[1..], now);
      StaleKeysFront(cfg, buckets, now);
      RemovingStaleKeysEvicts(cfg, buckets[1..], now);
      if Fresh(cfg, now, buckets[0].1) {
        HeadIsNotListed(cfg, buckets, now);
        HeadStays(cfg, buckets, rest, now);
      } else {
        HeadGoes(cfg, buckets, rest, now);
      }
    }
  }
}
