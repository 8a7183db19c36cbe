/** How many buckets there can be, and what displacing them does to the limit. */
module RateLimiterSize {
  import opened Seqs
  import opened OrderedMaps
  import opened RateLimiter
  import opened RateLimiterLaws
  import opened RateLimiterEvictions

  function Bound(cfg: Config): int {
    if cfg.maxBuckets >= 1 then cfg.maxBuckets else 1
  }

  predicate KeysIn(qs: seq<Request>, keys: set<string>) {
    forall q | q in qs :: q.key in keys
  }

  ghost predicate Filed(m: Entries<Bucket>, keys: set<string>) {
    Distinct(m) && forall e :: e in m ==> e.0 in keys
  }

  lemma {:induction false} DistinctKeysFit(m: Entries<Bucket>, keys: set<string>)
    requires Filed(m, keys)
    ensures |m| <= |keys|
  {
    if m != [] {
      var n := |m| - 1;
      assert m[n] in m;
      forall e | e in m[..n]
        ensures e.0 in keys - {m[n].0}
      {
        var i :| 0 <= i < n && m[i] == e;
      }
      DistinctKeysFit(m[..n], keys - {m[n].0});
    }
  }

  lemma PreparedStaysFiled(cfg: Config, st: State, q: Request, keys: set<string>)
    requires Filed(st.buckets, keys)
    ensures Filed(Cleaned(cfg, st, q.clock).buckets, keys) && Filed(Prepared(cfg, st, q), keys)
    ensures |Cleaned(cfg, st, q.clock).buckets| <= |st.buckets|
  {
    EvictOldKeeps(cfg, st.buckets, q.clock.evicting, q.key);
    if Displaced(cfg, st, q).Some? {
      RemoveKeys(Cleaned(cfg, st, q.clock).buckets, Displaced(cfg, st, q).value);
    }
  }

  lemma {:induction false} BucketsStayFiled(cfg: Config, qs: seq<Request>, keys: set<string>)
    requires KeysIn(qs, keys)
    ensures Filed(After(cfg, qs).buckets, keys)
  {
    if qs != [] {
      var n := |qs| - 1;
      var st, q := After(cfg, qs[..n]), qs[n];
      BucketsStayFiled(cfg, qs[..n], keys);
      if q.tokens > 0.0 {
        PreparedStaysFiled(cfg, st, q, keys);
        var b := Deciding(cfg, st, q);
        PutKeys(Prepared(cfg, st, q), q.key, if b.tokens >= q.tokens then b.(tokens := b.tokens - q.tokens) else b);
      }
    }
  }

  /** With no more keys than the bound nothing is ever displaced, and the window bound applies to all keys. */
  lemma FewKeysAreNeverDisplaced(cfg: Config, key: string, qs: seq<Request>, keys: set<string>)
    requires KeysIn(qs, keys) && |keys| <= Bound(cfg)
    ensures NeverDisplaced(cfg, key, qs)
  {
    forall i | 0 <= i < |qs|
      ensures Displaced(cfg, After(cfg, qs[..i]), qs[i]) == None
    {
      var st, q := After(cfg, qs[..i]), qs[i];
      BucketsStayFiled(cfg, qs[..i], keys);
      PreparedStaysFiled(cfg, st, q, keys);
      var m := Cleaned(cfg, st, q.clock).buckets;
      if !Has(m, q.key) {
        HasIsAt(m, q.key);
        assert Filed(m, keys - {q.key}) by {
          forall e | e in m
            ensures e.0 in keys - {q.key}
          {
            var j :| 0 <= j < |m| && m[j] == e;
          }
        }
        DistinctKeysFit(m, keys - {q.key});
        assert q in qs;
      }
    }
  }

  // ---------------------------------------------------------------- the number of buckets

  lemma ConsumeKeepsBound(cfg: Config, st: State, q: Request, keys: set<string>)
    requires "" !in keys && q.key in keys && Filed(st.buckets, keys) && |st.buckets| <= Bound(cfg)
    ensures |Consume(cfg, st, q).0.buckets| <= Bound(cfg)
  {
    if q.tokens > 0.0 {
      PreparedStaysFiled(cfg, st, q, keys);
      var m, b := Cleaned(cfg, st, q.clock).buckets, Deciding(cfg, st, q);
      if |m| >= cfg.maxBuckets && !Has(m, q.key) && m != [] {
        assert m[Oldest(m)] in m;
        RemoveKeys(m, m[Oldest(m)].0);
        HasIsAt(m, m[Oldest(m)].0);
      }
      PutKeys(Prepared(cfg, st, q), q.key, if b.tokens >= q.tokens then b.(tokens := b.tokens - q.tokens) else b);
    }
  }

  lemma {:induction false} BucketsStayBounded(cfg: Config, qs: seq<Request>, keys: set<string>)
    requires "" !in keys && KeysIn(qs, keys)
    ensures |After(cfg, qs).buckets| <= Bound(cfg)
  {
    if qs != [] {
      var n := |qs| - 1;
      BucketsStayBounded(cfg, qs[..n], keys);
      BucketsStayFiled(cfg, qs[..n], keys);
      ConsumeKeepsBound(cfg, After(cfg, qs[..n]), qs[n], keys);
    }
  }

  ghost predicate SizeBounded(cfg: Config, keys: set<string>) {
    forall qs :: KeysIn(qs, keys) && Timely(qs) ==> |After(cfg, qs).buckets| <= Bound(cfg)
  }

  const START := Reads(0.0, 0.0, 0.0, 0.0, 0.0)

  predicate AllDifferent(keys: seq<string>) {
    forall i, j :: 0 <= i < j < |keys| ==> keys[i] != keys[j]
  }

  /** One request for each key, all at once. */
  function Burst(keys: seq<string>): seq<Request> {
    seq(|keys|, i requires 0 <= i < |keys| => Request(keys[i], 1.0, START))
  }

  /** The oldest bucket has the empty key: nothing makes room. */
  lemma NothingMakesRoom(cfg: Config, st: State, q: Request)
    requires q.clock == START && st.lastCleanupTime == 0.0
    requires st.buckets != [] && st.buckets[0].0 == "" && forall i :: 0 <= i < |st.buckets| ==> st.buckets[i].1.createdAt == 0.0
    ensures Prepared(cfg, st, q) == st.buckets
  {
    assert Oldest(st.buckets) == 0;
  }

  /** A request for a new key that finds no room made adds a bucket. */
  lemma NewKeyAddsBucket(cfg: Config, st: State, q: Request)
    requires q.clock == START && q.tokens > 0.0 && st.lastCleanupTime == 0.0 && Prepared(cfg, st, q) == st.buckets
    requires forall i :: 0 <= i < |st.buckets| ==> st.buckets[i].0 != q.key
    ensures
      var st' := Consume(cfg, st, q).0;
      && |st'.buckets| == |st.buckets| + 1 && st'.lastCleanupTime == 0.0
      && st'.buckets[..|st.buckets|] == st.buckets
      && st'.buckets[|st.buckets|].0 == q.key && st'.buckets[|st.buckets|].1.createdAt == 0.0
  {
    var b := Deciding(cfg, st, q);
    HasIsAt(st.buckets, q.key);
    PutNew(st.buckets, q.key, if b.tokens >= q.tokens then b.(tokens := b.tokens - q.tokens) else b);
  }

  /** The buckets are those of the keys, all made at the start and never cleaned up. */
  ghost predicate HeldSinceStart(st: State, keys: seq<string>) {
    && |st.buckets| == |keys| && st.lastCleanupTime == 0.0
    && forall i :: 0 <= i < |keys| ==> st.buckets[i].0 == keys[i] && st.buckets[i].1.createdAt == 0.0
  }

  lemma BurstAddsBucket(cfg: Config, st: State, keys: seq<string>, key: string)
    requires HeldSinceStart(st, keys) && (keys != [] ==> keys[0] == "") && key !in keys
    ensures HeldSinceStart(Consume(cfg, st, Request(key, 1.0, START)).0, keys + [key])
  {
    var q := Request(key, 1.0, START);
    if keys != [] {
      NothingMakesRoom(cfg, st, q);
    }
    NewKeyAddsBucket(cfg, st, q);
    var st' := Consume(cfg, st, q).0;
    forall i | 0 <= i < |keys|
      ensures st'.buckets[i].0 == keys[i] && st'.buckets[i].1.createdAt == 0.0
    {
      assert st'.buckets[i] == st'.buckets[..|keys|][i] == st.buckets[i];
    }
  }

  /** A burst that starts with the empty key fills the map beyond any bound. */
  lemma {:induction false} EmptyKeyBlocksEviction(cfg: Config, keys: seq<string>)
    requires (keys != [] ==> keys[0] == "") && AllDifferent(keys)
    ensures HeldSinceStart(After(cfg, Burst(keys)), keys)
  {
    if keys != [] {
      var n := |keys| - 1;
      assert Burst(keys)[..n] == Burst(keys[..n]);
      EmptyKeyBlocksEviction(cfg, keys[..n]);
      BurstAddsBucket(cfg, After(cfg, Burst(keys[..n])), keys[..n], keys[n]);
      FrontAndLast(keys);
    }
  }

  lemma {:induction false} ListOf(keys: set<string>, n: nat) returns (s: seq<string>)
    requires n <= |keys|
    ensures |s| == n && (forall i, j :: 0 <= i < j < |s| ==> s[i] != s[j]) && forall k | k in s :: k in keys
    decreases n
  {
    s := [];
    if n > 0 {
      var k :| k in keys;
      s := ListOf(keys - {k}, n - 1);
      assert k !in s;
      s := s + [k];
    }
  }

  /** The map stays within max(1, maxBuckets) exactly if the empty string is not among the keys, or
      there are too few keys to exceed it. */
  lemma SizeBoundedIff(cfg: Config, keys: set<string>)
    ensures SizeBounded(cfg, keys) <==> "" !in keys || |keys| <= Bound(cfg)
  {
    if "" !in keys || |keys| <= Bound(cfg) {
      forall qs | KeysIn(qs, keys) && Timely(qs)
        ensures |After(cfg, qs).buckets| <= Bound(cfg)
      {
        if "" !in keys {
          BucketsStayBounded(cfg, qs, keys);
        } else {
          BucketsStayFiled(cfg, qs, keys);
          DistinctKeysFit(After(cfg, qs).buckets, keys);
        }
      }
    } else {
      var others := ListOf(keys - {""}, Bound(cfg));
      var list := [""] + others;
      forall i, j | 0 <= i < j < |list|
        ensures list[i] != list[j]
      {
        if i == 0 {
          assert others[j - 1] in others;
        }
      }
      EmptyKeyBlocksEviction(cfg, list);
      forall i | 0 <= i < |list|
        ensures Burst(list)[i].key in keys
      {
        assert i > 0 ==> others[i - 1] in others;
      }
      assert KeysIn(Burst(list), keys) && Timely(Burst(list));
    }
  }

  // ---------------------------------------------------------------- displacement defeats the limit

  /** Requests for the full capacity, all at one instant. */
  function AskAll(cfg: Config, order: seq<string>): seq<Request> {
    seq(|order|, i requires 0 <= i < |order| => Request(order[i], cfg.capacity, START))
  }

  /** Empty buckets for these keys. */
  function Drained(order: seq<string>): Entries<Bucket> {
    seq(|order|, i requires 0 <= i < |order| => (order[i], Bucket(0.0, 0.0, 0.0)))
  }

  function Last(order: seq<string>, b: int): seq<string> {
    if |order| <= b || b < 0 then order else order[|order| - b..]
  }

  /** Equal creation times make displacement first in, first out. */
  lemma FirstMakesRoom(cfg: Config, held: seq<string>, q: Request)
    requires q.clock == START && |held| <= Bound(cfg) && q.key !in held && "" !in held
    ensures Prepared(cfg, State(Drained(held), 0.0), q) == Drained(if |held| == Bound(cfg) then held[1..] else held)
  {
    var m := Drained(held);
    HasIsAt(m, q.key);
    if |held| == Bound(cfg) {
      assert Oldest(m) == 0 && m[0].0 == held[0];
      assert Remove(m, held[0]) == m[1..] == Drained(held[1..]);
    }
  }

  lemma NewKeyIsGranted(cfg: Config, held: seq<string>, q: Request)
    requires cfg.Valid() && q.clock == START && q.tokens == cfg.capacity
    requires |held| <= Bound(cfg) && q.key !in held && "" !in held
    ensures Consume(cfg, State(Drained(held), 0.0), q) ==
            (State(Drained(Last(held + [q.key], Bound(cfg))), 0.0), true)
  {
    var room := if |held| == Bound(cfg) then held[1..] else held;
    FirstMakesRoom(cfg, held, q);
    forall i | 0 <= i < |room|
      ensures Drained(room)[i].0 != q.key
    {
      assert room[i] in held;
    }
    HasIsAt(Drained(room), q.key);
    assert Deciding(cfg, State(Drained(held), 0.0), q) == Bucket(cfg.capacity, 0.0, 0.0);
    PutNew(Drained(room), q.key, Bucket(0.0, 0.0, 0.0));
    assert Last(held + [q.key], Bound(cfg)) == room + [q.key];
    assert Drained(room) + [(q.key, Bucket(0.0, 0.0, 0.0))] == Drained(room + [q.key]);
  }

  /** No key comes back before b others have been asked for, and the empty key never comes. */
  predicate Returning(order: seq<string>, b: int) {
    order == [] ||
    var n := |order| - 1;
    order[n] != "" && order[n] !in Last(order[..n], b) && Returning(order[..n], b)
  }

  lemma {:induction false} NoEmptyKey(order: seq<string>, b: int)
    requires Returning(order, b)
    ensures "" !in order
  {
    if order != [] {
      NoEmptyKey(order[..|order| - 1], b);
      FrontAndLast(order);
    }
  }

  lemma NoEmptyKeyHeld(order: seq<string>, b: int)
    requires Returning(order, b)
    ensures "" !in Last(order, b)
  {
    NoEmptyKey(order, b);
  }

  lemma LastOfLast(order: seq<string>, x: string, b: int)
    requires b >= 1
    ensures Last(Last(order, b) + [x], b) == Last(order + [x], b)
  {
  }

  lemma AskAllButLast(cfg: Config, order: seq<string>)
    requires order != []
    ensures AskAll(cfg, order)[..|order| - 1] == AskAll(cfg, order[..|order| - 1])
  {
  }

  lemma AfterOneMore(cfg: Config, order: seq<string>)
    requires order != []
    ensures
      var n := |order| - 1;
      After(cfg, AskAll(cfg, order)) ==
      Consume(cfg, After(cfg, AskAll(cfg, order[..n])), Request(order[n], cfg.capacity, START)).0
  {
    AskAllButLast(cfg, order);
  }

  /** Every request of such an order finds its own bucket displaced. */
  lemma {:induction false} LastKeysAreHeld(cfg: Config, order: seq<string>)
    requires cfg.Valid() && Returning(order, Bound(cfg))
    ensures After(cfg, AskAll(cfg, order)) == State(Drained(Last(order, Bound(cfg))), 0.0)
    ensures order != [] ==>
              Consume(cfg, After(cfg, AskAll(cfg, order[..|order| - 1])), Request(order[|order| - 1], cfg.capacity, START)).1
  {
    if order == [] {
      assert AskAll(cfg, order) == [] && Drained(Last(order, Bound(cfg))) == [];
    } else {
      var n := |order| - 1;
      var before, key := order[..n], order[n];
      LastKeysAreHeld(cfg, before);
      NoEmptyKeyHeld(before, Bound(cfg));
      AfterOneMore(cfg, order);
      NewKeyIsGranted(cfg, Last(before, Bound(cfg)), Request(key, cfg.capacity, START));
      LastOfLast(before, key, Bound(cfg));
      FrontAndLast(order);
    }
  }

  /** k grants at the same instant, each of the full capacity. */
  ghost predicate FullGrants(cfg: Config, gs: seq<Grant>, k: nat) {
    |gs| == k && Spent(gs) == Times(k, cfg.capacity) && forall i :: 0 <= i < |gs| ==> gs[i].at == 0.0
  }

  lemma OneMoreGrant(cfg: Config, gs: seq<Grant>, g: Grant, k: nat)
    requires FullGrants(cfg, gs, k) && g.at == 0.0 && g.tokens == cfg.capacity
    ensures FullGrants(cfg, gs + [g], k + 1)
  {
    SpentAppend(gs, [g]);
    assert [g][1..] == [];
  }

  lemma GrantIsCounted(cfg: Config, order: seq<string>, key: string, k: nat)
    requires cfg.Valid() && order != []
    requires Consume(cfg, After(cfg, AskAll(cfg, order[..|order| - 1])), Request(order[|order| - 1], cfg.capacity, START)).1
    requires FullGrants(cfg, History(cfg, key, AskAll(cfg, order[..|order| - 1])), k)
    ensures FullGrants(cfg, History(cfg, key, AskAll(cfg, order)), if order[|order| - 1] == key then k + 1 else k)
  {
    var n, qs := |order| - 1, AskAll(cfg, order);
    AskAllButLast(cfg, order);
    var before, now := History(cfg, key, qs[..n]), History(cfg, key, qs);
    if order[n] == key {
      var g := Grant(0.0, cfg.capacity, Lives(cfg, key, qs), Deciding(cfg, After(cfg, qs[..n]), qs[n]).createdAt);
      OneMoreGrant(cfg, before, g, k);
      assert now == before + [g];
    }
  }

  /** If no key comes back before Bound others, every request is granted the full capacity: any number
      of times at one instant. */
  lemma {:induction false} ReturningKeysAreGranted(cfg: Config, order: seq<string>, key: string)
    requires cfg.Valid() && Returning(order, Bound(cfg))
    ensures FullGrants(cfg, History(cfg, key, AskAll(cfg, order)), multiset(order)[key])
  {
    if order != [] {
      var n := |order| - 1;
      ReturningKeysAreGranted(cfg, order[..n], key);
      LastKeysAreHeld(cfg, order);
      GrantIsCounted(cfg, order, key, multiset(order[..n])[key]);
      FrontAndLast(order);
    }
  }

  /** The keys in turn, n times. */
  function Rounds(keys: seq<string>, n: nat): seq<string> {
    if n == 0 then [] else Rounds(keys, n - 1) + keys
  }

  /** Keys that are at most b places apart differ. */
  predicate Apart(order: seq<string>, b: int) {
    forall i, j :: 0 <= i < j < |order| && j - i <= b ==> order[i] != order[j]
  }

  lemma LastIsNew(order: seq<string>, b: int)
    requires order != [] && b >= 1 && Apart(order, b)
    ensures order[|order| - 1] !in Last(order[..|order| - 1], b)
  {
    var n := |order| - 1;
    var held := Last(order[..n], b);
    forall i | 0 <= i < |held|
      ensures held[i] != order[n]
    {
      assert held[i] == order[n - |held| + i];
    }
  }

  lemma {:induction false} ApartIsReturning(order: seq<string>, b: int)
    requires b >= 1 && Apart(order, b) && "" !in order
    ensures Returning(order, b)
  {
    if order != [] {
      LastIsNew(order, b);
      ApartIsReturning(order[..|order| - 1], b);
    }
  }

  /** The last round is the keys, and the rounds before it end with them. */
  lemma {:induction false} LastRound(keys: seq<string>, n: nat)
    requires n > 0
    ensures |Rounds(keys, n)| >= |keys| && Rounds(keys, n)[|Rounds(keys, n)| - |keys|..] == keys
  {
  }

  lemma OneMoreRound(before: seq<string>, keys: seq<string>)
    requires AllDifferent(keys) && Apart(before, |keys| - 1)
    requires before == [] || (|before| >= |keys| && before[|before| - |keys|..] == keys)
    ensures Apart(before + keys, |keys| - 1)
  {
    var order, a, m := before + keys, |before|, |keys|;
    forall i, j | 0 <= i < j < |order| && j - i <= m - 1
      ensures order[i] != order[j]
    {
      if i < a <= j {
        assert before[i] == before[a - m..][i - (a - m)] == keys[i - (a - m)];
      }
    }
  }

  lemma {:induction false} RoundsAreApart(keys: seq<string>, n: nat)
    requires AllDifferent(keys)
    ensures Apart(Rounds(keys, n), |keys| - 1)
  {
    if n > 0 {
      RoundsAreApart(keys, n - 1);
      if n > 1 {
        LastRound(keys, n - 1);
      }
      OneMoreRound(Rounds(keys, n - 1), keys);
    }
  }

  lemma DifferentKeysCount(keys: seq<string>, key: string)
    requires AllDifferent(keys) && key in keys
    ensures multiset(keys)[key] == 1
  {
    var i :| 0 <= i < |keys| && keys[i] == key;
    MiddleApart(keys, i);
    assert key !in keys[..i] && key !in keys[i + 1..];
  }

  lemma {:induction false} RoundsCount(keys: seq<string>, n: nat, key: string)
    requires AllDifferent(keys) && key in keys
    ensures multiset(Rounds(keys, n))[key] == n
  {
    if n > 0 {
      RoundsCount(keys, n - 1, key);
      DifferentKeysCount(keys, key);
    }
  }

  lemma {:induction false} RoundsAreOfKeys(keys: seq<string>, n: nat)
    ensures forall k | k in Rounds(keys, n) :: k in keys
  {
    if n > 0 {
      RoundsAreOfKeys(keys, n - 1);
    }
  }

  /** With one key more than there is room for, keys that take turns are each granted the full capacity
      any number of times at one instant. */
  lemma DisplacementDefeatsLimit(cfg: Config, keys: seq<string>, n: nat, key: string)
    requires cfg.Valid() && AllDifferent(keys) && |keys| > Bound(cfg) && "" !in keys && key in keys
    ensures FullGrants(cfg, History(cfg, key, AskAll(cfg, Rounds(keys, n))), n)
  {
    RoundsAreApart(keys, n);
    RoundsCount(keys, n, key);
    RoundsAreOfKeys(keys, n);
    assert Apart(Rounds(keys, n), Bound(cfg));
    ApartIsReturning(Rounds(keys, n), Bound(cfg));
    ReturningKeysAreGranted(cfg, Rounds(keys, n), key);
  }

  // ---------------------------------------------------------------- exactly when the limit holds

  /** The bound of a key that only expires. */
  ghost predicate WindowIsLimited(cfg: Config, gs: seq<Grant>, i: nat, j: nat, w: real)
    requires i <= j < |gs| && cfg.bucketTtlMs > 0.0
  {
    gs[j].at - gs[i].at <= w ==>
      Spent(gs[i..j + 1]) <= ((w / cfg.bucketTtlMs).Floor + 2) as real * cfg.capacity + w / 1000.0 * cfg.refillPerSecond
  }

  ghost predicate GrantsAreLimited(cfg: Config, gs: seq<Grant>)
    requires cfg.bucketTtlMs > 0.0
  {
    forall i: nat, j: nat, w: real :: i <= j < |gs| ==> WindowIsLimited(cfg, gs, i, j, w)
  }

  /** Every key of every history over these keys keeps the bound in all windows. */
  ghost predicate WindowsAreLimited(cfg: Config, keys: set<string>)
    requires cfg.bucketTtlMs > 0.0
  {
    forall qs, key :: KeysIn(qs, keys) && Timely(qs) ==> GrantsAreLimited(cfg, History(cfg, key, qs))
  }

  lemma FewKeysAreLimited(cfg: Config, keys: set<string>, qs: seq<Request>, key: string)
    requires cfg.Valid() && cfg.bucketTtlMs > 0.0 && |keys| <= Bound(cfg) && KeysIn(qs, keys) && Timely(qs)
    ensures GrantsAreLimited(cfg, History(cfg, key, qs))
  {
    var gs := History(cfg, key, qs);
    FewKeysAreNeverDisplaced(cfg, key, qs, keys);
    forall i: nat, j: nat, w: real | i <= j < |gs|
      ensures WindowIsLimited(cfg, gs, i, j, w)
    {
      if gs[j].at - gs[i].at <= w {
        WindowBoundAcrossExpiry(cfg, key, qs, i, j, w);
      }
    }
  }

  lemma ThreeFullGrantsAreTooMany(cfg: Config, gs: seq<Grant>)
    requires cfg.Valid() && cfg.bucketTtlMs > 0.0 && FullGrants(cfg, gs, 3)
    ensures !WindowIsLimited(cfg, gs, 0, 2, 0.0)
  {
    assert gs[0..3] == gs;
    TimesIsProduct(3, cfg.capacity);
    assert (0.0 / cfg.bucketTtlMs).Floor == 0;
    assert Flow(cfg, 0.0) == 0.0;
  }

  lemma ManyKeysAreNotLimited(cfg: Config, keys: set<string>, list: seq<string>)
    requires cfg.Valid() && cfg.bucketTtlMs > 0.0
    requires |list| == Bound(cfg) + 1 && AllDifferent(list) && forall k | k in list :: k in keys && k != ""
    ensures !WindowsAreLimited(cfg, keys)
  {
    var qs := AskAll(cfg, Rounds(list, 3));
    RoundsAreOfKeys(list, 3);
    DisplacementDefeatsLimit(cfg, list, 3, list[0]);
    ThreeFullGrantsAreTooMany(cfg, History(cfg, list[0], qs));
    assert KeysIn(qs, keys) && Timely(qs);
  }

  /** All keys keep the window bound in all histories if there are no more keys than the map has room
      for, and they do not if there are more without the empty one, which is never displaced; so without
      the empty key exactly if there are no more. */
  lemma WindowsAreLimitedIff(cfg: Config, keys: set<string>)
    requires cfg.Valid() && cfg.bucketTtlMs > 0.0
    ensures |keys| <= Bound(cfg) ==> WindowsAreLimited(cfg, keys)
    ensures |keys - {""}| > Bound(cfg) ==> !WindowsAreLimited(cfg, keys)
    ensures "" !in keys ==> (WindowsAreLimited(cfg, keys) <==> |keys| <= Bound(cfg))
  {
    if |keys| <= Bound(cfg) {
      forall qs, key | KeysIn(qs, keys) && Timely(qs)
        ensures GrantsAreLimited(cfg, History(cfg, key, qs))
      {
        FewKeysAreLimited(cfg, keys, qs, key);
      }
    }
    if |keys - {""}| > Bound(cfg) {
      var list := ListOf(keys - {""}, Bound(cfg) + 1);
      ManyKeysAreNotLimited(cfg, keys, list);
    }
    assert "" !in keys ==> keys - {""} == keys;
  }
}
