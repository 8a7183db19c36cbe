/** What the rate limiter grants: the lazy refill is the continuous token bucket, a request is
    granted exactly if no window overflows, and evictions add at most one capacity per lifetime. */
module RateLimiterLaws {
  import opened Seqs
  import opened OrderedMaps
  import opened RateLimiter

  // ---------------------------------------------------------------- arithmetic of the flow

  lemma FlowAdds(cfg: Config, a: real, b: real)
    ensures Flow(cfg, a + b) == Flow(cfg, a) + Flow(cfg, b)
  {
    assert (a + b) / 1000.0 * cfg.refillPerSecond == a / 1000.0 * cfg.refillPerSecond + b / 1000.0 * cfg.refillPerSecond;
  }

  lemma FlowIsMonotone(cfg: Config, a: real, b: real)
    requires cfg.Valid() && a <= b
    ensures Flow(cfg, a) <= Flow(cfg, b)
  {
    assert a / 1000.0 <= b / 1000.0;
  }

  /** The level at time t of a bucket that is left alone. */
  function Level(cfg: Config, b: Bucket, t: real): real {
    Least(cfg.capacity, b.tokens + Flow(cfg, t - b.lastRefill))
  }

  /** Refilling at any moment in between does not change the level later: laziness is invisible. */
  lemma LazyRefillIsContinuous(cfg: Config, b: Bucket, now: real, t: real)
    requires cfg.Valid() && b.tokens <= cfg.capacity && b.lastRefill <= now <= t
    ensures Level(cfg, Refill(cfg, b, now), t) == Level(cfg, b, t)
    ensures Refill(cfg, b, now).tokens == Level(cfg, b, now)
  {
    assert t - b.lastRefill == (t - now) + (now - b.lastRefill);
    FlowAdds(cfg, t - now, now - b.lastRefill);
    FlowIsMonotone(cfg, 0.0, t - now);
    FlowIsMonotone(cfg, 0.0, now - b.lastRefill);
  }

  // ---------------------------------------------------------------- the history of a key

  /** A grant; life counts the buckets the key has had so far, and born is when the last began. */
  datatype Grant = Grant(at: real, tokens: real, life: nat, born: real)

  function Spent(gs: seq<Grant>): real {
    if gs == [] then 0.0 else gs[0].tokens + Spent(gs[1..])
  }

  lemma {:induction false} SpentAppend(a: seq<Grant>, b: seq<Grant>)
    ensures Spent(a + b) == Spent(a) + Spent(b)
  {
    if a == [] {
      assert a + b == b;
    } else {
      assert (a + b)[1..] == a[1..] + b;
      SpentAppend(a[1..], b);
    }
  }

  lemma {:induction false} SpentNonNegative(gs: seq<Grant>)
    requires forall i :: 0 <= i < |gs| ==> gs[i].tokens >= 0.0
    ensures Spent(gs) >= 0.0
  {
    if gs != [] {
      SpentNonNegative(gs[1..]);
    }
  }

  /** The buckets once old ones are gone and there is room for the key. */
  function Prepared(cfg: Config, st: State, q: Request): Entries<Bucket> {
    MakeRoom(cfg, Cleaned(cfg, st, q.clock).buckets, q.key)
  }

  predicate Concerns(q: Request, key: string) {
    q.key == key && q.tokens > 0.0
  }

  /** How many buckets the key has had. */
  function Lives(cfg: Config, key: string, qs: seq<Request>): nat {
    if qs == [] then 0
    else
      var n := |qs| - 1;
      Lives(cfg, key, qs[..n]) + if Concerns(qs[n], key) && !Has(Prepared(cfg, After(cfg, qs[..n]), qs[n]), key) then 1 else 0
  }

  /** The grants of a key. */
  function History(cfg: Config, key: string, qs: seq<Request>): seq<Grant> {
    if qs == [] then []
    else
      var n := |qs| - 1;
      var before := After(cfg, qs[..n]);
      if Concerns(qs[n], key) && Consume(cfg, before, qs[n]).1
      then History(cfg, key, qs[..n]) + [Grant(qs[n].clock.refilled, qs[n].tokens, Lives(cfg, key, qs), Deciding(cfg, before, qs[n]).createdAt)]
      else History(cfg, key, qs[..n])
  }

  /** The clock never runs backwards. */
  predicate Timely(qs: seq<Request>) {
    && (forall i :: 0 <= i < |qs| ==> qs[i].clock.Ordered())
    && (forall i, j :: 0 <= i < j < |qs| ==> qs[i].clock.refilled <= qs[j].clock.now)
  }

  // ---------------------------------------------------------------- the level of a live bucket

  /** What the grants from position i on leave of a full bucket at time t. */
  function Room(cfg: Config, gs: seq<Grant>, i: nat, t: real): real
    requires i < |gs|
  {
    cfg.capacity + Flow(cfg, t - gs[i].at) - Spent(gs[i..])
  }

  /** x is what the tightest window ending at t leaves, over the grants of one life. */
  ghost predicate IsLevel(cfg: Config, gs: seq<Grant>, life: nat, t: real, x: real) {
    && x <= cfg.capacity
    && (forall i :: 0 <= i < |gs| && gs[i].life == life ==> x <= Room(cfg, gs, i, t))
    && (x == cfg.capacity || exists i :: 0 <= i < |gs| && gs[i].life == life && x == Room(cfg, gs, i, t))
  }

  lemma LevelFlows(cfg: Config, gs: seq<Grant>, life: nat, t: real, x: real, t': real)
    requires cfg.Valid() && IsLevel(cfg, gs, life, t, x) && t <= t'
    ensures IsLevel(cfg, gs, life, t', Least(cfg.capacity, x + Flow(cfg, t' - t)))
  {
    forall i | 0 <= i < |gs|
      ensures Room(cfg, gs, i, t') == Room(cfg, gs, i, t) + Flow(cfg, t' - t)
    {
      assert t' - gs[i].at == (t' - t) + (t - gs[i].at);
      FlowAdds(cfg, t' - t, t - gs[i].at);
    }
    FlowIsMonotone(cfg, 0.0, t' - t);
  }

  lemma GrantLowersRoom(cfg: Config, gs: seq<Grant>, g: Grant, i: nat, t: real)
    requires i < |gs|
    ensures Room(cfg, gs + [g], i, t) == Room(cfg, gs, i, t) - g.tokens
  {
    assert (gs + [g])[i..] == gs[i..] + [g];
    SpentAppend(gs[i..], [g]);
    assert Spent([g]) == g.tokens by { assert [g][1..] == []; }
  }

  lemma RoomOfLast(cfg: Config, gs: seq<Grant>, g: Grant)
    ensures Room(cfg, gs + [g], |gs|, g.at) == cfg.capacity - g.tokens
  {
    assert (gs + [g])[|gs|..] == [g] && [g][1..] == [];
    assert Spent([g]) == g.tokens;
    assert Flow(cfg, g.at - g.at) == 0.0;
  }

  lemma LevelDrops(cfg: Config, gs: seq<Grant>, g: Grant, x: real)
    requires cfg.Valid() && IsLevel(cfg, gs, g.life, g.at, x) && 0.0 < g.tokens <= x
    ensures IsLevel(cfg, gs + [g], g.life, g.at, x - g.tokens)
  {
    var gs' := gs + [g];
    forall i | 0 <= i < |gs|
      ensures Room(cfg, gs', i, g.at) == Room(cfg, gs, i, g.at) - g.tokens
    {
      GrantLowersRoom(cfg, gs, g, i, g.at);
    }
    RoomOfLast(cfg, gs, g);
    if x != cfg.capacity {
      var i :| 0 <= i < |gs| && gs[i].life == g.life && x == Room(cfg, gs, i, g.at);
      assert gs'[i].life == g.life && x - g.tokens == Room(cfg, gs', i, g.at);
    } else {
      assert gs'[|gs|].life == g.life;
    }
  }

  // ---------------------------------------------------------------- the invariant of a key

  ghost predicate Ordered(gs: seq<Grant>) {
    forall i, j :: 0 <= i < j < |gs| ==> gs[i].at <= gs[j].at && gs[i].life <= gs[j].life
  }

  /** The window from grant i to grant j carries at most the capacity plus what flows in during it. */
  predicate Within(cfg: Config, gs: seq<Grant>, i: nat, j: nat)
    requires i <= j < |gs|
  {
    Spent(gs[i..j + 1]) <= cfg.capacity + (gs[j].at - gs[i].at) / 1000.0 * cfg.refillPerSecond
  }

  /** No window within a life overflows. */
  ghost predicate Conforms(cfg: Config, gs: seq<Grant>) {
    forall i, j :: 0 <= i <= j < |gs| && gs[i].life == gs[j].life ==> Within(cfg, gs, i, j)
  }

  ghost predicate BucketInv(cfg: Config, gs: seq<Grant>, life: nat, b: Bucket) {
    && IsLevel(cfg, gs, life, b.lastRefill, b.tokens)
    && (forall i :: 0 <= i < |gs| ==> gs[i].at <= b.lastRefill)
  }

  ghost predicate GrantsInv(cfg: Config, gs: seq<Grant>, life: nat, b: Option<Bucket>, now: real) {
    && Ordered(gs)
    && Conforms(cfg, gs)
    && (forall i :: 0 <= i < |gs| ==> gs[i].life <= life && gs[i].tokens > 0.0 && gs[i].at <= now)
    && (b.Some? ==> BucketInv(cfg, gs, life, b.value) && b.value.lastRefill <= now)
  }

  /** What holds of a key at time now, after the requests qs. */
  ghost predicate KeyInv(cfg: Config, key: string, qs: seq<Request>, now: real) {
    && Distinct(After(cfg, qs).buckets)
    && GrantsInv(cfg, History(cfg, key, qs), Lives(cfg, key, qs), Get(After(cfg, qs).buckets, key), now)
  }

  /** Nothing was read off the clock later than now. */
  predicate NotAfter(qs: seq<Request>, now: real) {
    forall i :: 0 <= i < |qs| ==> qs[i].clock.refilled <= now
  }

  lemma {:induction false} EvictOldKeeps(cfg: Config, m: Entries<Bucket>, now: real, key: string)
    requires Distinct(m)
    ensures Distinct(EvictOld(cfg, m, now))
    ensures |EvictOld(cfg, m, now)| <= |m|
    ensures forall e :: e in EvictOld(cfg, m, now) ==> e in m
    ensures Get(EvictOld(cfg, m, now), key) ==
            if Get(m, key).Some? && Fresh(cfg, now, Get(m, key).value) then Get(m, key) else None
  {
    if m != [] {
      EvictOldKeeps(cfg, m[1..], now, key);
      assert m == [m[0]] + m[1..];
      forall e | e in EvictOld(cfg, m[1..], now)
        ensures e.0 != m[0].0
      {
        assert e in m[1..];
      }
      if m[0].0 == key {
        NotAmongTheRest(m);
      }
    }
  }

  lemma NotAmongTheRest(m: Entries<Bucket>)
    requires Distinct(m) && m != []
    ensures Get(m[1..], m[0].0) == None
  {
    HasIsAt(m[1..], m[0].0);
    assert forall i :: 0 <= i < |m[1..]| ==> m[1..][i].0 == m[i + 1].0;
  }

  /** The key whose bucket makes room for another, if any. */
  function Displaced(cfg: Config, st: State, q: Request): Option<string> {
    var buckets := Cleaned(cfg, st, q.clock).buckets;
    if |buckets| >= cfg.maxBuckets && !Has(buckets, q.key) && buckets != [] && buckets[Oldest(buckets)].0 != ""
    then Some(buckets[Oldest(buckets)].0)
    else None
  }

  /** What becomes of a bucket when a request is prepared: it stays, or it is too old, or it is displaced. */
  lemma PreparedKeeps(cfg: Config, st: State, q: Request, key: string)
    requires Distinct(st.buckets)
    ensures Distinct(Prepared(cfg, st, q))
    ensures Get(Prepared(cfg, st, q), key) == Get(st.buckets, key) || Get(Prepared(cfg, st, q), key) == None
    ensures Get(st.buckets, key).Some? && Get(Prepared(cfg, st, q), key) == None ==>
              !Fresh(cfg, q.clock.evicting, Get(st.buckets, key).value) || Displaced(cfg, st, q) == Some(key)
    ensures Displaced(cfg, st, q).Some? ==> !Has(st.buckets, q.key) || !Fresh(cfg, q.clock.evicting, Get(st.buckets, q.key).value)
  {
    EvictOldKeeps(cfg, st.buckets, q.clock.evicting, key);
    EvictOldKeeps(cfg, st.buckets, q.clock.evicting, q.key);
    var buckets := Cleaned(cfg, st, q.clock).buckets;
    if Displaced(cfg, st, q).Some? {
      RemoveKeys(buckets, Displaced(cfg, st, q).value);
      GetRemove(buckets, Displaced(cfg, st, q).value, key);
    }
  }

  lemma PutAny(cfg: Config, st: State, q: Request, key: string)
    requires Distinct(st.buckets) && q.tokens > 0.0
    ensures
      var (st', granted) := Consume(cfg, st, q);
      var b := Deciding(cfg, st, q);
      && Distinct(st'.buckets)
      && granted == (b.tokens >= q.tokens)
      && Get(st'.buckets, key) ==
         if key == q.key then Some(if granted then b.(tokens := b.tokens - q.tokens) else b) else Get(Prepared(cfg, st, q), key)
  {
    var b := Deciding(cfg, st, q);
    var b' := if b.tokens >= q.tokens then b.(tokens := b.tokens - q.tokens) else b;
    PreparedKeeps(cfg, st, q, key);
    PutKeys(Prepared(cfg, st, q), q.key, b');
    GetPut(Prepared(cfg, st, q), q.key, b', key);
  }

  lemma OtherKeepsKeyInv(cfg: Config, key: string, qs: seq<Request>, now: real)
    requires cfg.Valid() && qs != [] && !Concerns(qs[|qs| - 1], key)
    requires KeyInv(cfg, key, qs[..|qs| - 1], now)
    ensures KeyInv(cfg, key, qs, now)
  {
    var n := |qs| - 1;
    var q, st := qs[n], After(cfg, qs[..n]);
    if q.tokens > 0.0 {
      PreparedKeeps(cfg, st, q, key);
      PutAny(cfg, st, q, key);
    }
  }

  lemma FullIsLevel(cfg: Config, gs: seq<Grant>, life: nat, t: real)
    requires forall i :: 0 <= i < |gs| ==> gs[i].life < life
    ensures IsLevel(cfg, gs, life, t, cfg.capacity)
  {
  }

  lemma RefillKeepsLevel(cfg: Config, gs: seq<Grant>, life: nat, b: Bucket, now: real)
    requires cfg.Valid() && BucketInv(cfg, gs, life, b) && b.lastRefill <= now
    ensures BucketInv(cfg, gs, life, Refill(cfg, b, now)) && Refill(cfg, b, now).lastRefill == now
  {
    LevelFlows(cfg, gs, life, b.lastRefill, b.tokens, now);
  }

  /** The bucket that decides on a request stands at the level of its life. */
  lemma DecidingIsLevel(cfg: Config, key: string, qs: seq<Request>, q: Request)
    requires cfg.Valid() && q.clock.Ordered() && Concerns(q, key)
    requires KeyInv(cfg, key, qs, q.clock.now)
    ensures
      var b := Deciding(cfg, After(cfg, qs), q);
      && BucketInv(cfg, History(cfg, key, qs), Lives(cfg, key, qs + [q]), b)
      && b.lastRefill == q.clock.refilled
  {
    var st, gs, life := After(cfg, qs), History(cfg, key, qs), Lives(cfg, key, qs + [q]);
    assert (qs + [q])[..|qs|] == qs;
    PreparedKeeps(cfg, st, q, key);
    var b0 := BucketOf(cfg, Prepared(cfg, st, q), key, q.clock);
    if Get(Prepared(cfg, st, q), key) == None {
      FullIsLevel(cfg, gs, life, q.clock.filled);
      assert BucketInv(cfg, gs, life, b0);
    }
    RefillKeepsLevel(cfg, gs, life, b0, q.clock.refilled);
  }

  lemma NewWindowFits(cfg: Config, gs: seq<Grant>, g: Grant, i: nat, x: real)
    requires cfg.Valid() && IsLevel(cfg, gs, g.life, g.at, x) && g.tokens <= x
    requires i <= |gs| && (i < |gs| ==> gs[i].life == g.life)
    ensures Spent((gs + [g])[i..]) <= cfg.capacity + Flow(cfg, g.at - (gs + [g])[i].at)
  {
    if i < |gs| {
      GrantLowersRoom(cfg, gs, g, i, g.at);
      assert x <= Room(cfg, gs, i, g.at);
    } else {
      RoomOfLast(cfg, gs, g);
    }
  }

  lemma GrantConforms(cfg: Config, gs: seq<Grant>, g: Grant, x: real)
    requires cfg.Valid() && Conforms(cfg, gs) && IsLevel(cfg, gs, g.life, g.at, x) && g.tokens <= x
    ensures Conforms(cfg, gs + [g])
  {
    var gs', n := gs + [g], |gs|;
    forall i, j | 0 <= i <= j < |gs'| && gs'[i].life == gs'[j].life
      ensures Within(cfg, gs', i, j)
    {
      if j < n {
        assert Within(cfg, gs, i, j);
        OldWindowFits(cfg, gs, g, i, j);
      } else {
        LastWindowFits(cfg, gs, g, i, x);
      }
    }
  }

  lemma OldWindowFits(cfg: Config, gs: seq<Grant>, g: Grant, i: nat, j: nat)
    requires i <= j < |gs| && Within(cfg, gs, i, j)
    ensures Within(cfg, gs + [g], i, j)
  {
    assert (gs + [g])[i..j + 1] == gs[i..j + 1];
  }

  lemma LastWindowFits(cfg: Config, gs: seq<Grant>, g: Grant, i: nat, x: real)
    requires cfg.Valid() && i <= |gs| && (gs + [g])[i].life == g.life
    requires IsLevel(cfg, gs, g.life, g.at, x) && g.tokens <= x
    ensures Within(cfg, gs + [g], i, |gs|)
  {
    assert (gs + [g])[i..|gs| + 1] == (gs + [g])[i..];
    NewWindowFits(cfg, gs, g, i, x);
  }

  lemma GrantKeeps(cfg: Config, gs: seq<Grant>, g: Grant, b: Bucket)
    requires cfg.Valid() && Ordered(gs) && Conforms(cfg, gs) && BucketInv(cfg, gs, g.life, b)
    requires b.lastRefill == g.at && 0.0 < g.tokens <= b.tokens
    requires forall i :: 0 <= i < |gs| ==> gs[i].life <= g.life && gs[i].tokens > 0.0
    ensures GrantsInv(cfg, gs + [g], g.life, Some(b.(tokens := b.tokens - g.tokens)), g.at)
  {
    GrantConforms(cfg, gs, g, b.tokens);
    LevelDrops(cfg, gs, g, b.tokens);
  }

  lemma OwnKeepsKeyInv(cfg: Config, key: string, qs: seq<Request>, q: Request)
    requires cfg.Valid() && q.clock.Ordered() && Concerns(q, key)
    requires KeyInv(cfg, key, qs, q.clock.now)
    ensures KeyInv(cfg, key, qs + [q], q.clock.refilled)
  {
    var st, gs, life, b := After(cfg, qs), History(cfg, key, qs), Lives(cfg, key, qs + [q]), Deciding(cfg, After(cfg, qs), q);
    assert (qs + [q])[..|qs|] == qs;
    DecidingIsLevel(cfg, key, qs, q);
    PutAny(cfg, st, q, key);
    if Consume(cfg, st, q).1 {
      GrantKeeps(cfg, gs, Grant(q.clock.refilled, q.tokens, life, b.createdAt), b);
    }
  }

  lemma {:induction false} KeysStayInv(cfg: Config, key: string, qs: seq<Request>, now: real)
    requires cfg.Valid() && Timely(qs) && NotAfter(qs, now)
    ensures KeyInv(cfg, key, qs, now)
  {
    if qs != [] {
      var before, q := qs[..|qs| - 1], qs[|qs| - 1];
      assert qs == before + [q];
      if Concerns(q, key) {
        KeysStayInv(cfg, key, before, q.clock.now);
        OwnKeepsKeyInv(cfg, key, before, q);
      } else {
        KeysStayInv(cfg, key, before, now);
        OtherKeepsKeyInv(cfg, key, qs, now);
      }
    }
  }

  // ---------------------------------------------------------------- one lifetime

  /** With n more tokens now, the window from grant i on carries no more than the capacity plus
      what flows in during the window. */
  predicate WindowFits(cfg: Config, gs: seq<Grant>, i: nat, now: real, n: real)
    requires i < |gs|
  {
    Spent(gs[i..]) + n <= cfg.capacity + (now - gs[i].at) / 1000.0 * cfg.refillPerSecond
  }

  lemma LevelDecides(cfg: Config, gs: seq<Grant>, life: nat, now: real, x: real, n: real)
    requires IsLevel(cfg, gs, life, now, x)
    ensures x >= n <==> n <= cfg.capacity && forall i :: 0 <= i < |gs| && gs[i].life == life ==> WindowFits(cfg, gs, i, now, n)
  {
    assert forall i :: 0 <= i < |gs| ==> (WindowFits(cfg, gs, i, now, n) <==> n <= Room(cfg, gs, i, now));
  }

  /** A request is granted exactly if no window that ends with it, within the life of the bucket,
      would carry more than the capacity and what flows in during the window. */
  lemma GrantedIffEveryWindowFits(cfg: Config, qs: seq<Request>, q: Request)
    requires cfg.Valid() && Timely(qs + [q]) && q.tokens > 0.0
    ensures
      var gs, life := History(cfg, q.key, qs), Lives(cfg, q.key, qs + [q]);
      Consume(cfg, After(cfg, qs), q).1 <==>
        && q.tokens <= cfg.capacity
        && forall i :: 0 <= i < |gs| && gs[i].life == life ==> WindowFits(cfg, gs, i, q.clock.refilled, q.tokens)
  {
    var all := qs + [q];
    assert all[..|all| - 1] == qs;
    assert forall i :: 0 <= i < |qs| ==> all[i] == qs[i];
    assert all[|qs|] == q;
    KeysStayInv(cfg, q.key, qs, q.clock.now);
    DecidingIsLevel(cfg, q.key, qs, q);
    var gs, life, b := History(cfg, q.key, qs), Lives(cfg, q.key, all), Deciding(cfg, After(cfg, qs), q);
    LevelDecides(cfg, gs, life, q.clock.refilled, b.tokens, q.tokens);
  }

  /** Within one lifetime a window of any length carries at most the capacity plus what flows in. */
  lemma LifetimeWindowBound(cfg: Config, key: string, qs: seq<Request>, i: nat, j: nat)
    requires cfg.Valid() && Timely(qs)
    requires i <= j < |History(cfg, key, qs)| && History(cfg, key, qs)[i].life == History(cfg, key, qs)[j].life
    ensures
      Within(cfg, History(cfg, key, qs), i, j)
  {
    KeysStayInv(cfg, key, qs, if qs == [] then 0.0 else qs[|qs| - 1].clock.refilled);
  }

  /** What flows in, spelled out. */
  lemma BoundedByFlow(cfg: Config, x: real, c: real, dt: real)
    requires x <= c + Flow(cfg, dt)
    ensures x <= c + dt / 1000.0 * cfg.refillPerSecond
  {
  }

  // ---------------------------------------------------------------- a bucket that is left alone

  /** x after t milliseconds of refilling, at most the capacity. */
  predicate Refilled(cfg: Config, x: real, t: real, y: real) {
    var full := x + t / 1000.0 * cfg.refillPerSecond;
    y == if full < cfg.capacity then full else cfg.capacity
  }

  /** What is left for the key. */
  function Left(cfg: Config, qs: seq<Request>, key: string): real {
    Get(After(cfg, qs).buckets, key).GetOr(Bucket(cfg.capacity, 0.0, 0.0)).tokens
  }

  /** A request leaves the bucket refilled up to the moment of the request. */
  lemma RequestRefills(cfg: Config, qs: seq<Request>, q: Request)
    requires cfg.Valid() && Timely(qs + [q]) && q.tokens > 0.0
    ensures
      var b := Get(After(cfg, qs + [q]).buckets, q.key);
      b.Some? && b.value.lastRefill == q.clock.refilled && Distinct(After(cfg, qs + [q]).buckets)
      && b.value.tokens <= cfg.capacity
  {
    var all := qs + [q];
    assert all[..|qs|] == qs && all[|qs|] == q;
    assert forall i :: 0 <= i < |qs| ==> all[i] == qs[i];
    KeysStayInv(cfg, q.key, qs, q.clock.now);
    KeysStayInv(cfg, q.key, all, q.clock.refilled);
    PreparedKeeps(cfg, After(cfg, qs), q, q.key);
    PutAny(cfg, After(cfg, qs), q, q.key);
  }

  /** A bucket that is still there decides on the next request with what it has gained. */
  lemma DecidesWithGain(cfg: Config, st: State, q: Request, b: Bucket, t: real, y: real)
    requires cfg.Valid() && Distinct(st.buckets) && Get(st.buckets, q.key) == Some(b) && Has(Prepared(cfg, st, q), q.key)
    requires b.tokens <= cfg.capacity && t >= 0.0 && q.clock.refilled == b.lastRefill + t && Refilled(cfg, b.tokens, t, y)
    ensures Deciding(cfg, st, q).tokens == y
  {
    PreparedKeeps(cfg, st, q, q.key);
    RefillGains(cfg, b, t, y);
  }

  lemma RefillGains(cfg: Config, b: Bucket, t: real, y: real)
    requires cfg.Valid() && b.tokens <= cfg.capacity && t >= 0.0 && Refilled(cfg, b.tokens, t, y)
    ensures Refill(cfg, b, b.lastRefill + t).tokens == y
  {
    FlowIsMonotone(cfg, 0.0, t);
  }

  lemma TimelyInPairs(qs: seq<Request>, q: Request, q': Request)
    requires Timely(qs + [q] + [q'])
    ensures Timely(qs + [q]) && q.clock.refilled <= q'.clock.refilled
    ensures (qs + [q] + [q'])[..|qs| + 1] == qs + [q]
  {
    assert forall i :: 0 <= i <= |qs| ==> (qs + [q] + [q'])[i] == (qs + [q])[i];
    assert (qs + [q] + [q'])[|qs|] == q && (qs + [q] + [q'])[|qs| + 1] == q';
  }

  /** If nothing evicts the bucket between two requests of one key that are t milliseconds apart, it
      gains refillPerSecond for every second of t, up to the capacity; the second request is granted
      exactly if that is enough, and then taken from it. */
  lemma SecondsRefill(cfg: Config, qs: seq<Request>, q: Request, q': Request, t: real, y: real)
    requires cfg.Valid() && Timely(qs + [q] + [q']) && q.tokens > 0.0 && q'.tokens > 0.0 && q'.key == q.key
    requires Has(Prepared(cfg, After(cfg, qs + [q]), q'), q.key) && q'.clock.refilled == q.clock.refilled + t
    requires Refilled(cfg, Left(cfg, qs + [q], q.key), t, y)
    ensures Consume(cfg, After(cfg, qs + [q]), q').1 <==> q'.tokens <= y
    ensures Left(cfg, qs + [q] + [q'], q.key) == if q'.tokens <= y then y - q'.tokens else y
  {
    var st := After(cfg, qs + [q]);
    TimelyInPairs(qs, q, q');
    RequestRefills(cfg, qs, q);
    DecidesWithGain(cfg, st, q', Get(st.buckets, q.key).value, t, y);
    PutAny(cfg, st, q', q.key);
  }
}
