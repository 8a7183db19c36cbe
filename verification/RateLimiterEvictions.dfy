/** What eviction does to the limits: by age it costs a bounded number of refills, by number it can
    cost all of them; and when the number of buckets is bounded at all. */
module RateLimiterEvictions {
  import opened Seqs
  import opened OrderedMaps
  import opened RateLimiter
  import opened RateLimiterLaws

  // ---------------------------------------------------------------- lives of a key that is never displaced

  /** No other key's request ever takes this key's bucket to make room. */
  ghost predicate NeverDisplaced(cfg: Config, key: string, qs: seq<Request>) {
    forall i :: 0 <= i < |qs| && qs[i].tokens > 0.0 ==> Displaced(cfg, After(cfg, qs[..i]), qs[i]) != Some(key)
  }

  /** Grant h follows grant g: in the same bucket, or in one born more than a TTL later. */
  predicate Follows(cfg: Config, g: Grant, h: Grant) {
    && h.born <= h.at
    && if g.life == h.life then g.born == h.born else h.born >= g.born + cfg.bucketTtlMs && h.born >= g.at
  }

  ghost predicate Spaced(cfg: Config, gs: seq<Grant>) {
    && (gs != [] ==> gs[0].born <= gs[0].at)
    && forall i :: 0 < i < |gs| ==> Follows(cfg, gs[i - 1], gs[i])
  }

  /** The next grant, whenever it comes, will follow the last one. */
  predicate Follow(cfg: Config, g: Grant, life: nat, b: Option<Bucket>, now: real) {
    match b
    case Some(bucket) =>
      && bucket.createdAt <= now
      && if g.life == life then g.born == bucket.createdAt
         else bucket.createdAt >= g.born + cfg.bucketTtlMs && bucket.createdAt >= g.at
    case None => now >= g.born + cfg.bucketTtlMs
  }

  ghost predicate SpacingInv(cfg: Config, key: string, qs: seq<Request>, now: real) {
    var gs, b := History(cfg, key, qs), Get(After(cfg, qs).buckets, key);
    && Spaced(cfg, gs)
    && (b.Some? ==> b.value.createdAt <= now)
    && (gs != [] ==> Follow(cfg, gs[|gs| - 1], Lives(cfg, key, qs), b, now))
  }

  predicate PastGrant(g: Grant, life: nat, now: real) {
    g.life <= life && g.at <= now
  }

  /** The part of KeyInv that spacing rests on. */
  ghost predicate LastGrantIsPast(cfg: Config, key: string, qs: seq<Request>, now: real) {
    var gs := History(cfg, key, qs);
    Distinct(After(cfg, qs).buckets) && (gs != [] ==> PastGrant(gs[|gs| - 1], Lives(cfg, key, qs), now))
  }

  /** A bucket that stays, or goes because it is too old, leaves room for the next grant to follow. */
  lemma StillFollow(cfg: Config, g: Grant, life: nat, b: Option<Bucket>, b': Option<Bucket>, clock: Reads)
    requires Follow(cfg, g, life, b, clock.now) && clock.Ordered() && cfg.bucketTtlMs > 0.0
    requires b' == b || (b.Some? && b'.None? && !Fresh(cfg, clock.evicting, b.value))
    ensures Follow(cfg, g, life, b', clock.refilled)
  {
  }

  lemma OtherKeepsSpacing(cfg: Config, key: string, qs: seq<Request>, q: Request)
    requires cfg.Valid() && cfg.bucketTtlMs > 0.0 && q.clock.Ordered() && !Concerns(q, key)
    requires q.tokens > 0.0 ==> Displaced(cfg, After(cfg, qs), q) != Some(key)
    requires LastGrantIsPast(cfg, key, qs, q.clock.now) && SpacingInv(cfg, key, qs, q.clock.now)
    ensures SpacingInv(cfg, key, qs + [q], q.clock.refilled)
  {
    assert (qs + [q])[..|qs|] == qs;
    var gs, life, b := History(cfg, key, qs), Lives(cfg, key, qs), Get(After(cfg, qs).buckets, key);
    var b' := Get(After(cfg, qs + [q]).buckets, key);
    assert History(cfg, key, qs + [q]) == gs && Lives(cfg, key, qs + [q]) == life;
    if q.tokens > 0.0 {
      PreparedKeeps(cfg, After(cfg, qs), q, key);
      PutAny(cfg, After(cfg, qs), q, key);
    }
    if gs != [] {
      StillFollow(cfg, gs[|gs| - 1], life, b, b', q.clock);
    }
  }

  lemma SpacedAppend(cfg: Config, gs: seq<Grant>, g: Grant)
    requires Spaced(cfg, gs) && g.born <= g.at && (gs != [] ==> Follows(cfg, gs[|gs| - 1], g))
    ensures Spaced(cfg, gs + [g])
  {
  }

  lemma OwnKeepsSpacing(cfg: Config, key: string, qs: seq<Request>, q: Request)
    requires cfg.Valid() && cfg.bucketTtlMs > 0.0 && q.clock.Ordered() && Concerns(q, key)
    requires Displaced(cfg, After(cfg, qs), q) != Some(key)
    requires LastGrantIsPast(cfg, key, qs, q.clock.now) && SpacingInv(cfg, key, qs, q.clock.now)
    ensures SpacingInv(cfg, key, qs + [q], q.clock.refilled)
  {
    var st, gs, life := After(cfg, qs), History(cfg, key, qs), Lives(cfg, key, qs + [q]);
    assert (qs + [q])[..|qs|] == qs;
    PreparedKeeps(cfg, st, q, key);
    PutAny(cfg, st, q, key);
    var b := Deciding(cfg, st, q);
    assert b.createdAt <= q.clock.refilled;
    var g := Grant(q.clock.refilled, q.tokens, life, b.createdAt);
    if gs != [] {
      assert Follow(cfg, gs[|gs| - 1], life, Some(b), q.clock.refilled);
      assert Follows(cfg, gs[|gs| - 1], g);
    }
    SpacedAppend(cfg, gs, g);
  }

  lemma {:induction false} SpacingStays(cfg: Config, key: string, qs: seq<Request>, now: real)
    requires cfg.Valid() && cfg.bucketTtlMs > 0.0 && Timely(qs) && NotAfter(qs, now) && NeverDisplaced(cfg, key, qs)
    ensures SpacingInv(cfg, key, qs, now)
  {
    if qs != [] {
      var before, q := qs[..|qs| - 1], qs[|qs| - 1];
      assert qs == before + [q];
      assert NeverDisplaced(cfg, key, before) by {
        assert forall i :: 0 <= i < |before| ==> before[..i] == qs[..i];
      }
      SpacingStays(cfg, key, before, q.clock.now);
      KeysStayInv(cfg, key, before, q.clock.now);
      if Concerns(q, key) {
        OwnKeepsSpacing(cfg, key, before, q);
      } else {
        OtherKeepsSpacing(cfg, key, before, q);
      }
    }
  }

  // ---------------------------------------------------------------- counting lives

  /** How many lives the grants from i to j belong to. */
  function LivesBetween(gs: seq<Grant>, i: nat, j: nat): nat
    requires i <= j < |gs|
  {
    if i == j then 1 else LivesBetween(gs, i, j - 1) + if gs[j].life == gs[j - 1].life then 0 else 1
  }

  /** k times x. */
  function Times(k: nat, x: real): real {
    if k == 0 then 0.0 else Times(k - 1, x) + x
  }

  lemma {:induction false} TimesIsProduct(k: nat, x: real)
    ensures Times(k, x) == k as real * x
  {
    if k > 0 {
      TimesIsProduct(k - 1, x);
      assert (k - 1) as real * x + x == k as real * x;
    }
  }

  /** From the third life on, each is a TTL further away from the first grant. */
  lemma {:induction false} LivesTakeTime(cfg: Config, gs: seq<Grant>, i: nat, j: nat)
    requires i <= j < |gs| && Spaced(cfg, gs) && Ordered(gs) && cfg.bucketTtlMs > 0.0
    ensures LivesBetween(gs, i, j) >= 1 && gs[j].born <= gs[j].at
    ensures LivesBetween(gs, i, j) >= 2 ==> gs[j].born >= gs[i].at + Times(LivesBetween(gs, i, j) - 2, cfg.bucketTtlMs)
  {
    assert j > 0 ==> Follows(cfg, gs[j - 1], gs[j]);
    if i < j {
      LivesTakeTime(cfg, gs, i, j - 1);
    }
  }

  /** Grants i to j carry at most a capacity plus what flows in between them. Here inflow(t) is all
      that has flowed in until t, and spent(k) what the first k grants took. */
  predicate Carries(capacity: real, inflow: real -> real, spent: int -> real, gs: seq<Grant>, i: nat, j: nat)
    requires i <= j < |gs|
  {
    spent(j + 1) - spent(i) <= capacity + (inflow(gs[j].at) - inflow(gs[i].at))
  }

  ghost predicate LivesCarry(capacity: real, inflow: real -> real, spent: int -> real, gs: seq<Grant>) {
    forall i, j :: 0 <= i <= j < |gs| && gs[i].life == gs[j].life ==> Carries(capacity, inflow, spent, gs, i, j)
  }

  ghost predicate Grows(inflow: real -> real) {
    forall s, t :: s <= t ==> inflow(s) <= inflow(t)
  }

  /** The windows of the lives add up; p is where the last life begins. */
  lemma {:induction false} EarlierLivesAddUp(capacity: real, inflow: real -> real, spent: int -> real, gs: seq<Grant>, i: nat, j: nat)
    returns (p: nat)
    requires i <= j < |gs| && LivesCarry(capacity, inflow, spent, gs) && Grows(inflow) && Ordered(gs)
    ensures i <= p <= j && gs[p].life == gs[j].life
    ensures LivesBetween(gs, i, j) >= 1
    ensures spent(p) - spent(i) <= Times(LivesBetween(gs, i, j) - 1, capacity) + (inflow(gs[p].at) - inflow(gs[i].at))
  {
    if i == j {
      p := i;
    } else {
      p := EarlierLivesAddUp(capacity, inflow, spent, gs, i, j - 1);
      if gs[j].life != gs[j - 1].life {
        assert Carries(capacity, inflow, spent, gs, p, j - 1);
        assert inflow(gs[j - 1].at) <= inflow(gs[j].at);
        p := j;
      }
    }
  }

  lemma LivesAddUp(capacity: real, inflow: real -> real, spent: int -> real, gs: seq<Grant>, i: nat, j: nat)
    requires i <= j < |gs| && LivesCarry(capacity, inflow, spent, gs) && Grows(inflow) && Ordered(gs)
    ensures spent(j + 1) - spent(i) <= Times(LivesBetween(gs, i, j), capacity) + (inflow(gs[j].at) - inflow(gs[i].at))
  {
    var p := EarlierLivesAddUp(capacity, inflow, spent, gs, i, j);
    assert Carries(capacity, inflow, spent, gs, p, j);
  }

  function Inflow(cfg: Config): real -> real {
    (t: real) => Flow(cfg, t)
  }

  function SpentBy(gs: seq<Grant>): int -> real {
    (k: int) => if 0 <= k <= |gs| then Spent(gs[..k]) else 0.0
  }

  lemma SpentBetween(gs: seq<Grant>, i: nat, j: nat)
    requires i <= j < |gs|
    ensures Spent(gs[i..j + 1]) == SpentBy(gs)(j + 1) - SpentBy(gs)(i)
  {
    assert gs[..j + 1] == gs[..i] + gs[i..j + 1];
    SpentAppend(gs[..i], gs[i..j + 1]);
  }

  lemma ConformingLivesCarry(cfg: Config, gs: seq<Grant>)
    requires Conforms(cfg, gs)
    ensures LivesCarry(cfg.capacity, Inflow(cfg), SpentBy(gs), gs)
  {
    forall i, j | 0 <= i <= j < |gs| && gs[i].life == gs[j].life
      ensures Carries(cfg.capacity, Inflow(cfg), SpentBy(gs), gs, i, j)
    {
      assert Within(cfg, gs, i, j);
      SpentBetween(gs, i, j);
      FlowAdds(cfg, gs[j].at - gs[i].at, gs[i].at);
    }
  }

  lemma InflowGrows(cfg: Config)
    requires cfg.Valid()
    ensures Grows(Inflow(cfg))
  {
    forall s: real, t: real | s <= t
      ensures Inflow(cfg)(s) <= Inflow(cfg)(t)
    {
      FlowIsMonotone(cfg, s, t);
    }
  }

  lemma FloorBounds(k: nat, w: real, ttl: real)
    requires ttl > 0.0 && Times(k, ttl) <= w
    ensures k <= (w / ttl).Floor
  {
    TimesIsProduct(k, ttl);
    QuotientBounds(k as real, w, ttl);
  }

  lemma QuotientBounds(x: real, w: real, ttl: real)
    requires ttl > 0.0 && x * ttl <= w
    ensures x <= w / ttl
  {
    var y := w / ttl;
    assert y * ttl == w;
    if x > y {
      ScaledUp(y, x, ttl);
    }
  }

  lemma ScaledUp(y: real, x: real, ttl: real)
    requires y < x && ttl > 0.0
    ensures y * ttl < x * ttl
  {
  }

  /** At most floor(w / TTL) + 2 lives have grants in a window of length w. */
  lemma FewLives(cfg: Config, gs: seq<Grant>, i: nat, j: nat, w: real)
    requires i <= j < |gs| && Spaced(cfg, gs) && Ordered(gs) && cfg.bucketTtlMs > 0.0
    requires gs[j].at - gs[i].at <= w
    ensures LivesBetween(gs, i, j) <= (w / cfg.bucketTtlMs).Floor + 2
  {
    LivesTakeTime(cfg, gs, i, j);
    assert i < j ==> gs[i].at <= gs[j].at;
    var k := if LivesBetween(gs, i, j) >= 2 then LivesBetween(gs, i, j) - 2 else 0;
    FloorBounds(k, w, cfg.bucketTtlMs);
  }

  lemma CapacitiesBound(k: nat, n: int, capacity: real)
    requires k <= n && capacity > 0.0
    ensures Times(k, capacity) <= n as real * capacity
  {
    TimesIsProduct(k, capacity);
    assert (n - k) as real * capacity >= 0.0;
    assert n as real * capacity == k as real * capacity + (n - k) as real * capacity;
  }

  lemma FlowSpan(cfg: Config, s: real, t: real, w: real)
    requires cfg.Valid() && t - s <= w
    ensures Inflow(cfg)(t) - Inflow(cfg)(s) <= Flow(cfg, w)
  {
    FlowAdds(cfg, t - s, s);
    FlowIsMonotone(cfg, t - s, w);
  }

  lemma SpelledWindowBound(cfg: Config, gs: seq<Grant>, i: nat, j: nat, w: real)
    requires cfg.Valid() && cfg.bucketTtlMs > 0.0 && Conforms(cfg, gs) && Ordered(gs) && Spaced(cfg, gs)
    requires i <= j < |gs| && gs[j].at - gs[i].at <= w
    ensures Spent(gs[i..j + 1]) <=
            ((w / cfg.bucketTtlMs).Floor + 2) as real * cfg.capacity + w / 1000.0 * cfg.refillPerSecond
  {
    ConformingWindowBound(cfg, gs, i, j, w);
    BoundedByFlow(cfg, Spent(gs[i..j + 1]), ((w / cfg.bucketTtlMs).Floor + 2) as real * cfg.capacity, w);
  }

  /** If nothing displaces a key, then however often its bucket expires and is made anew, a window
      of length w carries at most (floor(w / TTL) + 2) capacities plus what flows in during w. */
  lemma WindowBoundAcrossExpiry(cfg: Config, key: string, qs: seq<Request>, i: nat, j: nat, w: real)
    requires cfg.Valid() && cfg.bucketTtlMs > 0.0 && Timely(qs) && NeverDisplaced(cfg, key, qs)
    requires i <= j < |History(cfg, key, qs)|
    requires History(cfg, key, qs)[j].at - History(cfg, key, qs)[i].at <= w
    ensures Spent(History(cfg, key, qs)[i..j + 1]) <=
            ((w / cfg.bucketTtlMs).Floor + 2) as real * cfg.capacity + w / 1000.0 * cfg.refillPerSecond
  {
    var gs, now := History(cfg, key, qs), if qs == [] then 0.0 else qs[|qs| - 1].clock.refilled;
    KeysStayInv(cfg, key, qs, now);
    SpacingStays(cfg, key, qs, now);
    SpelledWindowBound(cfg, gs, i, j, w);
  }

  /** A capacity for each life, plus what flows in. */
  lemma LivesBound(cfg: Config, gs: seq<Grant>, i: nat, j: nat, w: real)
    requires cfg.Valid() && Conforms(cfg, gs) && Ordered(gs)
    requires i <= j < |gs| && gs[j].at - gs[i].at <= w
    ensures Spent(gs[i..j + 1]) <= Times(LivesBetween(gs, i, j), cfg.capacity) + Flow(cfg, w)
  {
    ConformingLivesCarry(cfg, gs);
    InflowGrows(cfg);
    LivesAddUp(cfg.capacity, Inflow(cfg), SpentBy(gs), gs, i, j);
    SpentBetween(gs, i, j);
    FlowSpan(cfg, gs[i].at, gs[j].at, w);
  }

  lemma FewLivesBound(cfg: Config, gs: seq<Grant>, i: nat, j: nat, w: real, most: real)
    requires cfg.Valid() && Conforms(cfg, gs) && Ordered(gs)
    requires i <= j < |gs| && gs[j].at - gs[i].at <= w && Times(LivesBetween(gs, i, j), cfg.capacity) <= most
    ensures Spent(gs[i..j + 1]) <= most + Flow(cfg, w)
  {
    LivesBound(cfg, gs, i, j, w);
  }

  lemma ConformingWindowBound(cfg: Config, gs: seq<Grant>, i: nat, j: nat, w: real)
    requires cfg.Valid() && cfg.bucketTtlMs > 0.0 && Conforms(cfg, gs) && Ordered(gs) && Spaced(cfg, gs)
    requires i <= j < |gs| && gs[j].at - gs[i].at <= w
    ensures Spent(gs[i..j + 1]) <= ((w / cfg.bucketTtlMs).Floor + 2) as real * cfg.capacity + Flow(cfg, w)
  {
    FewLives(cfg, gs, i, j, w);
    CapacitiesBound(LivesBetween(gs, i, j), (w / cfg.bucketTtlMs).Floor + 2, cfg.capacity);
    FewLivesBound(cfg, gs, i, j, w, ((w / cfg.bucketTtlMs).Floor + 2) as real * cfg.capacity);
  }
}
