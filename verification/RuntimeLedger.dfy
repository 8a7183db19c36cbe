/** The pruned, evictable ledgers agree with the full history of calls wherever a budget
    decision can look. */
module RuntimeLedger {
  import opened Seqs
  import opened RuntimeState
  import opened RuntimeWorld
  import opened RuntimeServing
  import opened RuntimeLocks

  // ---------------------------------------------------------------- what ledgers and history say

  function CountAfter(cutoff: Time): Time -> int {
    (at: Time) => if at > cutoff then 1 else 0
  }

  function TokensAfter(cutoff: Time): TokenEntry -> int {
    (e: TokenEntry) => if e.at > cutoff then e.tokens else 0
  }

  /** What a charge adds to the token ledger. */
  function Positive(): int -> int {
    (n: int) => if n > 0 then n else 0
  }

  function Spent(call: Call): int {
    Sum(call.charges, Positive())
  }

  /** In the history: recorded runs of t that started after the cutoff, and the tokens charged to them. */
  function RecordedAfter(t: Tenant, cutoff: Time): Call -> int {
    (c: Call) => if c.tenant == t && c.StartTime() > cutoff then |c.charges| else 0
  }

  function SpentAfter(t: Tenant, cutoff: Time): Call -> int {
    (c: Call) => if c.tenant == t && c.StartTime() > cutoff then Spent(c) else 0
  }

  // ---------------------------------------------------------------- invariants

  /** Activity and starts lie in the past, and recorded starts before the tenant's last activity. */
  ghost predicate TimeInv(cfg: Config, w: World) {
    && (forall t :: t in w.rt.tenantLastActivityAt ==> w.rt.tenantLastActivityAt[t] <= w.clock)
    && (forall t :: t in w.rt.tenantStates ==> t in w.rt.tenantLastActivityAt)
    && (forall c :: 0 <= c < |w.calls| && w.calls[c].startedAt.Some? ==> w.calls[c].StartTime() <= w.clock)
    && (forall c :: 0 <= c < |w.calls| ==> RecordedBeforeActivity(cfg, w.rt, w.calls[c]))
  }

  predicate RecordedBeforeActivity(cfg: Config, rt: Runtime, call: Call) {
    && (call.charges != [] ==> call.startedAt.Some?)
    && (call.charges != [] && call.tenant in cfg.budgets && call.tenant in rt.tenantLastActivityAt ==>
          call.StartTime() <= rt.tenantLastActivityAt[call.tenant])
  }

  ghost predicate RunLedger(rt: Runtime, calls: seq<Call>, clock: Time, t: Tenant) {
    forall cutoff :: cutoff >= clock - MS_PER_HOUR ==>
      Sum(rt.StateOf(t).runTimestamps, CountAfter(cutoff)) == Sum(calls, RecordedAfter(t, cutoff))
  }

  ghost predicate TokenLedger(rt: Runtime, calls: seq<Call>, clock: Time, t: Tenant) {
    forall cutoff :: cutoff >= clock - MS_PER_DAY ==>
      Sum(rt.StateOf(t).tokenTimestamps, TokensAfter(cutoff)) == Sum(calls, SpentAfter(t, cutoff))
  }

  ghost predicate LedgersOf(cfg: Config, rt: Runtime, calls: seq<Call>, clock: Time, t: Tenant) {
    && (cfg.Keeps(MS_PER_HOUR) ==> RunLedger(rt, calls, clock, t))
    && (cfg.Keeps(MS_PER_DAY) ==> TokenLedger(rt, calls, clock, t))
  }

  ghost predicate LedgerInv(cfg: Config, w: World) {
    forall t :: t in cfg.budgets ==> LedgersOf(cfg, w.rt, w.calls, w.clock, t)
  }

  // ---------------------------------------------------------------- sums that do not change

  /** A move that leaves a call's start and charges alone, or touches a call without charges. */
  predicate SameCharges(k: Call, k': Call) {
    k'.tenant == k.tenant && k'.charges == k.charges && (k.charges != [] ==> k'.startedAt == k.startedAt)
  }

  lemma SameChargesSameHistory(calls: seq<Call>, c: CallId, k': Call, t: Tenant, cutoff: Time)
    requires c < |calls| && SameCharges(calls[c], k')
    ensures Sum(calls[c := k'], RecordedAfter(t, cutoff)) == Sum(calls, RecordedAfter(t, cutoff))
    ensures Sum(calls[c := k'], SpentAfter(t, cutoff)) == Sum(calls, SpentAfter(t, cutoff))
  {
    SumUpdate(calls, c, k', RecordedAfter(t, cutoff));
    SumUpdate(calls, c, k', SpentAfter(t, cutoff));
  }

  lemma ChargeAddsToHistory(calls: seq<Call>, c: CallId, k': Call, tokens: int, t: Tenant, cutoff: Time)
    requires c < |calls| && k'.tenant == calls[c].tenant && k'.startedAt == calls[c].startedAt
    requires k'.charges == calls[c].charges + [tokens]
    ensures
      var counts := k'.tenant == t && k'.StartTime() > cutoff;
      && Sum(calls[c := k'], RecordedAfter(t, cutoff)) ==
         Sum(calls, RecordedAfter(t, cutoff)) + (if counts then 1 else 0)
      && Sum(calls[c := k'], SpentAfter(t, cutoff)) ==
         Sum(calls, SpentAfter(t, cutoff)) + (if counts && tokens > 0 then tokens else 0)
  {
    SumUpdate(calls, c, k', RecordedAfter(t, cutoff));
    SumUpdate(calls, c, k', SpentAfter(t, cutoff));
    SumAppend(calls[c].charges, tokens, Positive());
  }

  lemma PruneKeepsSums(st: TenantState, now: Time, cutoff: Time)
    ensures cutoff >= now - MS_PER_HOUR ==>
              Sum(Prune(st, now).runTimestamps, CountAfter(cutoff)) == Sum(st.runTimestamps, CountAfter(cutoff))
    ensures cutoff >= now - MS_PER_DAY ==>
              Sum(Prune(st, now).tokenTimestamps, TokensAfter(cutoff)) == Sum(st.tokenTimestamps, TokensAfter(cutoff))
  {
    if cutoff >= now - MS_PER_HOUR {
      SumFilter(st.runTimestamps, After(now - MS_PER_HOUR), CountAfter(cutoff));
    }
    if cutoff >= now - MS_PER_DAY {
      SumFilter(st.tokenTimestamps, TokenAfter(now - MS_PER_DAY), TokensAfter(cutoff));
    }
  }

  // ---------------------------------------------------------------- tenants that are not served

  /** Eviction forgets nothing that a later decision could see. */
  lemma EvictionForgetsNothingVisible(cfg: Config, w: World, u: Tenant, hi: Time, cutoff: Time, window: Time)
    requires TimeInv(cfg, w) && u in cfg.budgets
    requires Idle(cfg, w.rt, u, hi) && cfg.Keeps(window) && cutoff >= hi - window
    ensures Sum(w.calls, RecordedAfter(u, cutoff)) == 0
    ensures Sum(w.calls, SpentAfter(u, cutoff)) == 0
  {
    forall c | 0 <= c < |w.calls|
      ensures RecordedAfter(u, cutoff)(w.calls[c]) == 0 && SpentAfter(u, cutoff)(w.calls[c]) == 0
    {
      assert RecordedBeforeActivity(cfg, w.rt, w.calls[c]);
    }
    SumZero(w.calls, RecordedAfter(u, cutoff));
    SumZero(w.calls, SpentAfter(u, cutoff));
  }

  lemma OthersKeepLedgers(cfg: Config, w: World, rt': Runtime, clock': Time, t: Tenant, u: Tenant)
    requires TimeInv(cfg, w) && u in cfg.budgets && u != t
    requires LedgersOf(cfg, w.rt, w.calls, w.clock, u)
    requires w.clock <= clock' && Served(cfg, w.rt, rt', t, w.clock, clock')
    ensures LedgersOf(cfg, rt', w.calls, clock', u)
  {
    if Evicted(cfg, w.rt, rt', u, clock') {
      forall cutoff | cutoff >= clock' - MS_PER_HOUR && cfg.Keeps(MS_PER_HOUR)
        ensures Sum(rt'.StateOf(u).runTimestamps, CountAfter(cutoff)) == Sum(w.calls, RecordedAfter(u, cutoff))
      {
        EvictionForgetsNothingVisible(cfg, w, u, clock', cutoff, MS_PER_HOUR);
      }
      forall cutoff | cutoff >= clock' - MS_PER_DAY && cfg.Keeps(MS_PER_DAY)
        ensures Sum(rt'.StateOf(u).tokenTimestamps, TokensAfter(cutoff)) == Sum(w.calls, SpentAfter(u, cutoff))
      {
        EvictionForgetsNothingVisible(cfg, w, u, clock', cutoff, MS_PER_DAY);
      }
    } else {
      assert Kept(w.rt, rt', u);
      assert rt'.StateOf(u) == w.rt.StateOf(u);
    }
  }

  /** The histories of calls and calls' agree on what budgets count. */
  ghost predicate SameHistory(calls: seq<Call>, calls': seq<Call>) {
    forall t, cutoff ::
      && Sum(calls', RecordedAfter(t, cutoff)) == Sum(calls, RecordedAfter(t, cutoff))
      && Sum(calls', SpentAfter(t, cutoff)) == Sum(calls, SpentAfter(t, cutoff))
  }

  lemma SameHistoryKeepsLedgers(cfg: Config, rt: Runtime, calls: seq<Call>, calls': seq<Call>, clock: Time, t: Tenant)
    requires LedgersOf(cfg, rt, calls, clock, t) && SameHistory(calls, calls')
    ensures LedgersOf(cfg, rt, calls', clock, t)
  {
  }

  // ---------------------------------------------------------------- the served tenant

  lemma PruneKeepsLedgers(cfg: Config, rt: Runtime, rt': Runtime, calls: seq<Call>, clock: Time, t: Tenant, now: Time)
    requires LedgersOf(cfg, rt, calls, clock, t)
    requires now <= clock
    requires rt'.StateOf(t).runTimestamps == Prune(rt.StateOf(t), now).runTimestamps
    requires rt'.StateOf(t).tokenTimestamps == Prune(rt.StateOf(t), now).tokenTimestamps
    ensures LedgersOf(cfg, rt', calls, clock, t)
  {
    forall cutoff
      ensures cutoff >= clock - MS_PER_HOUR ==>
        Sum(rt'.StateOf(t).runTimestamps, CountAfter(cutoff)) == Sum(rt.StateOf(t).runTimestamps, CountAfter(cutoff))
      ensures cutoff >= clock - MS_PER_DAY ==>
        Sum(rt'.StateOf(t).tokenTimestamps, TokensAfter(cutoff)) == Sum(rt.StateOf(t).tokenTimestamps, TokensAfter(cutoff))
    {
      PruneKeepsSums(rt.StateOf(t), now, cutoff);
    }
  }

  lemma RecordingKeepsRunLedger(rt: Runtime, calls: seq<Call>, clock: Time, c: CallId, k': Call, rt': Runtime, tokens: int)
    requires c < |calls| && RunLedger(rt, calls, clock, calls[c].tenant)
    requires k'.tenant == calls[c].tenant && k'.startedAt == calls[c].startedAt
    requires k'.charges == calls[c].charges + [tokens] && k'.StartTime() <= clock
    requires rt'.StateOf(k'.tenant).runTimestamps ==
             Prune(rt.StateOf(k'.tenant), k'.StartTime()).runTimestamps + [k'.StartTime()]
    ensures RunLedger(rt', calls[c := k'], clock, k'.tenant)
  {
    var t, now, st := k'.tenant, k'.StartTime(), rt.StateOf(k'.tenant);
    forall cutoff | cutoff >= clock - MS_PER_HOUR
      ensures Sum(rt'.StateOf(t).runTimestamps, CountAfter(cutoff)) == Sum(calls[c := k'], RecordedAfter(t, cutoff))
    {
      ChargeAddsToHistory(calls, c, k', tokens, t, cutoff);
      PruneKeepsSums(st, now, cutoff);
      SumAppend(Prune(st, now).runTimestamps, now, CountAfter(cutoff));
    }
  }

  lemma RecordingKeepsTokenLedger(rt: Runtime, calls: seq<Call>, clock: Time, c: CallId, k': Call, rt': Runtime, tokens: int)
    requires c < |calls| && TokenLedger(rt, calls, clock, calls[c].tenant)
    requires k'.tenant == calls[c].tenant && k'.startedAt == calls[c].startedAt
    requires k'.charges == calls[c].charges + [tokens] && k'.StartTime() <= clock
    requires
      var st := Prune(rt.StateOf(k'.tenant), k'.StartTime());
      rt'.StateOf(k'.tenant).tokenTimestamps ==
      if tokens > 0 then st.tokenTimestamps + [TokenEntry(tokens, k'.StartTime())] else st.tokenTimestamps
    ensures TokenLedger(rt', calls[c := k'], clock, k'.tenant)
  {
    var t, now, st := k'.tenant, k'.StartTime(), rt.StateOf(k'.tenant);
    forall cutoff | cutoff >= clock - MS_PER_DAY
      ensures Sum(rt'.StateOf(t).tokenTimestamps, TokensAfter(cutoff)) == Sum(calls[c := k'], SpentAfter(t, cutoff))
    {
      ChargeAddsToHistory(calls, c, k', tokens, t, cutoff);
      PruneKeepsSums(st, now, cutoff);
      SumAppend(Prune(st, now).tokenTimestamps, TokenEntry(tokens, now), TokensAfter(cutoff));
    }
  }

  lemma RecordingKeepsLedgers(cfg: Config, rt: Runtime, calls: seq<Call>, clock: Time, c: CallId, k': Call,
                              rt': Runtime, tokens: int)
    requires c < |calls|
    requires LedgersOf(cfg, rt, calls, clock, calls[c].tenant)
    requires k'.tenant == calls[c].tenant && k'.startedAt == calls[c].startedAt
    requires k'.charges == calls[c].charges + [tokens]
    requires k'.StartTime() <= clock
    requires
      var st := Prune(rt.StateOf(k'.tenant), k'.StartTime());
      && rt'.StateOf(k'.tenant).runTimestamps == st.runTimestamps + [k'.StartTime()]
      && rt'.StateOf(k'.tenant).tokenTimestamps ==
           (if tokens > 0 then st.tokenTimestamps + [TokenEntry(tokens, k'.StartTime())] else st.tokenTimestamps)
    ensures LedgersOf(cfg, rt', calls[c := k'], clock, k'.tenant)
  {
    if cfg.Keeps(MS_PER_HOUR) {
      RecordingKeepsRunLedger(rt, calls, clock, c, k', rt', tokens);
    }
    if cfg.Keeps(MS_PER_DAY) {
      RecordingKeepsTokenLedger(rt, calls, clock, c, k', rt', tokens);
    }
  }

  // ---------------------------------------------------------------- every step keeps the invariants

  lemma BodyMoveKeepsTimes(cfg: Config, w: World, w': World, c: CallId)
    requires TimeInv(cfg, w) && BodyMove(cfg, w, w', c)
    requires w'.calls[c].startedAt.Some? ==> w'.calls[c].StartTime() <= w'.clock
    requires RecordedBeforeActivity(cfg, w'.rt, w'.calls[c])
    ensures TimeInv(cfg, w')
  {
    var t := w.calls[c].tenant;
    forall u | u != t
      ensures u in w'.rt.tenantLastActivityAt ==> w'.rt.tenantLastActivityAt[u] <= w'.clock
      ensures u in w'.rt.tenantStates ==> u in w'.rt.tenantLastActivityAt
    {
      assert Kept(w.rt, w'.rt, u) || Evicted(cfg, w.rt, w'.rt, u, w'.clock);
    }
    forall d | 0 <= d < |w'.calls| && d != c
      ensures RecordedBeforeActivity(cfg, w'.rt, w'.calls[d])
    {
      var u := w.calls[d].tenant;
      assert RecordedBeforeActivity(cfg, w.rt, w.calls[d]);
      assert u == t || Kept(w.rt, w'.rt, u) || Evicted(cfg, w.rt, w'.rt, u, w'.clock);
    }
  }

  /** A move without a charge; the served tenant's ledgers are at most pruned. */
  lemma MoveKeepsHistory(cfg: Config, w: World, w': World, c: CallId, now: Time)
    requires TimeInv(cfg, w) && LedgerInv(cfg, w) && BodyMove(cfg, w, w', c)
    requires SameCharges(w.calls[c], w'.calls[c]) && now <= w'.clock
    requires w'.calls[c].startedAt.Some? ==> w'.calls[c].StartTime() <= w'.clock
    requires
      var st, st' := w.rt.StateOf(w.calls[c].tenant), w'.rt.StateOf(w.calls[c].tenant);
      || (st'.runTimestamps == st.runTimestamps && st'.tokenTimestamps == st.tokenTimestamps)
      || (st'.runTimestamps == Prune(st, now).runTimestamps && st'.tokenTimestamps == Prune(st, now).tokenTimestamps)
    ensures TimeInv(cfg, w') && LedgerInv(cfg, w')
  {
    assert RecordedBeforeActivity(cfg, w.rt, w.calls[c]);
    BodyMoveKeepsTimes(cfg, w, w', c);
    assert SameHistory(w.calls, w'.calls) by {
      forall t, cutoff
        ensures Sum(w'.calls, RecordedAfter(t, cutoff)) == Sum(w.calls, RecordedAfter(t, cutoff))
        ensures Sum(w'.calls, SpentAfter(t, cutoff)) == Sum(w.calls, SpentAfter(t, cutoff))
      {
        SameChargesSameHistory(w.calls, c, w'.calls[c], t, cutoff);
      }
    }
    var t := w.calls[c].tenant;
    forall u | u in cfg.budgets
      ensures LedgersOf(cfg, w'.rt, w'.calls, w'.clock, u)
    {
      assert LedgersOf(cfg, w.rt, w.calls, w.clock, u);
      if u != t {
        OthersKeepLedgers(cfg, w, w'.rt, w'.clock, t, u);
      } else if w'.rt.StateOf(t).runTimestamps == Prune(w.rt.StateOf(t), now).runTimestamps
          && w'.rt.StateOf(t).tokenTimestamps == Prune(w.rt.StateOf(t), now).tokenTimestamps {
        PruneKeepsLedgers(cfg, w.rt, w'.rt, w.calls, w'.clock, t, now);
      }
      SameHistoryKeepsLedgers(cfg, w'.rt, w.calls, w'.calls, w'.clock, u);
    }
  }

  lemma RecordKeepsHistory(cfg: Config, w: World, c: CallId, phase: Phase, tokens: int, r: Reads)
    requires TimeInv(cfg, w) && LedgerInv(cfg, w)
    requires c < |w.calls| && w.calls[c].startedAt.Some? && w.rt.InFlight(w.calls[c].tenant) > 0
    requires Reading(w.clock, r) && BodyMove(cfg, w, Record(cfg, w, c, phase, tokens, r), c)
    ensures TimeInv(cfg, Record(cfg, w, c, phase, tokens, r)) && LedgerInv(cfg, Record(cfg, w, c, phase, tokens, r))
  {
    var w', t := Record(cfg, w, c, phase, tokens, r), w.calls[c].tenant;
    RecordRunServes(cfg, w.rt, t, w.calls[c].StartTime(), tokens, w.clock, r);
    BodyMoveKeepsTimes(cfg, w, w', c);
    forall u | u in cfg.budgets
      ensures LedgersOf(cfg, w'.rt, w'.calls, w'.clock, u)
    {
      assert LedgersOf(cfg, w.rt, w.calls, w.clock, u);
      if u != t {
        OthersKeepLedgers(cfg, w, w'.rt, w'.clock, t, u);
        forall cutoff
          ensures Sum(w'.calls, RecordedAfter(u, cutoff)) == Sum(w.calls, RecordedAfter(u, cutoff))
          ensures Sum(w'.calls, SpentAfter(u, cutoff)) == Sum(w.calls, SpentAfter(u, cutoff))
        {
          ChargeAddsToHistory(w.calls, c, w'.calls[c], tokens, u, cutoff);
        }
      } else {
        RecordingKeepsLedgers(cfg, w.rt, w.calls, w'.clock, c, w'.calls[c], w'.rt, tokens);
      }
    }
  }

  /** A step outside doExecuteRun: at most a tenant is touched, calls change phase or provider,
      and new calls wait. */
  ghost predicate Quiet(w: World, w': World) {
    && w.clock <= w'.clock
    && w'.rt.tenantStates == w.rt.tenantStates
    && w.rt.tenantLastActivityAt.Keys <= w'.rt.tenantLastActivityAt.Keys
    && (forall t :: t in w'.rt.tenantLastActivityAt ==>
          || w.clock <= w'.rt.tenantLastActivityAt[t] <= w'.clock
          || (t in w.rt.tenantLastActivityAt && w'.rt.tenantLastActivityAt[t] == w.rt.tenantLastActivityAt[t]))
    && |w.calls| <= |w'.calls|
    && (forall d :: 0 <= d < |w.calls| ==> QuietCall(w.calls[d], w'.calls[d]))
    && (forall d :: |w.calls| <= d < |w'.calls| ==> NewCall(w'.calls[d]))
  }

  predicate QuietCall(k: Call, k': Call) {
    && k' == k.(phase := k'.phase, provider := k'.provider, graceExpired := k'.graceExpired)
    && (k'.phase.Racing? <==> k.phase.Racing?)
  }

  predicate NewCall(k: Call) {
    k.phase.Waiting? && k.startedAt.None? && k.outcome.Undecided? && k.charges == []
  }

  lemma QuietSameHistory(calls: seq<Call>, calls': seq<Call>, t: Tenant, cutoff: Time)
    requires |calls| <= |calls'|
    requires forall d :: 0 <= d < |calls| ==> QuietCall(calls[d], calls'[d])
    requires forall d :: |calls| <= d < |calls'| ==> NewCall(calls'[d])
    ensures Sum(calls', RecordedAfter(t, cutoff)) == Sum(calls, RecordedAfter(t, cutoff))
    ensures Sum(calls', SpentAfter(t, cutoff)) == Sum(calls, SpentAfter(t, cutoff))
  {
    SumExtend(calls, calls', RecordedAfter(t, cutoff));
    SumExtend(calls, calls', SpentAfter(t, cutoff));
  }

  lemma QuietKeepsHistory(cfg: Config, w: World, w': World)
    requires TimeInv(cfg, w) && LedgerInv(cfg, w) && Quiet(w, w')
    ensures TimeInv(cfg, w') && LedgerInv(cfg, w')
  {
    forall d | 0 <= d < |w.calls|
      ensures RecordedBeforeActivity(cfg, w'.rt, w'.calls[d])
    {
      assert RecordedBeforeActivity(cfg, w.rt, w.calls[d]);
    }
    forall t, cutoff
      ensures Sum(w'.calls, RecordedAfter(t, cutoff)) == Sum(w.calls, RecordedAfter(t, cutoff))
      ensures Sum(w'.calls, SpentAfter(t, cutoff)) == Sum(w.calls, SpentAfter(t, cutoff))
    {
      QuietSameHistory(w.calls, w'.calls, t, cutoff);
    }
    forall u | u in cfg.budgets
      ensures LedgersOf(cfg, w'.rt, w'.calls, w'.clock, u)
    {
      assert LedgersOf(cfg, w.rt, w.calls, w.clock, u);
      SameHistoryKeepsLedgers(cfg, w'.rt, w.calls, w'.calls, w'.clock, u);
    }
  }
}
