/** What serving one tenant does to the runtime: its own state changes, and tenants that
    are idle are evicted. Every ledger and lock argument about *other* tenants rests on this. */
module RuntimeServing {
  import opened Seqs
  import opened RuntimeState
  import opened RuntimeWorld

  // ---------------------------------------------------------------- what serving a tenant does to the others

  ghost predicate Kept(rt: Runtime, rt': Runtime, u: Tenant) {
    && (u in rt'.tenantStates <==> u in rt.tenantStates)
    && (u in rt.tenantStates ==> rt'.tenantStates[u] == rt.tenantStates[u])
    && (u in rt'.tenantLocks <==> u in rt.tenantLocks)
    && (u in rt.tenantLocks ==> rt'.tenantLocks[u] == rt.tenantLocks[u])
    && (u in rt'.tenantLastActivityAt <==> u in rt.tenantLastActivityAt)
    && (u in rt.tenantLastActivityAt ==> rt'.tenantLastActivityAt[u] == rt.tenantLastActivityAt[u])
  }

  ghost predicate Evicted(cfg: Config, rt: Runtime, rt': Runtime, u: Tenant, hi: Time) {
    && Idle(cfg, rt, u, hi)
    && u !in rt'.tenantStates && u !in rt'.tenantLocks && u !in rt'.tenantLastActivityAt
  }

  /** Serving tenant t changes t's own state, and evicts other tenants that are idle by the given time. */
  ghost predicate Served(cfg: Config, rt: Runtime, rt': Runtime, t: Tenant, clock: Time, hi: Time) {
    && rt' == rt.(tenantStates := rt'.tenantStates, tenantLocks := rt'.tenantLocks,
                  tenantLastActivityAt := rt'.tenantLastActivityAt)
    && (forall u :: u != t ==> Kept(rt, rt', u) || Evicted(cfg, rt, rt', u, hi))
    && (t in rt'.tenantLocks <==> t in rt.tenantLocks)
    && (t in rt.tenantLocks ==> rt'.tenantLocks[t] == rt.tenantLocks[t])
    && (t in rt.tenantStates ==> t in rt'.tenantStates)
    && (t in rt.tenantLastActivityAt ==> t in rt'.tenantLastActivityAt)
    && (t in rt'.tenantStates && t !in rt.tenantStates ==> t in rt'.tenantLastActivityAt)
    && (t in rt'.tenantLastActivityAt ==>
          || clock <= rt'.tenantLastActivityAt[t] <= hi
          || (t in rt.tenantLastActivityAt && rt'.tenantLastActivityAt[t] == rt.tenantLastActivityAt[t]))
  }

  lemma ServedThenServed(cfg: Config, rt: Runtime, rt1: Runtime, rt2: Runtime, t: Tenant, clock: Time, hi: Time, hi': Time)
    requires Served(cfg, rt, rt1, t, clock, hi) && Served(cfg, rt1, rt2, t, clock, hi')
    requires clock <= hi <= hi'
    ensures Served(cfg, rt, rt2, t, clock, hi')
  {
    forall u | u != t
      ensures Kept(rt, rt2, u) || Evicted(cfg, rt, rt2, u, hi')
    {
      assert Kept(rt, rt1, u) || Evicted(cfg, rt, rt1, u, hi);
      assert Kept(rt1, rt2, u) || Evicted(cfg, rt1, rt2, u, hi');
    }
  }

  lemma TouchServes(cfg: Config, rt: Runtime, t: Tenant, clock: Time, at: Time)
    requires clock <= at
    ensures Served(cfg, rt, Touch(rt, t, at), t, clock, at)
  {
    forall u | u != t
      ensures Kept(rt, Touch(rt, t, at), u)
    {
    }
  }

  lemma GetTenantStateServes(cfg: Config, rt: Runtime, t: Tenant, clock: Time, r: Reads)
    requires rt.InFlight(t) > 0 && Reading(clock, r)
    ensures
      var rt' := GetTenantState(cfg, rt, t, r);
      && Served(cfg, rt, rt', t, clock, r.evict)
      && t in rt'.tenantStates && rt'.tenantStates[t] == rt.StateOf(t)
      && t in rt'.tenantLastActivityAt && rt'.tenantLastActivityAt[t] == r.touch
  {
    var rt' := GetTenantState(cfg, rt, t, r);
    forall u | u != t
      ensures Kept(rt, rt', u) || Evicted(cfg, rt, rt', u, r.evict)
    {
      if Idle(cfg, rt, u, r.evict) {
        assert Evicted(cfg, rt, rt', u, r.evict);
      } else {
        assert Kept(rt, rt', u);
      }
    }
  }

  lemma WithStateServes(cfg: Config, rt: Runtime, t: Tenant, st: TenantState, clock: Time, hi: Time)
    requires t in rt.tenantStates
    ensures Served(cfg, rt, WithState(rt, t, st), t, clock, hi)
  {
    forall u | u != t
      ensures Kept(rt, WithState(rt, t, st), u)
    {
    }
  }

  lemma CheckBudgetServes(cfg: Config, rt: Runtime, t: Tenant, now: Time, clock: Time, r: Reads)
    requires rt.InFlight(t) > 0 && Reading(clock, r)
    ensures
      var (rt', ok) := CheckBudget(cfg, rt, t, now, r);
      && Served(cfg, rt, rt', t, clock, r.evict)
      && rt'.StateOf(t) == (if t in cfg.budgets then Prune(rt.StateOf(t), now) else rt.StateOf(t))
      && (t in cfg.budgets ==>
            ok == (&& |rt'.StateOf(t).runTimestamps| < cfg.budgets[t].maxRunsPerHour
                   && Sum(rt'.StateOf(t).tokenTimestamps, TokensOf()) < cfg.budgets[t].maxTokensPerDay))
      && (t !in cfg.budgets ==> ok)
  {
    if t in cfg.budgets {
      var rt1 := GetTenantState(cfg, rt, t, r);
      GetTenantStateServes(cfg, rt, t, clock, r);
      var st := Prune(rt1.tenantStates[t], now);
      WithStateServes(cfg, rt1, t, st, clock, r.evict);
      ServedThenServed(cfg, rt, rt1, WithState(rt1, t, st), t, clock, r.evict, r.evict);
    } else {
      assert forall u :: u != t ==> Kept(rt, rt, u);
    }
  }

  lemma CheckBudgetVerdict(cfg: Config, rt: Runtime, t: Tenant, now: Time, clock: Time, r: Reads)
    requires rt.InFlight(t) > 0 && Reading(clock, r) && t in cfg.budgets
    ensures CheckBudget(cfg, rt, t, now, r).1 ==
      (&& |Prune(rt.StateOf(t), now).runTimestamps| < cfg.budgets[t].maxRunsPerHour
       && Sum(Prune(rt.StateOf(t), now).tokenTimestamps, TokensOf()) < cfg.budgets[t].maxTokensPerDay)
  {
    GetTenantStateServes(cfg, rt, t, clock, r);
  }

  lemma IsCircuitOpenServes(cfg: Config, rt: Runtime, t: Tenant, now: Time, clock: Time, r: Reads)
    requires rt.InFlight(t) > 0 && Reading(clock, r)
    ensures
      var (rt', open) := IsCircuitOpen(cfg, rt, t, now, r);
      var st := rt.StateOf(t);
      var cooled := t in cfg.breakers && st.circuitOpenedAt.Some?
                    && now - st.circuitOpenedAt.value >= cfg.breakers[t].cooldownMs;
      && Served(cfg, rt, rt', t, clock, r.evict)
      && open == (t in cfg.breakers && st.circuitOpenedAt.Some? && !cooled)
      && rt'.StateOf(t) == (if cooled then st.(circuitOpenedAt := None) else st)
  {
    if t in cfg.breakers {
      var rt1 := GetTenantState(cfg, rt, t, r);
      GetTenantStateServes(cfg, rt, t, clock, r);
      var st := rt1.tenantStates[t].(circuitOpenedAt := None);
      WithStateServes(cfg, rt1, t, st, clock, r.evict);
      ServedThenServed(cfg, rt, rt1, WithState(rt1, t, st), t, clock, r.evict, r.evict);
    } else {
      assert forall u :: u != t ==> Kept(rt, rt, u);
    }
  }

  lemma AdmitServes(cfg: Config, rt: Runtime, t: Tenant, killed: bool, clock: Time, r: AdmitReads)
    requires rt.InFlight(t) > 0 && AdmitReading(clock, r)
    ensures Served(cfg, rt, Admit(cfg, rt, t, killed, r).0, t, clock, if killed then r.now else r.breaker.evict)
    ensures t in Admit(cfg, rt, t, killed, r).0.tenantLastActivityAt
  {
    var rt1 := Touch(rt, t, r.touch);
    TouchServes(cfg, rt, t, clock, r.touch);
    if killed {
      Later(cfg, rt, rt1, t, clock, r.touch, r.now);
    } else {
      var (rt2, within) := CheckBudget(cfg, rt1, t, r.now, r.budget);
      CheckBudgetServes(cfg, rt1, t, r.now, clock, r.budget);
      ServedThenServed(cfg, rt, rt1, rt2, t, clock, r.touch, r.budget.evict);
      IsCircuitOpenServes(cfg, rt2, t, r.now, clock, r.breaker);
      ServedThenServed(cfg, rt, rt2, IsCircuitOpen(cfg, rt2, t, r.now, r.breaker).0, t, clock,
                       r.budget.evict, r.breaker.evict);
      Later(cfg, rt, rt2, t, clock, r.budget.evict, r.breaker.evict);
    }
  }

  lemma Later(cfg: Config, rt: Runtime, rt': Runtime, t: Tenant, clock: Time, hi: Time, hi': Time)
    requires Served(cfg, rt, rt', t, clock, hi) && hi <= hi'
    ensures Served(cfg, rt, rt', t, clock, hi')
  {
    forall u | u != t
      ensures Kept(rt, rt', u) || Evicted(cfg, rt, rt', u, hi')
    {
      assert Kept(rt, rt', u) || Evicted(cfg, rt, rt', u, hi);
    }
  }

  lemma RecordRunServes(cfg: Config, rt: Runtime, t: Tenant, now: Time, tokens: int, clock: Time, r: Reads)
    requires rt.InFlight(t) > 0 && Reading(clock, r)
    ensures
      var rt' := RecordRun(cfg, rt, t, now, tokens, r);
      var st := Prune(rt.StateOf(t), now);
      && Served(cfg, rt, rt', t, clock, r.evict)
      && rt'.StateOf(t).consecutiveFailures == rt.StateOf(t).consecutiveFailures
      && rt'.StateOf(t).circuitOpenedAt == rt.StateOf(t).circuitOpenedAt
      && (t in cfg.budgets ==>
            && rt'.StateOf(t).runTimestamps == st.runTimestamps + [now]
            && rt'.StateOf(t).tokenTimestamps ==
                 (if tokens > 0 then st.tokenTimestamps + [TokenEntry(tokens, now)] else st.tokenTimestamps)
            && t in rt'.tenantLastActivityAt && rt'.tenantLastActivityAt[t] == r.touch)
      && (t !in cfg.budgets ==> rt' == rt)
  {
    if t in cfg.budgets {
      var rt1 := GetTenantState(cfg, rt, t, r);
      GetTenantStateServes(cfg, rt, t, clock, r);
      var rt' := RecordRun(cfg, rt, t, now, tokens, r);
      WithStateServes(cfg, rt1, t, rt'.tenantStates[t], clock, r.evict);
      ServedThenServed(cfg, rt, rt1, rt', t, clock, r.evict, r.evict);
    } else {
      assert forall u :: u != t ==> Kept(rt, rt, u);
    }
  }

  lemma RecordFailureServes(cfg: Config, rt: Runtime, t: Tenant, now: Time, clock: Time, r: Reads)
    requires rt.InFlight(t) > 0 && Reading(clock, r)
    ensures
      var rt' := RecordFailure(cfg, rt, t, now, r);
      var n := rt.StateOf(t).consecutiveFailures + 1;
      && Served(cfg, rt, rt', t, clock, r.evict)
      && t in rt'.tenantLastActivityAt && rt'.tenantLastActivityAt[t] == r.touch
      && rt'.StateOf(t) == rt.StateOf(t).(
           consecutiveFailures := n,
           circuitOpenedAt := if Trips(cfg, t, n) then Some(now) else rt.StateOf(t).circuitOpenedAt)
  {
    var rt1 := GetTenantState(cfg, rt, t, r);
    GetTenantStateServes(cfg, rt, t, clock, r);
    var rt' := RecordFailure(cfg, rt, t, now, r);
    WithStateServes(cfg, rt1, t, rt'.tenantStates[t], clock, r.evict);
    ServedThenServed(cfg, rt, rt1, rt', t, clock, r.evict, r.evict);
  }

  lemma RecordSuccessServes(cfg: Config, rt: Runtime, t: Tenant, clock: Time, r: Reads)
    requires rt.InFlight(t) > 0 && Reading(clock, r)
    ensures
      var rt' := RecordSuccess(cfg, rt, t, r);
      && Served(cfg, rt, rt', t, clock, r.evict)
      && rt'.StateOf(t) == rt.StateOf(t).(consecutiveFailures := 0)
  {
    var rt1 := GetTenantState(cfg, rt, t, r);
    GetTenantStateServes(cfg, rt, t, clock, r);
    var rt' := RecordSuccess(cfg, rt, t, r);
    WithStateServes(cfg, rt1, t, rt'.tenantStates[t], clock, r.evict);
    ServedThenServed(cfg, rt, rt1, rt', t, clock, r.evict, r.evict);
  }

  lemma Earlier(cfg: Config, rt: Runtime, rt': Runtime, t: Tenant, clock: Time, clock': Time, hi: Time)
    requires Served(cfg, rt, rt', t, clock', hi) && clock <= clock'
    ensures Served(cfg, rt, rt', t, clock, hi)
  {
    forall u | u != t
      ensures Kept(rt, rt', u) || Evicted(cfg, rt, rt', u, hi)
    {
    }
  }
}
