/** AgentRuntime as the object it is: fields updated in place, method by method. Each method
    covers one synchronous stretch of the source's method and is proved against RuntimeState. */
module RuntimeClass {
  import opened Seqs
  import S = RuntimeState
  import Q = RuntimeQueue

  type Tenant = S.Tenant
  type Time = S.Time

  lemma RemoveOneMore<V>(m: map<Tenant, V>, gone: set<Tenant>, id: Tenant)
    ensures m - gone - {id} == m - (gone + {id})
  {
  }

  lemma DropOneMore<T>(s: seq<T>, i: nat)
    requires i < |s|
    ensures s[i..][1..] == s[i + 1..]
  {
  }

  predicate EndsWith<T(==)>(s: seq<T>, x: T) {
    s != [] && s[|s| - 1] == x
  }

  class AgentRuntime {
    const cfg: S.Config
    var running: bool
    var heartbeatHandle: Option<Tenant>
    var processingEvents: bool
    var eventQueue: seq<Tenant>
    var pendingHeartbeatRuns: set<Tenant>
    var tenantLocks: map<Tenant, S.CallId>
    var inFlightRunCount: map<Tenant, int>
    var tenantLastActivityAt: map<Tenant, Time>
    var tenantStates: map<Tenant, S.TenantState>

    ghost function View(): S.Runtime
      reads this
    {
      S.Runtime(running, heartbeatHandle, processingEvents, eventQueue, pendingHeartbeatRuns, tenantLocks,
                inFlightRunCount, tenantLastActivityAt, tenantStates)
    }

    constructor (cfg: S.Config)
      ensures this.cfg == cfg && View() == S.STOPPED
    {
      this.cfg := cfg;
      running, heartbeatHandle, processingEvents := false, None, false;
      eventQueue, pendingHeartbeatRuns := [], {};
      tenantLocks, inFlightRunCount, tenantLastActivityAt, tenantStates := map[], map[], map[], map[];
    }

    // -------------------------------------------------------------- tenants

    method TouchTenant(t: Tenant, at: Time)
      modifies this
      ensures View() == S.Touch(old(View()), t, at)
    {
      tenantLastActivityAt := tenantLastActivityAt[t := at];
    }

    ghost function IdleAmong(rt: S.Runtime, seen: set<Tenant>, now: Time): set<Tenant> {
      set u | u in seen && S.Idle(cfg, rt, u, now)
    }

    lemma IdleAmongOneMore(rt: S.Runtime, seen: set<Tenant>, now: Time, id: Tenant)
      ensures IdleAmong(rt, seen + {id}, now) == IdleAmong(rt, seen, now) + if S.Idle(cfg, rt, id, now) then {id} else {}
    {
    }

    method EvictIdleTenants(now: Time)
      modifies this
      ensures View() == S.EvictIdleTenants(cfg, old(View()), now)
    {
      ghost var before := View();
      if !cfg.Evicts() {
        assert S.IdleTenants(cfg, before, now) == {};
        return;
      }
      var cutoff := now - cfg.tenantIdleEvictionMs.value;
      var entries := tenantLastActivityAt;
      var ids := entries.Keys;
      ghost var gone: set<Tenant> := {};
      while ids != {}
        invariant ids <= entries.Keys
        invariant gone == IdleAmong(before, entries.Keys - ids, now)
        invariant tenantStates == before.tenantStates - gone
        invariant tenantLocks == before.tenantLocks - gone
        invariant tenantLastActivityAt == before.tenantLastActivityAt - gone
        invariant View() == before.(tenantStates := tenantStates, tenantLocks := tenantLocks,
                                    tenantLastActivityAt := tenantLastActivityAt)
        decreases ids
      {
        var id :| id in ids;
        assert entries.Keys - (ids - {id}) - {id} == entries.Keys - ids;
        ids := ids - {id};
        var inFlight := if id in inFlightRunCount then inFlightRunCount[id] else 0;
        IdleAmongOneMore(before, entries.Keys - ids - {id}, now, id);
        assert entries.Keys - ids == (entries.Keys - ids - {id}) + {id};
        RemoveOneMore(before.tenantStates, gone, id);
        RemoveOneMore(before.tenantLocks, gone, id);
        RemoveOneMore(before.tenantLastActivityAt, gone, id);
        assert (entries[id] < cutoff && inFlight == 0) == S.Idle(cfg, before, id, now);
        if entries[id] < cutoff && inFlight == 0 {
          tenantStates := tenantStates - {id};
          tenantLocks := tenantLocks - {id};
          tenantLastActivityAt := tenantLastActivityAt - {id};
          gone := gone + {id};
        }
      }
      assert entries.Keys - {} == entries.Keys;
    }

    method GetTenantState(t: Tenant, r: S.Reads) returns (state: S.TenantState)
      modifies this
      ensures View() == S.GetTenantState(cfg, old(View()), t, r)
      ensures t in tenantStates && state == tenantStates[t]
      ensures t in old(inFlightRunCount) && old(inFlightRunCount)[t] > 0 ==> state == old(View()).StateOf(t)
    {
      TouchTenant(t, r.touch);
      EvictIdleTenants(r.evict);
      if t !in tenantStates {
        tenantStates := tenantStates[t := S.FRESH_TENANT];
      }
      state := tenantStates[t];
    }

    // -------------------------------------------------------------- ledgers and breaker

    method CheckBudget(t: Tenant, now: Time, r: S.Reads) returns (within: bool)
      modifies this
      ensures (View(), within) == S.CheckBudget(cfg, old(View()), t, now, r)
    {
      if t !in cfg.budgets {
        return true;
      }
      var budget := cfg.budgets[t];
      var state := GetTenantState(t, r);
      state := S.Prune(state, now);
      tenantStates := tenantStates[t := state];
      if |state.runTimestamps| >= budget.maxRunsPerHour {
        return false;
      }
      var tokensLast24h := 0;
      for i := 0 to |state.tokenTimestamps|
        invariant tokensLast24h == Sum(state.tokenTimestamps[..i], S.TokensOf())
      {
        assert state.tokenTimestamps[..i + 1][..i] == state.tokenTimestamps[..i];
        tokensLast24h := tokensLast24h + state.tokenTimestamps[i].tokens;
      }
      assert state.tokenTimestamps[..|state.tokenTimestamps|] == state.tokenTimestamps;
      within := tokensLast24h < budget.maxTokensPerDay;
    }

    method IsCircuitOpen(t: Tenant, now: Time, r: S.Reads) returns (open: bool)
      modifies this
      ensures (View(), open) == S.IsCircuitOpen(cfg, old(View()), t, now, r)
      ensures open ==> t in cfg.breakers && t in tenantStates && tenantStates[t].circuitOpenedAt.Some?
                       && now - tenantStates[t].circuitOpenedAt.value < cfg.breakers[t].cooldownMs
      ensures !open && t in cfg.breakers ==> t in tenantStates && tenantStates[t].circuitOpenedAt == None
    {
      if t !in cfg.breakers {
        return false;
      }
      var state := GetTenantState(t, r);
      if state.circuitOpenedAt == None {
        return false;
      }
      if now - state.circuitOpenedAt.value >= cfg.breakers[t].cooldownMs {
        tenantStates := tenantStates[t := state.(circuitOpenedAt := None)];
        return false;
      }
      return true;
    }

    method RecordRun(t: Tenant, now: Time, tokensUsed: int, r: S.Reads)
      modifies this
      ensures View() == S.RecordRun(cfg, old(View()), t, now, tokensUsed, r)
      ensures t !in cfg.budgets ==> View() == old(View())
      ensures t in cfg.budgets ==> t in tenantStates && EndsWith(tenantStates[t].runTimestamps, now)
      ensures t in cfg.budgets && tokensUsed > 0 ==>
                EndsWith(tenantStates[t].tokenTimestamps, S.TokenEntry(tokensUsed, now))
    {
      if t !in cfg.budgets {
        return;
      }
      var state := GetTenantState(t, r);
      state := S.Prune(state, now);
      state := state.(runTimestamps := state.runTimestamps + [now]);
      if tokensUsed > 0 {
        state := state.(tokenTimestamps := state.tokenTimestamps + [S.TokenEntry(tokensUsed, now)]);
      }
      tenantStates := tenantStates[t := state];
    }

    method RecordFailure(t: Tenant, now: Time, r: S.Reads)
      modifies this
      ensures View() == S.RecordFailure(cfg, old(View()), t, now, r)
      ensures t in tenantStates && tenantStates[t].consecutiveFailures > 0
      ensures S.Trips(cfg, t, tenantStates[t].consecutiveFailures) ==> tenantStates[t].circuitOpenedAt == Some(now)
      ensures t in old(inFlightRunCount) && old(inFlightRunCount)[t] > 0 ==>
                tenantStates[t].consecutiveFailures == old(View()).StateOf(t).consecutiveFailures + 1
    {
      var state := GetTenantState(t, r);
      state := state.(consecutiveFailures := state.consecutiveFailures + 1);
      if t in cfg.breakers && state.consecutiveFailures >= cfg.breakers[t].failureThreshold {
        state := state.(circuitOpenedAt := Some(now));
      }
      tenantStates := tenantStates[t := state];
    }

    method RecordSuccess(t: Tenant, r: S.Reads)
      modifies this
      ensures View() == S.RecordSuccess(cfg, old(View()), t, r)
      ensures t in tenantStates && tenantStates[t].consecutiveFailures == 0
      ensures t in old(inFlightRunCount) && old(inFlightRunCount)[t] > 0 ==>
                tenantStates[t].circuitOpenedAt == old(View()).StateOf(t).circuitOpenedAt
    {
      var state := GetTenantState(t, r);
      tenantStates := tenantStates[t := state.(consecutiveFailures := 0)];
    }

    /** doExecuteRun up to its first await. */
    method BeginRun(t: Tenant, killed: bool, r: S.AdmitReads) returns (verdict: S.Verdict)
      modifies this
      ensures (View(), verdict) == S.Admit(cfg, old(View()), t, killed, r)
      ensures verdict == S.KillSwitch <==> killed
      ensures verdict == S.KillSwitch ==> tenantStates == old(tenantStates) && tenantLocks == old(tenantLocks)
      ensures verdict == S.OverBudget ==> t in cfg.budgets
      ensures verdict == S.CircuitOpen ==>
                t in cfg.breakers && t in tenantStates && tenantStates[t].circuitOpenedAt.Some?
                && r.now - tenantStates[t].circuitOpenedAt.value < cfg.breakers[t].cooldownMs
      ensures verdict == S.Admitted && t in cfg.breakers ==> t in tenantStates && tenantStates[t].circuitOpenedAt == None
    {
      TouchTenant(t, r.touch);
      if killed {
        return S.KillSwitch;
      }
      var within := CheckBudget(t, r.now, r.budget);
      if !within {
        return S.OverBudget;
      }
      var open := IsCircuitOpen(t, r.now, r.breaker);
      return if open then S.CircuitOpen else S.Admitted;
    }

    // -------------------------------------------------------------- executeRun and its lock

    /** executeRun and withTenantLock up to `await previous`. */
    method ExecuteRun(t: Tenant, id: S.CallId) returns (a: S.Arrival)
      modifies this
      ensures (View(), a) == S.Arrive(old(View()), t, id)
      ensures t in tenantLocks && tenantLocks[t] == id && tenantLocks - {t} == old(tenantLocks) - {t}
      ensures a.prev == if t in old(tenantLocks) then Some(old(tenantLocks)[t]) else None
      ensures View().InFlight(t) == old(View().InFlight(t)) + 1 && inFlightRunCount - {t} == old(inFlightRunCount) - {t}
    {
      var prev := if t in inFlightRunCount then inFlightRunCount[t] else 0;
      inFlightRunCount := inFlightRunCount[t := prev + 1];
      a := S.Arrival(t, if t in tenantLocks then Some(tenantLocks[t]) else None);
      tenantLocks := tenantLocks[t := id];
    }

    /** The finally block of executeRun. */
    method SettleRun(t: Tenant)
      modifies this
      ensures View() == S.Depart(old(View()), t)
      ensures old(View().InFlight(t)) > 0 ==> View().InFlight(t) == old(View().InFlight(t)) - 1
      ensures t in inFlightRunCount ==> inFlightRunCount[t] > 0
      ensures inFlightRunCount - {t} == old(inFlightRunCount) - {t}
    {
      var n := (if t in inFlightRunCount then inFlightRunCount[t] else 0) - 1;
      if n <= 0 {
        inFlightRunCount := inFlightRunCount - {t};
      } else {
        inFlightRunCount := inFlightRunCount[t := n];
      }
    }

    // -------------------------------------------------------------- heartbeat and events

    method Start(t: Tenant)
      modifies this
      ensures View() == S.Start(old(View()), t)
    {
      if running {
        return;
      }
      running := true;
      heartbeatHandle := Some(t);
    }

    method Stop()
      modifies this
      ensures View() == S.Stop(old(View()))
    {
      running := false;
      eventQueue := [];
      if heartbeatHandle != None {
        heartbeatHandle := None;
      }
    }

    method EmitEvent(t: Tenant, at: Time, id: S.CallId) returns (a: Option<S.Arrival>)
      requires cfg.Valid()
      modifies this
      ensures (View(), a) == S.EmitEvent(cfg, old(View()), t, at, id)
      ensures !old(running) ==> a.None? && View() == old(View())
      ensures old(running) && old(processingEvents) ==>
                a.None? && eventQueue == Q.LastOf(Q.Coalesce(old(eventQueue), t), cfg.maxEventQueueSize)
      ensures old(running) && !old(processingEvents) && old(eventQueue) == [] && t != "" ==>
                a.Some? && a.value.tenant == t && eventQueue == []
    {
      if !running {
        return None;
      }
      TouchTenant(t, at);
      var others := Filter(eventQueue, S.NotTenant(t));
      eventQueue := others;
      ghost var touched, dropped := S.Touch(old(View()), t, at), 0;
      while |eventQueue| >= cfg.maxEventQueueSize
        invariant 0 <= dropped <= |others| && eventQueue == others[dropped..]
        invariant dropped == 0 || |eventQueue| >= cfg.maxEventQueueSize - 1
        invariant View() == touched.(eventQueue := eventQueue)
        decreases |eventQueue|
      {
        DropOneMore(others, dropped);
        eventQueue, dropped := eventQueue[1..], dropped + 1;
      }
      Q.DroppedIsEnqueued(old(eventQueue), t, cfg.maxEventQueueSize, dropped);
      ghost var queued := S.Enqueue(old(eventQueue), t, cfg.maxEventQueueSize);
      eventQueue := eventQueue + [t];
      assert View() == touched.(eventQueue := queued);
      a := ProcessEventQueue(id);
      assert old(eventQueue) == [] && t != "" ==> Q.Next(queued, 0);
    }

    method ProcessEventQueue(id: S.CallId) returns (a: Option<S.Arrival>)
      modifies this
      ensures (View(), a) == S.ProcessEventQueue(old(View()), id)
      ensures forall k: nat :: old(running) && !old(processingEvents) && Q.Next(old(eventQueue), k) ==>
                a.Some? && a.value.tenant == old(eventQueue)[k] && eventQueue == old(eventQueue)[k + 1..]
      ensures !old(running) || old(processingEvents) ==> a.None? && View() == old(View())
    {
      if !running || processingEvents || eventQueue == [] {
        return None;
      }
      processingEvents := true;
      a := ContinueWorker(id);
    }

    /** The worker loop from its head to its next await, or to the end of processEventQueue. */
    method ContinueWorker(id: S.CallId) returns (a: Option<S.Arrival>)
      modifies this
      ensures (View(), a) == S.Pump(old(View()), id)
      ensures forall k: nat :: old(running) && Q.Next(old(eventQueue), k) ==>
                a.Some? && a.value.tenant == old(eventQueue)[k] && eventQueue == old(eventQueue)[k + 1..]
      ensures !old(running) || Q.NamesNone(old(eventQueue)) ==>
                a.None? && eventQueue == [] && !processingEvents
      ensures running == old(running)
    {
      ghost var passed := 0;
      while running && eventQueue != []
        invariant S.Pump(View(), id) == S.Pump(old(View()), id) && running == old(running)
        invariant 0 <= passed <= |old(eventQueue)| && eventQueue == old(eventQueue)[passed..]
        invariant forall i :: 0 <= i < passed ==> old(eventQueue)[i] == ""
        decreases |eventQueue|
      {
        var t := eventQueue[0];
        assert t == old(eventQueue)[passed];
        DropOneMore(old(eventQueue), passed);
        eventQueue, passed := eventQueue[1..], passed + 1;
        if t != "" {
          Q.NextIsUnique(old(eventQueue), passed - 1);
          var arrival := ExecuteRun(t, id);
          return Some(arrival);
        }
      }
      if !running {
        eventQueue := [];
      }
      processingEvents := false;
      return None;
    }

    method ScheduleRun(t: Tenant, at: Time, id: S.CallId) returns (a: Option<S.Arrival>)
      modifies this
      ensures (View(), a) == S.ScheduleRun(old(View()), t, at, id)
      ensures a.Some? <==> old(running) && t !in old(pendingHeartbeatRuns)
      ensures pendingHeartbeatRuns == if a.Some? then old(pendingHeartbeatRuns) + {t} else old(pendingHeartbeatRuns)
      ensures a.Some? ==> t in tenantLocks && tenantLocks[t] == id && View().InFlight(t) == old(View().InFlight(t)) + 1
      ensures a.None? ==> View() == old(View())
    {
      if !running {
        return None;
      }
      if t in pendingHeartbeatRuns {
        return None;
      }
      TouchTenant(t, at);
      pendingHeartbeatRuns := pendingHeartbeatRuns + {t};
      var arrival := ExecuteRun(t, id);
      return Some(arrival);
    }
  }
}
