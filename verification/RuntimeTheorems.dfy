/** What AgentRuntime guarantees in every finite run, for every configuration, provider
    behaviour, timer outcome, clock and interleaving. */
module RuntimeTheorems {
  import opened Seqs
  import opened RuntimeState
  import opened RuntimeWorld
  import opened RuntimeServing
  import opened RuntimeQueue
  import opened RuntimeLocks
  import opened RuntimeLedger
  import opened RuntimeCharges
  import opened RuntimeBudgets
  import opened RuntimeBreaker
  import opened RuntimeStreaks

  // ---------------------------------------------------------------- one run at a time, in order

  /** Tenants are served serially: two doExecuteRun bodies of one tenant never overlap,
      and bodies are entered in the order the calls arrived. */
  lemma TenantsAreServedSerially(cfg: Config, start: Time, ls: seq<Label>, d: CallId, c: CallId)
    requires cfg.Valid() && Run(cfg, start, ls).Some?
    requires d < c < |Run(cfg, start, ls).value.calls|
    requires Run(cfg, start, ls).value.calls[d].tenant == Run(cfg, start, ls).value.calls[c].tenant
    ensures var calls := Run(cfg, start, ls).value.calls;
            && !(calls[d].InBody() && calls[c].InBody())
            && (!calls[c].phase.Waiting? ==> calls[d].HasReleased())
  {
    RunIsSafe(cfg, start, ls);
    var calls := Run(cfg, start, ls).value.calls;
    assert calls[c].phase.Waiting? || EarlierReleased(calls, c);
  }

  /** The promise chain neither admits early nor blocks for ever: a call's turn has come exactly
      when every earlier call of its tenant has released the lock. */
  lemma LockIsFifo(cfg: Config, start: Time, ls: seq<Label>, c: CallId)
    requires cfg.Valid() && Run(cfg, start, ls).Some? && c < |Run(cfg, start, ls).value.calls|
    ensures var w := Run(cfg, start, ls).value;
            MayEnter(w, c) <==>
            forall d :: 0 <= d < c && w.calls[d].tenant == w.calls[c].tenant ==> w.calls[d].HasReleased()
  {
    RunIsSafe(cfg, start, ls);
    MayEnterIff(Run(cfg, start, ls).value, c);
  }

  /** Eviction never drops a lock that has a holder or a waiter, nor the state of such a tenant. */
  lemma EvictionSparesLiveTenants(cfg: Config, start: Time, ls: seq<Label>, l: Label, c: CallId)
    requires cfg.Valid() && Run(cfg, start, ls).Some? && Enabled(cfg, Run(cfg, start, ls).value, l)
    requires c < |Run(cfg, start, ls).value.calls| && !Run(cfg, start, ls).value.calls[c].Gone()
    ensures var w := Run(cfg, start, ls).value;
            var t := w.calls[c].tenant;
            && t in w.rt.tenantLocks && t in Step(cfg, w, l).rt.tenantLocks
            && (t in w.rt.tenantStates ==> t in Step(cfg, w, l).rt.tenantStates)
  {
    RunKeepsRuntimeInv(cfg, start, ls);
    var w := Run(cfg, start, ls).value;
    var w', t := Step(cfg, w, l), w.calls[c].tenant;
    ActiveTenant(w, c);
    if IsBodyLabel(l) {
      BodyStepMoves(cfg, w, l);
      assert t == w.calls[l.c].tenant || Kept(w.rt, w'.rt, t) || Evicted(cfg, w.rt, w'.rt, t, w'.clock);
    } else {
      StepKeepsLocks(cfg, w, l, t);
      StepIsQuiet(cfg, w, l);
    }
  }

  lemma {:induction false} PumpKeepsLocks(rt: Runtime, id: CallId, t: Tenant)
    requires t in rt.tenantLocks
    ensures t in Pump(rt, id).0.tenantLocks
    decreases |rt.eventQueue|
  {
    if rt.running && rt.eventQueue != [] && rt.eventQueue[0] == "" {
      PumpKeepsLocks(rt.(eventQueue := rt.eventQueue[1..]), id, t);
    }
  }

  lemma StepKeepsLocks(cfg: Config, w: World, l: Label, t: Tenant)
    requires cfg.Valid() && Enabled(cfg, w, l) && !IsBodyLabel(l) && t in w.rt.tenantLocks
    ensures t in Step(cfg, w, l).rt.tenantLocks
  {
    PumpKeepsLocks(w.rt, |w.calls|, t);
    if l.Emit? {
      var rt1 := Touch(w.rt, l.tenant, l.at);
      PumpKeepsLocks(rt1.(eventQueue := Enqueue(rt1.eventQueue, l.tenant, cfg.maxEventQueueSize), processingEvents := true),
                     |w.calls|, t);
    }
  }

  /** The oldest call of a tenant that still holds or awaits the lock can always take a step. */
  lemma OldestCallCanMove(cfg: Config, start: Time, ls: seq<Label>, c: CallId)
    requires cfg.Valid() && Run(cfg, start, ls).Some? && c < |Run(cfg, start, ls).value.calls|
    requires !Run(cfg, start, ls).value.calls[c].HasReleased()
    requires EarlierReleased(Run(cfg, start, ls).value.calls, c)
    ensures exists l :: Enabled(cfg, Run(cfg, start, ls).value, l) && (l.Release? || l.HoldOver? || IsBodyLabel(l)) && l.c == c
  {
    RunKeepsRuntimeInv(cfg, start, ls);
    var w := Run(cfg, start, ls).value;
    var k, r := w.calls[c], Reads(w.clock, w.clock);
    assert Shaped(cfg, k);
    MayEnterIff(w, c);
    var l :=
      match k.phase
      case Waiting => Enter(c, false, AdmitReads(w.clock, w.clock, r, r))
      case Racing =>
        if k.provider.Resolved? then RaceResolved(c, r, r)
        else if k.provider.Rejected? then RaceRejected(c, r) else RaceTimedOut(c, r)
      case Late => LateRecorded(c, r)
      case Grace => if k.provider.Pending? then GraceExpired(c, r) else GraceSettled(c, r)
      case Hold => HoldOver(c)
      case _ => Release(c);
    assert Enabled(cfg, w, l);
  }

  // ---------------------------------------------------------------- bounded concurrency, no lost wakeup

  /** At most two calls of a tenant are in flight: one from the heartbeat and one from the event worker. */
  lemma AtMostTwoInFlight(cfg: Config, start: Time, ls: seq<Label>, t: Tenant)
    requires cfg.Valid() && Run(cfg, start, ls).Some?
    ensures Run(cfg, start, ls).value.rt.InFlight(t) <= 2
  {
    RunIsSafe(cfg, start, ls);
    var w := Run(cfg, start, ls).value;
    ActiveBound(w.calls, t);
  }

  lemma {:induction false} ActiveBound(calls: seq<Call>, t: Tenant)
    ensures Sum(calls, Active(t)) <= Sum(calls, Heartbeats(t)) + Sum(calls, Events())
  {
    if calls != [] {
      ActiveBound(calls[..|calls| - 1], t);
    }
  }

  /** One event worker at most, and whenever the runtime is on with events queued, it is at work:
      it awaits an unfinished call, whose finishing makes it take the next event. */
  lemma NoLostWakeup(cfg: Config, start: Time, ls: seq<Label>)
    requires cfg.Valid() && Run(cfg, start, ls).Some?
    ensures var w := Run(cfg, start, ls).value;
            && (w.rt.running && w.rt.eventQueue != [] ==> w.rt.processingEvents)
            && (w.rt.processingEvents <==>
                  exists c :: 0 <= c < |w.calls| && w.calls[c].origin.Event? && !w.calls[c].phase.Finished?)
            && (forall d, c :: 0 <= d < c < |w.calls| && w.calls[d].origin.Event? && w.calls[c].origin.Event?
                  ==> w.calls[d].phase.Finished? || w.calls[c].phase.Finished?)
            && |w.rt.eventQueue| <= cfg.maxEventQueueSize && NoDuplicates(w.rt.eventQueue)
  {
    RunIsSafe(cfg, start, ls);
    var w := Run(cfg, start, ls).value;
    if forall c :: 0 <= c < |w.calls| ==> Events()(w.calls[c]) == 0 {
      SumZero(w.calls, Events());
    } else {
      var c :| 0 <= c < |w.calls| && Events()(w.calls[c]) != 0;
      SumAtLeast(w.calls, Events(), c);
    }
    forall d, c | 0 <= d < c < |w.calls| && w.calls[d].origin.Event? && w.calls[c].origin.Event?
      ensures w.calls[d].phase.Finished? || w.calls[c].phase.Finished?
    {
      SumAtLeastTwo(w.calls, Events(), d, c);
    }
  }

  // ---------------------------------------------------------------- charges

  /** By the time its lock is released, every run that started has reached recordRun exactly once: with
      the configured charge if the provider stayed unsettled through the grace period, else with what
      the provider reported; a run that was blocked never reaches it. (For a tenant without a
      budget recordRun itself records nothing, see RecordRunServes.) */
  lemma ChargedExactlyOnce(cfg: Config, start: Time, ls: seq<Label>, c: CallId)
    requires cfg.Valid() && Run(cfg, start, ls).Some? && c < |Run(cfg, start, ls).value.calls|
    requires Run(cfg, start, ls).value.calls[c].HasReleased()
    ensures var k := Run(cfg, start, ls).value.calls[c];
            if k.startedAt.None? then k.charges == []
            else if k.graceExpired then k.charges == [cfg.runTimeoutChargeTokens]
            else
              match k.provider
              case Pending => false
              case Resolved(_, Some(n)) => k.charges == [n]
              case Resolved(_, None) => k.charges == [0]
              case Rejected => k.charges == [0]
  {
    RunKeepsRuntimeInv(cfg, start, ls);
    assert Shaped(cfg, Run(cfg, start, ls).value.calls[c]);
  }

  // ---------------------------------------------------------------- budgets

  /** Every budget decision of every run is the one the full history gives. */
  ghost predicate BudgetsSeeEverything(cfg: Config)
    requires cfg.Valid()
  {
    forall start, ls, c, r :: DecisionSeesEverything(cfg, start, ls, c, r)
  }

  predicate DecisionSeesEverything(cfg: Config, start: Time, ls: seq<Label>, c: CallId, r: AdmitReads)
    requires cfg.Valid()
  {
    var w := Run(cfg, start, ls);
    w.Some? && Enabled(cfg, w.value, Enter(c, false, r)) && w.value.calls[c].tenant in cfg.budgets ==>
      (BudgetDecision(cfg, w.value, w.value.calls[c].tenant, r) <==>
       HistoryAdmits(cfg, w.value.calls, w.value.calls[c].tenant, r.now))
  }

  lemma LongEvictionIsInvisible(cfg: Config, start: Time, ls: seq<Label>, c: CallId, r: AdmitReads)
    requires cfg.Valid() && cfg.Keeps(86400000.0)
    ensures DecisionSeesEverything(cfg, start, ls, c, r)
  {
    var w := Run(cfg, start, ls);
    if w.Some? && Enabled(cfg, w.value, Enter(c, false, r)) && w.value.calls[c].tenant in cfg.budgets {
      RunKeepsRuntimeInv(cfg, start, ls);
      DecisionIsHistory(cfg, w.value, c, r);
    }
  }

  /** In any half-open hour at most maxRunsPerHour runs of a tenant start. */
  lemma RollingRunBudget(cfg: Config, start: Time, ls: seq<Label>, t: Tenant, lo: Time)
    requires cfg.Valid() && cfg.Keeps(3600000.0) && Run(cfg, start, ls).Some? && t in cfg.budgets
    ensures var started := Sum(Run(cfg, start, ls).value.calls, StartedIn(t, lo, lo + 3600000.0));
            started == 0 || started <= cfg.budgets[t].maxRunsPerHour
  {
    var calls := Run(cfg, start, ls).value.calls;
    RunAdmits(cfg, start, ls);
    RunsInWindow(cfg, calls, |calls|, t, lo);
    assert calls[..|calls|] == calls;
  }

  /** In any half-open day a tenant's runs are charged less than maxTokensPerDay plus the charge of
      the last of them. */
  lemma RollingTokenBudget(cfg: Config, start: Time, ls: seq<Label>, t: Tenant, lo: Time)
    requires cfg.Valid() && cfg.Keeps(86400000.0) && Run(cfg, start, ls).Some? && t in cfg.budgets
    ensures var calls := Run(cfg, start, ls).value.calls;
            var spent := Sum(calls, SpentIn(t, lo, lo + 86400000.0));
            || spent == 0
            || exists c: CallId ::
                 && LastInWindow(calls, |calls|, t, lo, lo + 86400000.0, c)
                 && spent < cfg.budgets[t].maxTokensPerDay + Spent(calls[c])
  {
    var calls := Run(cfg, start, ls).value.calls;
    RunAdmits(cfg, start, ls);
    TokensInWindow(cfg, calls, |calls|, t, lo);
    assert calls[..|calls|] == calls;
  }

  // ---------------------------------------------------------------- circuit breaker

  /** The failure counter is exactly the trailing streak of failed runs since the tenant's state was
      last created, whatever is evicted in between; and without eviction it is the whole streak. */
  lemma CounterIsStreakSinceCreation(cfg: Config, start: Time, ls: seq<Label>, t: Tenant)
    requires cfg.Valid() && Run(cfg, start, ls).Some?
    ensures var w, b := Run(cfg, start, ls).value, Born(cfg, start, ls, t);
            && (t in w.rt.tenantStates ==>
                  b < |w.calls| && w.calls[b].tenant == t && w.rt.StateOf(t).consecutiveFailures == Streak(w.calls[b..], t))
            && (t !in w.rt.tenantStates ==> w.rt.StateOf(t).consecutiveFailures == 0)
            && (!cfg.Evicts() ==> w.rt.StateOf(t).consecutiveFailures == Streak(w.calls, t))
  {
    RunCounts(cfg, start, ls, t);
    RunKeepsBreakers(cfg, start, ls);
    assert BreakerOf(cfg, Run(cfg, start, ls).value.rt.StateOf(t), Run(cfg, start, ls).value.calls, t);
  }

  /** While no run of the tenant races its provider, the breaker is open exactly when the streak of
      failed runs since the tenant's state was last created has reached the threshold. */
  lemma BreakerOpensAtThreshold(cfg: Config, start: Time, ls: seq<Label>, t: Tenant)
    requires cfg.Valid() && Run(cfg, start, ls).Some?
    requires t in cfg.breakers && cfg.breakers[t].failureThreshold >= 1
    requires !IsRacing(Run(cfg, start, ls).value.calls, t)
    ensures var w, b := Run(cfg, start, ls).value, Born(cfg, start, ls, t);
            var st := w.rt.StateOf(t);
            && (st.circuitOpenedAt.Some? <==> st.consecutiveFailures >= cfg.breakers[t].failureThreshold)
            && (t in w.rt.tenantStates ==> b < |w.calls| && st.consecutiveFailures == Streak(w.calls[b..], t))
            && (t !in w.rt.tenantStates ==> st.consecutiveFailures == 0)
            && st.consecutiveFailures <= Streak(w.calls, t)
            && (!cfg.Evicts() ==> st.consecutiveFailures == Streak(w.calls, t))
  {
    RunKeepsBreakers(cfg, start, ls);
    CounterIsStreakSinceCreation(cfg, start, ls, t);
    assert BreakerOf(cfg, Run(cfg, start, ls).value.rt.StateOf(t), Run(cfg, start, ls).value.calls, t);
  }

  predicate DecidesRace(l: Label, c: CallId) {
    (l.RaceResolved? || l.RaceRejected? || l.RaceTimedOut?) && l.c == c
  }

  /** While the failure count is at the threshold, as it stays after a recovery, the next run decides
      alone: the breaker is open after it exactly if it fails, and the count is reset if it does not. */
  lemma TrialRunDecides(cfg: Config, start: Time, ls: seq<Label>, l: Label, c: CallId)
    requires cfg.Valid() && Run(cfg, start, ls).Some? && Enabled(cfg, Run(cfg, start, ls).value, l) && DecidesRace(l, c)
    requires
      var w := Run(cfg, start, ls).value;
      var t := w.calls[c].tenant;
      && t in cfg.breakers && cfg.breakers[t].failureThreshold >= 1
      && w.rt.StateOf(t).consecutiveFailures >= cfg.breakers[t].failureThreshold
    ensures
      var w := Run(cfg, start, ls).value;
      var st := Step(cfg, w, l).rt.StateOf(w.calls[c].tenant);
      var succeeds := l.RaceResolved? && !w.calls[c].provider.failed;
      (st.circuitOpenedAt.Some? <==> !succeeds) && (succeeds ==> st.consecutiveFailures == 0)
  {
    RunKeepsBreakers(cfg, start, ls);
    RunKeepsRuntimeInv(cfg, start, ls);
    var w := Run(cfg, start, ls).value;
    var t, now := w.calls[c].tenant, w.calls[c].StartTime();
    ActiveTenant(w, c);
    assert BreakerOf(cfg, w.rt.StateOf(t), w.calls, t) && IsRacing(w.calls, t);
    match l
    case RaceResolved(_, r, r') =>
      RecordRunServes(cfg, w.rt, t, now, w.calls[c].ReportedTokens(), w.clock, r);
      var rt1 := Record(cfg, w, c, Racing, w.calls[c].ReportedTokens(), r).rt;
      RecordFailureServes(cfg, rt1, t, now, w.clock, r');
      RecordSuccessServes(cfg, rt1, t, w.clock, r');
    case RaceRejected(_, r) => RecordFailureServes(cfg, w.rt, t, now, w.clock, r);
    case RaceTimedOut(_, r) => RecordFailureServes(cfg, w.rt, t, now, w.clock, r);
    case _ =>
  }

  /** No run starts within the cooldown of the start of an earlier run that opened the breaker. */
  lemma CooldownIsRespected(cfg: Config, start: Time, ls: seq<Label>, d: CallId, c: CallId)
    requires cfg.Valid() && Run(cfg, start, ls).Some? && d < c < |Run(cfg, start, ls).value.calls|
    requires
      var calls := Run(cfg, start, ls).value.calls;
      && calls[d].tenant == calls[c].tenant && calls[c].tenant in cfg.breakers
      && cfg.Keeps(cfg.breakers[calls[c].tenant].cooldownMs)
      && Tripped(calls[d]) && calls[c].startedAt.Some?
    ensures var calls := Run(cfg, start, ls).value.calls;
            calls[d].StartTime() + cfg.breakers[calls[c].tenant].cooldownMs <= calls[c].StartTime()
  {
    RunKeepsBreakers(cfg, start, ls);
    assert StartedCool(cfg, Run(cfg, start, ls).value.calls, c);
  }
}
