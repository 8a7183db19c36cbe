/** What each label does to its call and to its tenant's ledgers and breaker, said from outside: in
    terms of the call, the provider's answer and the tenant's state before. */
module RuntimeMoves {
  import opened Seqs
  import opened RuntimeState
  import opened RuntimeWorld
  import opened RuntimeServing
  import opened RuntimeLocks
  import opened RuntimeLedger
  import opened RuntimeCharges
  import opened RuntimeBudgets
  import opened RuntimeBreaker

  /** Both ledgers of the tenant are below their limits: an hour of runs, a day of tokens. */
  predicate WithinBudget(cfg: Config, t: Tenant, st: TenantState, now: Time) {
    t in cfg.budgets ==>
      && Sum(st.runTimestamps, CountAfter(now - 3600000.0)) < cfg.budgets[t].maxRunsPerHour
      && Sum(st.tokenTimestamps, TokensAfter(now - 86400000.0)) < cfg.budgets[t].maxTokensPerDay
  }

  /** The tenant's breaker is open and its cooldown not over. */
  predicate Tripped(cfg: Config, t: Tenant, st: TenantState, now: Time) {
    t in cfg.breakers && st.circuitOpenedAt.Some? && now - st.circuitOpenedAt.value < cfg.breakers[t].cooldownMs
  }

  /** A recorded run counts exactly while it is less than an hour old. */
  lemma RunsCountForAnHour(at: seq<Time>, t: Time, now: Time)
    ensures Sum(at + [t], CountAfter(now - 3600000.0)) == Sum(at, CountAfter(now - 3600000.0)) + if now - t < 3600000.0 then 1 else 0
  {
    SumAppend(at, t, CountAfter(now - 3600000.0));
  }

  /** Recorded tokens count, all of them, exactly while they are less than a day old. */
  lemma TokensCountForADay(es: seq<TokenEntry>, e: TokenEntry, now: Time)
    ensures Sum(es + [e], TokensAfter(now - 86400000.0)) ==
            Sum(es, TokensAfter(now - 86400000.0)) + if now - e.at < 86400000.0 then e.tokens else 0
  {
    SumAppend(es, e, TokensAfter(now - 86400000.0));
  }

  lemma BudgetDecides(cfg: Config, rt: Runtime, t: Tenant, now: Time, clock: Time, r: Reads)
    requires rt.InFlight(t) > 0 && Reading(clock, r)
    ensures
      var (rt', within) := CheckBudget(cfg, rt, t, now, r);
      && within == WithinBudget(cfg, t, rt.StateOf(t), now)
      && rt'.StateOf(t).circuitOpenedAt == rt.StateOf(t).circuitOpenedAt
      && rt'.InFlight(t) > 0
  {
    CheckBudgetServes(cfg, rt, t, now, clock, r);
    if t in cfg.budgets {
      PrunedWithin(cfg.budgets[t], rt.StateOf(t), now);
    }
  }

  /** Kill switch, budget and breaker, in this order, and nothing else, decide whether a run starts. */
  lemma AdmitDecides(cfg: Config, rt: Runtime, t: Tenant, killed: bool, clock: Time, r: AdmitReads)
    requires rt.InFlight(t) > 0 && AdmitReading(clock, r)
    ensures
      var st := rt.StateOf(t);
      Admit(cfg, rt, t, killed, r).1 ==
      if killed then KillSwitch
      else if !WithinBudget(cfg, t, st, r.now) then OverBudget
      else if Tripped(cfg, t, st, r.now) then CircuitOpen
      else Admitted
  {
    var rt1 := Touch(rt, t, r.touch);
    assert rt1.StateOf(t) == rt.StateOf(t) && rt1.InFlight(t) == rt.InFlight(t);
    if !killed {
      BudgetDecides(cfg, rt1, t, r.now, clock, r.budget);
      IsCircuitOpenServes(cfg, CheckBudget(cfg, rt1, t, r.now, r.budget).0, t, r.now, clock, r.breaker);
    }
  }

  /** A run starts, at the time read, exactly if the kill switch is off, the ledgers are below their
      limits and the breaker does not block; a breaker that let it through is closed. */
  lemma EnterDecides(cfg: Config, w: World, c: CallId, killed: bool, r: AdmitReads)
    requires cfg.Valid() && CountInv(w) && Enabled(cfg, w, Enter(c, killed, r))
    ensures
      var w', k := Step(cfg, w, Enter(c, killed, r)), w.calls[c];
      var t, st, st' := k.tenant, w.rt.StateOf(k.tenant), w'.rt.StateOf(k.tenant);
      var starts := !killed && WithinBudget(cfg, t, st, r.now) && !Tripped(cfg, t, st, r.now);
      && w'.calls == w.calls[c := if starts then k.(phase := Racing, startedAt := Some(r.now)) else k.(phase := BodyDone)]
      && st'.consecutiveFailures == st.consecutiveFailures
      && st'.circuitOpenedAt == (if starts && t in cfg.breakers then None else st.circuitOpenedAt)
  {
    ActiveTenant(w, c);
    AdmitDecides(cfg, w.rt, w.calls[c].tenant, killed, w.clock, r);
    AdmissionAndBreaker(cfg, w.rt, w.calls[c].tenant, killed, w.clock, r);
  }

  // ---------------------------------------------------------------- the end of a run

  /** The call's tenant, and nothing else of its state, has one failure more; the breaker is opened at
      the start of the run if that reaches the threshold. */
  predicate FailureCounted(cfg: Config, k: Call, st: TenantState, st': TenantState) {
    && st'.consecutiveFailures == st.consecutiveFailures + 1
    && st'.circuitOpenedAt ==
       (if k.tenant in cfg.breakers && st.consecutiveFailures + 1 >= cfg.breakers[k.tenant].failureThreshold
        then k.startedAt else st.circuitOpenedAt)
  }

  predicate BreakerUntouched(st: TenantState, st': TenantState) {
    st'.consecutiveFailures == st.consecutiveFailures && st'.circuitOpenedAt == st.circuitOpenedAt
  }

  /** The call after one more charge. */
  predicate ChargedMore(k: Call, k': Call, tokens: int) {
    k'.charges == k.charges + [tokens] && k'.startedAt == k.startedAt && k'.provider == k.provider
  }

  /** The tokens the provider reported are charged, 0 if it reported none or rejected. */
  predicate ChargedAnswer(k: Call, k': Call) {
    match k.provider
    case Pending => false
    case Resolved(_, Some(n)) => ChargedMore(k, k', n)
    case Resolved(_, None) => ChargedMore(k, k', 0)
    case Rejected => ChargedMore(k, k', 0)
  }

  predicate NotCharged(k: Call, k': Call) {
    k'.charges == k.charges && k'.startedAt == k.startedAt && k'.provider == k.provider
  }

  /** What the labels of a started run do to its call and its tenant's breaker. */
  predicate EndsRun(cfg: Config, l: Label, k: Call, k': Call, st: TenantState, st': TenantState) {
    match l
    case RaceResolved(_, _, _) =>
      && k'.phase.BodyDone? && k.provider.Resolved?
      && ChargedAnswer(k, k')
      && if k.provider.failed then k'.outcome.Failed? && FailureCounted(cfg, k, st, st')
         else k'.outcome.Succeeded? && st'.consecutiveFailures == 0 && st'.circuitOpenedAt == st.circuitOpenedAt
    case RaceRejected(_, _) =>
      k'.phase.Late? && k'.outcome.Failed? && NotCharged(k, k') && FailureCounted(cfg, k, st, st')
    case RaceTimedOut(_, _) =>
      k'.phase.Grace? && k'.outcome.Failed? && NotCharged(k, k') && FailureCounted(cfg, k, st, st')
    case LateRecorded(_, _) =>
      && k'.phase.BodyDone? && k'.outcome == k.outcome && BreakerUntouched(st, st')
      && ChargedAnswer(k, k')
    case GraceSettled(_, _) =>
      && k'.phase.Hold? && k'.outcome == k.outcome && !k'.graceExpired && BreakerUntouched(st, st')
      && ChargedAnswer(k, k')
    case GraceExpired(_, _) =>
      && k'.phase.Hold? && k'.outcome == k.outcome && k'.graceExpired && BreakerUntouched(st, st')
      && ChargedMore(k, k', cfg.runTimeoutChargeTokens)
    case _ => true
  }

  lemma RecordIsCharge(cfg: Config, w: World, c: CallId, phase: Phase, tokens: int, r: Reads)
    requires CountInv(w) && c < |w.calls| && w.calls[c].InBody() && Reading(w.clock, r)
    ensures
      var w', k := Record(cfg, w, c, phase, tokens, r), w.calls[c];
      && |w'.calls| == |w.calls| && w'.calls[c].phase == phase && ChargedMore(k, w'.calls[c], tokens)
      && w'.calls[c] == k.(charges := k.charges + [tokens], phase := phase)
      && BreakerUntouched(w.rt.StateOf(k.tenant), w'.rt.StateOf(k.tenant))
      && w'.rt.InFlight(k.tenant) > 0 && w'.clock == r.evict
  {
    ActiveTenant(w, c);
    RecordRunServes(cfg, w.rt, w.calls[c].tenant, w.calls[c].StartTime(), tokens, w.clock, r);
  }

  lemma FailIsCounted(cfg: Config, w: World, c: CallId, phase: Phase, r: Reads)
    requires c < |w.calls| && w.rt.InFlight(w.calls[c].tenant) > 0 && Reading(w.clock, r) && w.calls[c].startedAt.Some?
    ensures
      var w', k := Fail(cfg, w, c, phase, r), w.calls[c];
      && |w'.calls| == |w.calls| && w'.calls[c].phase == phase && w'.calls[c].outcome.Failed? && NotCharged(k, w'.calls[c])
      && FailureCounted(cfg, k, w.rt.StateOf(k.tenant), w'.rt.StateOf(k.tenant))
  {
    RecordFailureServes(cfg, w.rt, w.calls[c].tenant, w.calls[c].StartTime(), w.clock, r);
  }

  lemma RaceResolvedEnds(cfg: Config, w: World, c: CallId, r: Reads, r': Reads)
    requires cfg.Valid() && CountInv(w) && Enabled(cfg, w, RaceResolved(c, r, r')) && w.calls[c].startedAt.Some?
    ensures
      var w', k := Step(cfg, w, RaceResolved(c, r, r')), w.calls[c];
      |w'.calls| == |w.calls| &&
      EndsRun(cfg, RaceResolved(c, r, r'), k, w'.calls[c], w.rt.StateOf(k.tenant), w'.rt.StateOf(k.tenant))
  {
    var k, n := w.calls[c], w.calls[c].ReportedTokens();
    RecordIsCharge(cfg, w, c, Racing, n, r);
    var w1 := Record(cfg, w, c, Racing, n, r);
    if k.provider.failed {
      FailIsCounted(cfg, w1, c, BodyDone, r');
    } else {
      RecordSuccessServes(cfg, w1.rt, k.tenant, w1.clock, r');
    }
    assert ChargedMore(k, Step(cfg, w, RaceResolved(c, r, r')).calls[c], n);
  }

  /** In every run: a run that ends in time counts as a failure exactly if the provider said so, one that
      ends late or not at all always does, and each is charged what the provider reported, or the
      configured charge if it was silent to the end of the grace period. */
  lemma RunsEnd(cfg: Config, start: Time, ls: seq<Label>, l: Label)
    requires cfg.Valid() && Run(cfg, start, ls).Some? && Enabled(cfg, Run(cfg, start, ls).value, l)
    requires IsBodyLabel(l) && !l.Enter?
    ensures
      var w := Run(cfg, start, ls).value;
      var w', t := Step(cfg, w, l), w.calls[l.c].tenant;
      |w'.calls| == |w.calls| && EndsRun(cfg, l, w.calls[l.c], w'.calls[l.c], w.rt.StateOf(t), w'.rt.StateOf(t))
  {
    RunKeepsRuntimeInv(cfg, start, ls);
    StepEndsRun(cfg, Run(cfg, start, ls).value, l);
  }

  lemma StepEndsRun(cfg: Config, w: World, l: Label)
    requires cfg.Valid() && CountInv(w) && ShapeInv(cfg, w.calls) && Enabled(cfg, w, l) && IsBodyLabel(l) && !l.Enter?
    ensures
      var w', t := Step(cfg, w, l), w.calls[l.c].tenant;
      |w'.calls| == |w.calls| && EndsRun(cfg, l, w.calls[l.c], w'.calls[l.c], w.rt.StateOf(t), w'.rt.StateOf(t))
  {
    assert Shaped(cfg, w.calls[l.c]);
    ActiveTenant(w, l.c);
    match l
    case RaceResolved(c, r, r') => RaceResolvedEnds(cfg, w, c, r, r');
    case RaceRejected(c, r) => FailIsCounted(cfg, w, c, Late, r);
    case RaceTimedOut(c, r) => FailIsCounted(cfg, w, c, Grace, r);
    case LateRecorded(c, r) => SettledIsCharged(cfg, w, l, c, BodyDone, r);
    case GraceSettled(c, r) => SettledIsCharged(cfg, w, l, c, Hold, r);
    case GraceExpired(c, r) => RecordIsCharge(cfg, w, c, Hold, cfg.runTimeoutChargeTokens, r);
  }

  lemma SettledIsCharged(cfg: Config, w: World, l: Label, c: CallId, phase: Phase, r: Reads)
    requires CountInv(w) && c < |w.calls| && w.calls[c].InBody() && Reading(w.clock, r) && !w.calls[c].graceExpired
    requires !w.calls[c].provider.Pending?
    requires (l == LateRecorded(c, r) && phase == BodyDone) || (l == GraceSettled(c, r) && phase == Hold)
    ensures
      var w', k := Record(cfg, w, c, phase, w.calls[c].ReportedTokens(), r), w.calls[c];
      |w'.calls| == |w.calls| && EndsRun(cfg, l, k, w'.calls[c], w.rt.StateOf(k.tenant), w'.rt.StateOf(k.tenant))
  {
    RecordIsCharge(cfg, w, c, phase, w.calls[c].ReportedTokens(), r);
  }

  // ---------------------------------------------------------------- the provider's answer

  predicate Answered(calls: seq<Call>, c: CallId, p: Provider) {
    c < |calls| && calls[c].provider == p && !p.Pending?
  }

  lemma MoveKeepsAnswer(cfg: Config, w: World, l: Label, c: CallId, p: Provider)
    requires cfg.Valid() && CountInv(w) && Enabled(cfg, w, l) && Answered(w.calls, c, p)
    ensures Answered(Step(cfg, w, l).calls, c, p)
  {
    if IsBodyLabel(l) {
      BodyStepMoves(cfg, w, l);
      BodyKeepsAnswer(cfg, w, l);
    }
  }

  lemma BodyKeepsAnswer(cfg: Config, w: World, l: Label)
    requires cfg.Valid() && Enabled(cfg, w, l) && IsBodyLabel(l)
    ensures |Step(cfg, w, l).calls| == |w.calls| && Step(cfg, w, l).calls[l.c].provider == w.calls[l.c].provider
  {
  }

  /** What a provider answers once is its answer for good. */
  lemma {:induction false} AnswerIsKept(cfg: Config, start: Time, ls: seq<Label>, i: nat, c: CallId, p: Provider)
    requires cfg.Valid() && Run(cfg, start, ls).Some? && i < |ls| && ls[i] == ProviderSettles(c, p)
    ensures Answered(Run(cfg, start, ls).value.calls, c, p)
  {
    var n := |ls| - 1;
    if i < n {
      AnswerIsKept(cfg, start, ls[..n], i, c, p);
      RunIsSafe(cfg, start, ls[..n]);
      MoveKeepsAnswer(cfg, Run(cfg, start, ls[..n]).value, ls[n], c, p);
    }
  }
}
