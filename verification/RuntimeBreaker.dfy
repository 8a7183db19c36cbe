/** The circuit breaker in every run: open exactly at the failure threshold, and no run starts
    within the cooldown of the start of a run that opened it. */
module RuntimeBreaker {
  import opened Seqs
  import opened RuntimeState
  import opened RuntimeWorld
  import opened RuntimeServing
  import opened RuntimeLocks
  import opened RuntimeLedger
  import opened RuntimeCharges

  // ---------------------------------------------------------------- invariants

  /** The trailing run of failures among the decided calls of t. */
  function Streak(calls: seq<Call>, t: Tenant): nat {
    if calls == [] then 0
    else
      var last, rest := calls[|calls| - 1], calls[..|calls| - 1];
      if last.tenant != t || last.outcome.Undecided? then Streak(rest, t)
      else if last.outcome.Failed? then Streak(rest, t) + 1
      else 0
  }

  predicate IsRacing(calls: seq<Call>, t: Tenant) {
    exists c :: 0 <= c < |calls| && calls[c].tenant == t && calls[c].phase.Racing?
  }

  predicate BreakerOf(cfg: Config, st: TenantState, calls: seq<Call>, t: Tenant) {
    && st.consecutiveFailures <= Streak(calls, t)
    && (!cfg.Evicts() ==> st.consecutiveFailures == Streak(calls, t))
    && (t !in cfg.breakers || IsRacing(calls, t) ==> st.circuitOpenedAt.None?)
    && (t in cfg.breakers && cfg.breakers[t].failureThreshold >= 1 && !IsRacing(calls, t) ==>
          (st.circuitOpenedAt.Some? <==> st.consecutiveFailures >= cfg.breakers[t].failureThreshold))
  }

  ghost predicate BreakerInv(cfg: Config, w: World) {
    forall t :: BreakerOf(cfg, w.rt.StateOf(t), w.calls, t)
  }

  predicate Tripped(k: Call) {
    k.outcome.Failed? && k.outcome.tripped
  }

  /** A run that opened the breaker has cooled down, or a breaker opened no earlier is still open. */
  predicate CoolsDown(cfg: Config, rt: Runtime, clock: Time, k: Call) {
    Tripped(k) && k.tenant in cfg.breakers && cfg.Keeps(cfg.breakers[k.tenant].cooldownMs) ==>
      || k.StartTime() + cfg.breakers[k.tenant].cooldownMs <= clock
      || (&& rt.StateOf(k.tenant).circuitOpenedAt.Some?
          && k.StartTime() <= rt.StateOf(k.tenant).circuitOpenedAt.value)
  }

  predicate FailedBeforeActivity(rt: Runtime, k: Call) {
    k.outcome.Failed? && k.tenant in rt.tenantLastActivityAt ==> k.StartTime() <= rt.tenantLastActivityAt[k.tenant]
  }

  ghost predicate CooldownInv(cfg: Config, w: World) {
    forall c :: 0 <= c < |w.calls| ==>
      CoolsDown(cfg, w.rt, w.clock, w.calls[c]) && FailedBeforeActivity(w.rt, w.calls[c])
  }

  /** The part of a call's shape the breaker relies on. */
  predicate Decided(k: Call) {
    && (k.phase.Waiting? ==> k.outcome.Undecided?)
    && (k.outcome.Failed? ==> k.startedAt.Some?)
  }

  ghost predicate DecidedInv(calls: seq<Call>) {
    forall c :: 0 <= c < |calls| ==> Decided(calls[c])
  }

  // ---------------------------------------------------------------- streaks

  lemma {:induction false} SameOutcomesSameStreak(calls: seq<Call>, calls': seq<Call>, t: Tenant)
    requires |calls| <= |calls'|
    requires forall d :: 0 <= d < |calls| ==> calls'[d].tenant == calls[d].tenant && calls'[d].outcome == calls[d].outcome
    requires forall d :: |calls| <= d < |calls'| ==> calls'[d].outcome.Undecided?
    ensures Streak(calls', t) == Streak(calls, t)
    decreases |calls'|
  {
    if |calls| < |calls'| {
      SameOutcomesSameStreak(calls, calls'[..|calls'| - 1], t);
    } else if calls != [] {
      SameOutcomesSameStreak(calls[..|calls| - 1], calls'[..|calls'| - 1], t);
    }
  }

  /** Deciding the latest run of a tenant extends or breaks its streak, and no other's. */
  lemma {:induction false} DecidingChangesStreak(calls: seq<Call>, c: CallId, k': Call, t: Tenant)
    requires c < |calls| && k'.tenant == calls[c].tenant
    requires calls[c].outcome.Undecided? && !k'.outcome.Undecided?
    requires forall d :: c < d < |calls| && calls[d].tenant == k'.tenant ==> calls[d].outcome.Undecided?
    ensures Streak(calls[c := k'], t) ==
              if t != k'.tenant then Streak(calls, t)
              else if k'.outcome.Failed? then Streak(calls, t) + 1 else 0
  {
    var n := |calls| - 1;
    if c < n {
      assert calls[c := k'][..n] == calls[..n][c := k'];
      DecidingChangesStreak(calls[..n], c, k', t);
    } else {
      assert calls[c := k'][..n] == calls[..n];
    }
  }

  // ---------------------------------------------------------------- steps that decide nothing

  lemma QuietKeepsBreaker(cfg: Config, w: World, w': World)
    requires DecidedInv(w.calls) && TimeInv(cfg, w) && BreakerInv(cfg, w) && CooldownInv(cfg, w) && Quiet(w, w')
    ensures BreakerInv(cfg, w') && CooldownInv(cfg, w')
  {
    forall t
      ensures BreakerOf(cfg, w'.rt.StateOf(t), w'.calls, t)
    {
      assert BreakerOf(cfg, w.rt.StateOf(t), w.calls, t);
      SameOutcomesSameStreak(w.calls, w'.calls, t);
      assert IsRacing(w'.calls, t) == IsRacing(w.calls, t);
    }
    forall d | 0 <= d < |w'.calls|
      ensures CoolsDown(cfg, w'.rt, w'.clock, w'.calls[d]) && FailedBeforeActivity(w'.rt, w'.calls[d])
    {
      if d < |w.calls| {
        assert Decided(w.calls[d]) && CoolsDown(cfg, w.rt, w.clock, w.calls[d]) && FailedBeforeActivity(w.rt, w.calls[d]);
      }
    }
  }

  // ---------------------------------------------------------------- serving a tenant

  /** What a move of call c means for the breakers of all tenants but its own. */
  lemma OthersKeepBreakers(cfg: Config, w: World, w': World, c: CallId, u: Tenant)
    requires BreakerInv(cfg, w) && BodyMove(cfg, w, w', c) && u != w.calls[c].tenant
    requires Streak(w'.calls, u) == Streak(w.calls, u)
    ensures BreakerOf(cfg, w'.rt.StateOf(u), w'.calls, u)
  {
    assert BreakerOf(cfg, w.rt.StateOf(u), w.calls, u);
    assert Kept(w.rt, w'.rt, u) || Evicted(cfg, w.rt, w'.rt, u, w'.clock);
    assert IsRacing(w'.calls, u) == IsRacing(w.calls, u) by {
      if IsRacing(w.calls, u) {
        var d :| 0 <= d < |w.calls| && w.calls[d].tenant == u && w.calls[d].phase.Racing?;
        assert w'.calls[d] == w.calls[d];
      }
      if IsRacing(w'.calls, u) {
        var d :| 0 <= d < |w'.calls| && w'.calls[d].tenant == u && w'.calls[d].phase.Racing?;
        assert w'.calls[d] == w.calls[d];
      }
    }
  }

  lemma OthersCoolDown(cfg: Config, w: World, w': World, c: CallId, d: CallId)
    requires CooldownInv(cfg, w) && BodyMove(cfg, w, w', c)
    requires d < |w.calls| && w.calls[d].tenant != w.calls[c].tenant
    ensures CoolsDown(cfg, w'.rt, w'.clock, w'.calls[d]) && FailedBeforeActivity(w'.rt, w'.calls[d])
  {
    var u := w.calls[d].tenant;
    assert CoolsDown(cfg, w.rt, w.clock, w.calls[d]) && FailedBeforeActivity(w.rt, w.calls[d]);
    assert Kept(w.rt, w'.rt, u) || Evicted(cfg, w.rt, w'.rt, u, w'.clock);
  }

  /** While call c is in the body, no other call of its tenant is, and later ones are undecided. */
  lemma AloneInBody(w: World, c: CallId, d: CallId)
    requires LockInv(w) && DecidedInv(w.calls)
    requires c < |w.calls| && d < |w.calls| && c != d && w.calls[d].tenant == w.calls[c].tenant
    requires w.calls[c].InBody() || (w.calls[c].phase.Waiting? && MayEnter(w, c))
    ensures if d < c then w.calls[d].HasReleased() else w.calls[d].phase.Waiting? && w.calls[d].outcome.Undecided?
  {
    assert Decided(w.calls[d]);
    MayEnterIff(w, c);
    if d < c {
      assert EarlierReleased(w.calls, c);
    } else {
      assert !EarlierReleased(w.calls, d);
    }
  }

  lemma NotRacingElsewhere(w: World, c: CallId, k': Call)
    requires LockInv(w) && DecidedInv(w.calls) && c < |w.calls| && k'.tenant == w.calls[c].tenant
    requires w.calls[c].InBody() || (w.calls[c].phase.Waiting? && MayEnter(w, c))
    ensures IsRacing(w.calls, k'.tenant) == w.calls[c].phase.Racing?
    ensures IsRacing(w.calls[c := k'], k'.tenant) == k'.phase.Racing?
  {
    forall d | 0 <= d < |w.calls| && d != c && w.calls[d].tenant == k'.tenant
      ensures !w.calls[d].phase.Racing?
    {
      AloneInBody(w, c, d);
    }
    assert w.calls[c := k'][c] == k';
  }

  // ---------------------------------------------------------------- the pieces of doExecuteRun

  lemma DecideKeepsBreaker(cfg: Config, w: World, w': World, c: CallId)
    requires LockInv(w) && DecidedInv(w.calls) && BreakerInv(cfg, w) && BodyMove(cfg, w, w', c)
    requires w.calls[c].phase.Racing? && !w'.calls[c].phase.Racing?
    requires w.calls[c].outcome.Undecided? && !w'.calls[c].outcome.Undecided?
    requires
      var t := w.calls[c].tenant;
      var st, st' := w.rt.StateOf(t), w'.rt.StateOf(t);
      if w'.calls[c].outcome.Failed? then
        && st'.consecutiveFailures == st.consecutiveFailures + 1
        && (st'.circuitOpenedAt.Some? <==> Trips(cfg, t, st'.consecutiveFailures) || st.circuitOpenedAt.Some?)
      else
        st'.consecutiveFailures == 0 && st'.circuitOpenedAt == st.circuitOpenedAt
    ensures BreakerInv(cfg, w')
  {
    var t := w.calls[c].tenant;
    NotRacingElsewhere(w, c, w'.calls[c]);
    forall d | c < d < |w.calls| && w.calls[d].tenant == t
      ensures w.calls[d].outcome.Undecided?
    {
      AloneInBody(w, c, d);
    }
    forall u
      ensures BreakerOf(cfg, w'.rt.StateOf(u), w'.calls, u)
    {
      assert BreakerOf(cfg, w.rt.StateOf(u), w.calls, u);
      DecidingChangesStreak(w.calls, c, w'.calls[c], u);
      if u != t {
        OthersKeepBreakers(cfg, w, w', c, u);
      }
    }
  }

  lemma FailKeepsBreaker(cfg: Config, w: World, c: CallId, phase: Phase, r: Reads)
    requires LockInv(w) && CountInv(w) && DecidedInv(w.calls) && TimeInv(cfg, w)
    requires BreakerInv(cfg, w) && CooldownInv(cfg, w)
    requires At(w, c, Racing) && w.calls[c].startedAt.Some? && Reading(w.clock, r)
    requires w.calls[c].outcome.Undecided? && phase in {Late, Grace, BodyDone}
    ensures BreakerInv(cfg, Fail(cfg, w, c, phase, r)) && CooldownInv(cfg, Fail(cfg, w, c, phase, r))
  {
    var w', t, now := Fail(cfg, w, c, phase, r), w.calls[c].tenant, w.calls[c].StartTime();
    ActiveTenant(w, c);
    FailMoves(cfg, w, c, phase, r);
    RecordFailureServes(cfg, w.rt, t, now, w.clock, r);
    DecideKeepsBreaker(cfg, w, w', c);
    NotRacingElsewhere(w, c, w.calls[c]);
    forall d | 0 <= d < |w'.calls|
      ensures CoolsDown(cfg, w'.rt, w'.clock, w'.calls[d]) && FailedBeforeActivity(w'.rt, w'.calls[d])
    {
      assert Decided(w.calls[d]);
      assert BreakerOf(cfg, w.rt.StateOf(t), w.calls, t);
      assert CoolsDown(cfg, w.rt, w.clock, w.calls[d]) && FailedBeforeActivity(w.rt, w.calls[d]);
      if w.calls[d].tenant != t {
        OthersCoolDown(cfg, w, w', c, d);
      }
    }
  }

  /** A move of call c that decides nothing and leaves its tenant's failure count alone. */
  lemma MoveKeepsCooldown(cfg: Config, w: World, w': World, c: CallId)
    requires DecidedInv(w.calls) && TimeInv(cfg, w) && CooldownInv(cfg, w) && BodyMove(cfg, w, w', c)
    requires !w'.calls[c].outcome.Failed? || w'.calls[c].startedAt == w.calls[c].startedAt
    requires w'.calls[c].outcome == w.calls[c].outcome || (w.calls[c].outcome.Undecided? && w'.calls[c].outcome.Succeeded?)
    requires
      var t := w.calls[c].tenant;
      var st, st' := w.rt.StateOf(t), w'.rt.StateOf(t);
      || st'.circuitOpenedAt == st.circuitOpenedAt
      || (&& st'.circuitOpenedAt.None? && st.circuitOpenedAt.Some? && t in cfg.breakers
          && st.circuitOpenedAt.value + cfg.breakers[t].cooldownMs <= w'.clock)
    ensures CooldownInv(cfg, w')
  {
    forall d | 0 <= d < |w'.calls|
      ensures CoolsDown(cfg, w'.rt, w'.clock, w'.calls[d]) && FailedBeforeActivity(w'.rt, w'.calls[d])
    {
      assert Decided(w.calls[d]);
      assert CoolsDown(cfg, w.rt, w.clock, w.calls[d]) && FailedBeforeActivity(w.rt, w.calls[d]);
      if w.calls[d].tenant != w.calls[c].tenant {
        OthersCoolDown(cfg, w, w', c, d);
      }
    }
  }

  lemma SucceedKeepsBreaker(cfg: Config, w: World, c: CallId, r: Reads)
    requires LockInv(w) && CountInv(w) && DecidedInv(w.calls) && TimeInv(cfg, w)
    requires BreakerInv(cfg, w) && CooldownInv(cfg, w)
    requires At(w, c, Racing) && w.calls[c].outcome.Undecided? && Reading(w.clock, r)
    ensures BreakerInv(cfg, Succeed(cfg, w, c, r)) && CooldownInv(cfg, Succeed(cfg, w, c, r))
  {
    var w' := Succeed(cfg, w, c, r);
    ActiveTenant(w, c);
    SucceedMoves(cfg, w, c, r);
    RecordSuccessServes(cfg, w.rt, w.calls[c].tenant, w.clock, r);
    DecideKeepsBreaker(cfg, w, w', c);
    MoveKeepsCooldown(cfg, w, w', c);
  }

  /** Moves that decide nothing: recording a run, and entering. */
  lemma UndecidedKeepsBreaker(cfg: Config, w: World, w': World, c: CallId)
    requires LockInv(w) && DecidedInv(w.calls) && BreakerInv(cfg, w) && BodyMove(cfg, w, w', c)
    requires w.calls[c].InBody() || (w.calls[c].phase.Waiting? && MayEnter(w, c))
    requires w'.calls[c].outcome == w.calls[c].outcome
    requires w'.rt.StateOf(w.calls[c].tenant).consecutiveFailures == w.rt.StateOf(w.calls[c].tenant).consecutiveFailures
    requires
      var st, st' := w.rt.StateOf(w.calls[c].tenant), w'.rt.StateOf(w.calls[c].tenant);
      if w.calls[c].phase.Racing? == w'.calls[c].phase.Racing? then st'.circuitOpenedAt == st.circuitOpenedAt
      else w'.calls[c].phase.Racing? && st'.circuitOpenedAt.None?
    ensures BreakerInv(cfg, w')
  {
    NotRacingElsewhere(w, c, w'.calls[c]);
    forall u
      ensures BreakerOf(cfg, w'.rt.StateOf(u), w'.calls, u)
    {
      assert BreakerOf(cfg, w.rt.StateOf(u), w.calls, u);
      SameOutcomesSameStreak(w.calls, w'.calls, u);
      if u != w.calls[c].tenant {
        OthersKeepBreakers(cfg, w, w', c, u);
      }
    }
  }

  lemma RecordKeepsBreaker(cfg: Config, w: World, c: CallId, phase: Phase, tokens: int, r: Reads)
    requires LockInv(w) && CountInv(w) && DecidedInv(w.calls) && TimeInv(cfg, w)
    requires BreakerInv(cfg, w) && CooldownInv(cfg, w)
    requires c < |w.calls| && w.calls[c].InBody() && Reading(w.clock, r)
    requires phase in {Racing, Hold, BodyDone} && (w.calls[c].phase.Racing? <==> phase.Racing?)
    ensures BreakerInv(cfg, Record(cfg, w, c, phase, tokens, r)) && CooldownInv(cfg, Record(cfg, w, c, phase, tokens, r))
  {
    var w' := Record(cfg, w, c, phase, tokens, r);
    ActiveTenant(w, c);
    RecordMoves(cfg, w, c, phase, tokens, r);
    RecordRunServes(cfg, w.rt, w.calls[c].tenant, w.calls[c].StartTime(), tokens, w.clock, r);
    UndecidedKeepsBreaker(cfg, w, w', c);
    MoveKeepsCooldown(cfg, w, w', c);
  }

  /** What admission does to the breaker fields of the tenant. */
  lemma AdmissionAndBreaker(cfg: Config, rt: Runtime, t: Tenant, killed: bool, clock: Time, r: AdmitReads)
    requires rt.InFlight(t) > 0 && AdmitReading(clock, r)
    ensures
      var (rt', verdict) := Admit(cfg, rt, t, killed, r);
      var st, st' := rt.StateOf(t), rt'.StateOf(t);
      && st'.consecutiveFailures == st.consecutiveFailures
      && (!verdict.Admitted? ==> st'.circuitOpenedAt == st.circuitOpenedAt)
      && (verdict.Admitted? && t !in cfg.breakers ==> st'.circuitOpenedAt == st.circuitOpenedAt)
      && (verdict.Admitted? && t in cfg.breakers ==>
            && st'.circuitOpenedAt.None?
            && (st.circuitOpenedAt.Some? ==> st.circuitOpenedAt.value + cfg.breakers[t].cooldownMs <= r.now))
  {
    var rt1 := Touch(rt, t, r.touch);
    if !killed {
      CheckBudgetServes(cfg, rt1, t, r.now, clock, r.budget);
      IsCircuitOpenServes(cfg, CheckBudget(cfg, rt1, t, r.now, r.budget).0, t, r.now, clock, r.breaker);
    }
  }

  lemma EnterKeepsBreaker(cfg: Config, w: World, c: CallId, killed: bool, r: AdmitReads)
    requires cfg.Valid() && LockInv(w) && CountInv(w) && DecidedInv(w.calls) && TimeInv(cfg, w)
    requires BreakerInv(cfg, w) && CooldownInv(cfg, w) && Enabled(cfg, w, Enter(c, killed, r))
    ensures BreakerInv(cfg, Step(cfg, w, Enter(c, killed, r))) && CooldownInv(cfg, Step(cfg, w, Enter(c, killed, r)))
  {
    var w' := Step(cfg, w, Enter(c, killed, r));
    ActiveTenant(w, c);
    EnterMoves(cfg, w, c, killed, r);
    AdmissionAndBreaker(cfg, w.rt, w.calls[c].tenant, killed, w.clock, r);
    assert Decided(w.calls[c]) && BreakerOf(cfg, w.rt.StateOf(w.calls[c].tenant), w.calls, w.calls[c].tenant);
    UndecidedKeepsBreaker(cfg, w, w', c);
    MoveKeepsCooldown(cfg, w, w', c);
  }

  // ---------------------------------------------------------------- every step

  ghost predicate BreakersInv(cfg: Config, w: World) {
    BreakerInv(cfg, w) && CooldownInv(cfg, w)
  }

  lemma ShapedIsDecided(cfg: Config, calls: seq<Call>)
    requires ShapeInv(cfg, calls)
    ensures DecidedInv(calls)
  {
    forall c | 0 <= c < |calls|
      ensures Decided(calls[c])
    {
      assert Shaped(cfg, calls[c]);
    }
  }

  lemma RaceResolvedKeepsBreaker(cfg: Config, w: World, c: CallId, r: Reads, r': Reads)
    requires cfg.Valid() && RuntimeInv(cfg, w) && BreakersInv(cfg, w) && Enabled(cfg, w, RaceResolved(c, r, r'))
    ensures BreakersInv(cfg, Step(cfg, w, RaceResolved(c, r, r')))
  {
    assert Shaped(cfg, w.calls[c]);
    ShapedIsDecided(cfg, w.calls);
    ActiveTenant(w, c);
    var tokens := w.calls[c].ReportedTokens();
    var w1 := Record(cfg, w, c, Racing, tokens, r);
    RecordMoves(cfg, w, c, Racing, tokens, r);
    RecordStepKeepsHistory(cfg, w, c, Racing, tokens, r);
    RecordKeepsBreaker(cfg, w, c, Racing, tokens, r);
    MovedKeepsLocks(w, w1, c);
    MovedKeepsCounts(cfg, w, w1, c);
    if w.calls[c].provider.failed {
      FailKeepsBreaker(cfg, w1, c, BodyDone, r');
    } else {
      SucceedKeepsBreaker(cfg, w1, c, r');
    }
  }

  lemma GraceExpiredKeepsBreaker(cfg: Config, w: World, c: CallId, r: Reads)
    requires cfg.Valid() && RuntimeInv(cfg, w) && BreakersInv(cfg, w) && Enabled(cfg, w, GraceExpired(c, r))
    ensures BreakersInv(cfg, Step(cfg, w, GraceExpired(c, r)))
  {
    assert Shaped(cfg, w.calls[c]);
    ShapedIsDecided(cfg, w.calls);
    var w1 := Record(cfg, w, c, Hold, cfg.runTimeoutChargeTokens, r);
    RecordKeepsBreaker(cfg, w, c, Hold, cfg.runTimeoutChargeTokens, r);
    RecordStepKeepsHistory(cfg, w, c, Hold, cfg.runTimeoutChargeTokens, r);
    QuietKeepsBreaker(cfg, w1, Step(cfg, w, GraceExpired(c, r)));
  }

  lemma BodyStepKeepsBreaker(cfg: Config, w: World, l: Label)
    requires cfg.Valid() && RuntimeInv(cfg, w) && BreakersInv(cfg, w) && Enabled(cfg, w, l) && IsBodyLabel(l)
    ensures BreakersInv(cfg, Step(cfg, w, l))
  {
    assert Shaped(cfg, w.calls[l.c]);
    ShapedIsDecided(cfg, w.calls);
    match l
    case Enter(c, killed, r) => EnterKeepsBreaker(cfg, w, c, killed, r);
    case RaceResolved(c, r, r') => RaceResolvedKeepsBreaker(cfg, w, c, r, r');
    case LateRecorded(c, r) => RecordKeepsBreaker(cfg, w, c, BodyDone, w.calls[c].ReportedTokens(), r);
    case GraceSettled(c, r) => RecordKeepsBreaker(cfg, w, c, Hold, w.calls[c].ReportedTokens(), r);
    case GraceExpired(c, r) => GraceExpiredKeepsBreaker(cfg, w, c, r);
    case RaceRejected(c, r) => FailKeepsBreaker(cfg, w, c, Late, r);
    case RaceTimedOut(c, r) => FailKeepsBreaker(cfg, w, c, Grace, r);
  }

  lemma QuietStepKeepsBreaker(cfg: Config, w: World, l: Label)
    requires cfg.Valid() && RuntimeInv(cfg, w) && BreakersInv(cfg, w) && Enabled(cfg, w, l) && !IsBodyLabel(l)
    ensures BreakersInv(cfg, Step(cfg, w, l))
  {
    ShapedIsDecided(cfg, w.calls);
    StepIsQuiet(cfg, w, l);
    QuietKeepsBreaker(cfg, w, Step(cfg, w, l));
  }

  // ---------------------------------------------------------------- no start within the cooldown

  /** Run c started at least the cooldown after the start of every earlier run that opened the breaker. */
  ghost predicate StartedCool(cfg: Config, calls: seq<Call>, c: CallId)
    requires c < |calls|
  {
    var t := calls[c].tenant;
    calls[c].startedAt.Some? && t in cfg.breakers && cfg.Keeps(cfg.breakers[t].cooldownMs) ==>
      forall d :: 0 <= d < c && calls[d].tenant == t && Tripped(calls[d]) ==>
        calls[d].StartTime() + cfg.breakers[t].cooldownMs <= calls[c].StartTime()
  }

  ghost predicate SpacingInv(cfg: Config, calls: seq<Call>) {
    forall c :: 0 <= c < |calls| ==> StartedCool(cfg, calls, c)
  }

  /** Steps never change the outcome or start of a released call, nor the start of a started one. */
  lemma ReleasedIsFinal(cfg: Config, w: World, l: Label)
    requires cfg.Valid() && ShapeInv(cfg, w.calls) && Enabled(cfg, w, l)
    ensures
      var calls' := Step(cfg, w, l).calls;
      && |w.calls| <= |calls'|
      && (forall d :: 0 <= d < |w.calls| ==>
            && calls'[d].tenant == w.calls[d].tenant
            && (w.calls[d].HasReleased() ==> calls'[d].outcome == w.calls[d].outcome)
            && (!(l.Enter? && d == l.c) ==> calls'[d].startedAt == w.calls[d].startedAt))
      && (forall d :: |w.calls| <= d < |calls'| ==> calls'[d].startedAt.None?)
  {
  }

  lemma EnterStartsCool(cfg: Config, w: World, c: CallId, killed: bool, r: AdmitReads)
    requires cfg.Valid() && RuntimeInv(cfg, w) && BreakersInv(cfg, w) && Enabled(cfg, w, Enter(c, killed, r))
    ensures StartedCool(cfg, Step(cfg, w, Enter(c, killed, r)).calls, c)
  {
    var t := w.calls[c].tenant;
    ActiveTenant(w, c);
    AdmissionAndBreaker(cfg, w.rt, t, killed, w.clock, r);
    assert Shaped(cfg, w.calls[c]);
    forall d | 0 <= d < c && w.calls[d].tenant == t
      ensures CoolsDown(cfg, w.rt, w.clock, w.calls[d])
    {
    }
  }

  lemma StepKeepsSpacing(cfg: Config, w: World, l: Label)
    requires cfg.Valid() && RuntimeInv(cfg, w) && BreakersInv(cfg, w) && Enabled(cfg, w, l)
    requires SpacingInv(cfg, w.calls)
    ensures SpacingInv(cfg, Step(cfg, w, l).calls)
  {
    var calls' := Step(cfg, w, l).calls;
    ReleasedIsFinal(cfg, w, l);
    forall c | 0 <= c < |calls'|
      ensures StartedCool(cfg, calls', c)
    {
      if l.Enter? && c == l.c {
        EnterStartsCool(cfg, w, c, l.killed, l.admit);
      } else if c < |w.calls| && w.calls[c].startedAt.Some? {
        assert StartedCool(cfg, w.calls, c) && Shaped(cfg, w.calls[c]) && EarlierReleased(w.calls, c);
      }
    }
  }

  lemma {:induction false} RunKeepsBreakers(cfg: Config, start: Time, ls: seq<Label>)
    requires cfg.Valid() && Run(cfg, start, ls).Some?
    ensures BreakersInv(cfg, Run(cfg, start, ls).value) && SpacingInv(cfg, Run(cfg, start, ls).value.calls)
  {
    if ls != [] {
      var before := ls[..|ls| - 1];
      var w, l := Run(cfg, start, before).value, ls[|ls| - 1];
      RunKeepsRuntimeInv(cfg, start, before);
      RunKeepsBreakers(cfg, start, before);
      StepKeepsSpacing(cfg, w, l);
      if IsBodyLabel(l) {
        BodyStepKeepsBreaker(cfg, w, l);
      } else {
        QuietStepKeepsBreaker(cfg, w, l);
      }
    }
  }
}
