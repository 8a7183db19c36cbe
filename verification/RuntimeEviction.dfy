/** Idle eviction forgets: the runtime keeps its promises about budgets and cooldowns exactly when
    idle tenants are kept for as long as the promise looks back. One run shows all of them broken
    otherwise: tenant a's run spends its budget, fails and opens the breaker; a idles; a run of
    tenant b evicts a; and a runs again. */
module RuntimeEviction {
  import opened Seqs
  import opened RuntimeState
  import opened RuntimeWorld
  import opened RuntimeLocks
  import opened RuntimeLedger
  import opened RuntimeBudgets
  import opened RuntimeBreaker
  import opened RuntimeTheorems

  /** One run an hour, one token a day, and one failure opens a's breaker. */
  function Tight(ttl: Time, cooldown: Time): Config {
    Config(map["a" := Budget(1, 1), "b" := Budget(1, 1)], map["a" := Breaker(1, cooldown)], 1, 0, Some(ttl))
  }

  function AllAt(at: Time): Reads {
    Reads(at, at)
  }

  function AdmitAt(at: Time): AdmitReads {
    AdmitReads(at, at, AllAt(at), AllAt(at))
  }

  lemma RunSnoc(cfg: Config, start: Time, ls: seq<Label>, l: Label, w: World, w': World)
    requires cfg.Valid() && Run(cfg, start, ls) == Some(w) && Enabled(cfg, w, l) && Step(cfg, w, l) == w'
    ensures Run(cfg, start, ls + [l]) == Some(w')
  {
    assert (ls + [l])[..|ls|] == ls;
  }

  // ---------------------------------------------------------------- a's first run, at time 0

  const RECORDED := TenantState([0.0], [TokenEntry(1, 0.0)], 0, None)
  const SPENT := RECORDED.(consecutiveFailures := 1, circuitOpenedAt := Some(0.0))
  const CALL_A := Call("a", Heartbeat, None, Waiting, None, Pending, Undecided, false, [])
  const RAN_A := Call("a", Heartbeat, None, BodyDone, Some(0.0), Resolved(true, Some(1)), Failed(true), false, [1])
  const DONE_A := RAN_A.(phase := Finished)

  const W1 := World(STOPPED.(running := true, heartbeatHandle := Some("a")), [], 0.0)
  const W2 := World(W1.rt.(pendingHeartbeatRuns := {"a"}, tenantLocks := map["a" := 0], inFlightRunCount := map["a" := 1],
                           tenantLastActivityAt := map["a" := 0.0]), [CALL_A], 0.0)
  const W3 := World(W2.rt.(tenantStates := map["a" := FRESH_TENANT]),
                    [CALL_A.(phase := Racing, startedAt := Some(0.0))], 0.0)
  const W4 := W3.(calls := [W3.calls[0].(provider := Resolved(true, Some(1)))])
  const W4R := World(W3.rt.(tenantStates := map["a" := RECORDED]), [RAN_A.(phase := Racing, outcome := Undecided)], 0.0)
  const W5 := World(W3.rt.(tenantStates := map["a" := SPENT]), [RAN_A], 0.0)
  const W6 := W5.(calls := [RAN_A.(phase := Released)])
  const W7 := World(W5.rt.(inFlightRunCount := map[]), [RAN_A.(phase := Settled)], 0.0)
  const W8 := World(W7.rt.(pendingHeartbeatRuns := {}), [DONE_A], 0.0)

  const ENTERED: seq<Label> := [] + [Start("a")] + [Tick(0.0)] + [Enter(0, false, AdmitAt(0.0))]
  const CHARGED: seq<Label> :=
    ENTERED + [ProviderSettles(0, Resolved(true, Some(1)))] + [RaceResolved(0, AllAt(0.0), AllAt(0.0))]
  const FIRST_RUN: seq<Label> := CHARGED + [Release(0)] + [Decrement(0)] + [Finish(0)]

  lemma AArrives(ttl: Time, cooldown: Time)
    requires 0.0 < ttl
    ensures Run(Tight(ttl, cooldown), 0.0, [] + [Start("a")] + [Tick(0.0)]) == Some(W2)
  {
    var cfg := Tight(ttl, cooldown);
    assert Step(cfg, Init(0.0), Start("a")) == W1;
    RunSnoc(cfg, 0.0, [], Start("a"), Init(0.0), W1);
    assert Step(cfg, W1, Tick(0.0)) == W2;
    RunSnoc(cfg, 0.0, [] + [Start("a")], Tick(0.0), W1, W2);
  }

  lemma AEnters(ttl: Time, cooldown: Time)
    requires 0.0 < ttl
    ensures MayEnter(W2, 0) && Step(Tight(ttl, cooldown), W2, Enter(0, false, AdmitAt(0.0))) == W3
  {
    assert W2.calls[0 := W3.calls[0]] == W3.calls;
  }

  lemma ASettles(ttl: Time, cooldown: Time)
    requires 0.0 < ttl
    ensures Step(Tight(ttl, cooldown), W3, ProviderSettles(0, Resolved(true, Some(1)))) == W4
  {
    assert W3.calls[0 := W4.calls[0]] == W4.calls;
  }

  lemma ARecorded(ttl: Time, cooldown: Time)
    requires 0.0 < ttl
    ensures Record(Tight(ttl, cooldown), W4, 0, Racing, 1, AllAt(0.0)) == W4R
  {
    var rt := RecordRun(Tight(ttl, cooldown), W4.rt, "a", 0.0, 1, AllAt(0.0));
    assert rt.tenantStates["a"].runTimestamps == RECORDED.runTimestamps;
    assert rt.tenantStates["a"].tokenTimestamps == RECORDED.tokenTimestamps;
    assert rt == W4R.rt;
    assert W4.calls[0].charges + [1] == [1];
    assert W4.calls[0 := W4R.calls[0]] == W4R.calls;
  }

  lemma AFails(ttl: Time, cooldown: Time)
    requires 0.0 < ttl
    ensures Step(Tight(ttl, cooldown), W4, RaceResolved(0, AllAt(0.0), AllAt(0.0))) == W5
  {
    ARecorded(ttl, cooldown);
    var rt := RecordFailure(Tight(ttl, cooldown), W4R.rt, "a", 0.0, AllAt(0.0));
    assert rt.tenantStates["a"] == SPENT;
    assert rt == W5.rt;
    assert W4R.calls[0 := W5.calls[0]] == W5.calls;
  }

  lemma FirstRunCharges(ttl: Time, cooldown: Time)
    requires 0.0 < ttl
    ensures Run(Tight(ttl, cooldown), 0.0, CHARGED) == Some(W5)
  {
    var cfg := Tight(ttl, cooldown);
    AArrives(ttl, cooldown);
    AEnters(ttl, cooldown);
    RunSnoc(cfg, 0.0, [] + [Start("a")] + [Tick(0.0)], Enter(0, false, AdmitAt(0.0)), W2, W3);
    ASettles(ttl, cooldown);
    RunSnoc(cfg, 0.0, ENTERED, ProviderSettles(0, Resolved(true, Some(1))), W3, W4);
    AFails(ttl, cooldown);
    RunSnoc(cfg, 0.0, ENTERED + [ProviderSettles(0, Resolved(true, Some(1)))],
            RaceResolved(0, AllAt(0.0), AllAt(0.0)), W4, W5);
  }

  lemma FirstRunFinishes(ttl: Time, cooldown: Time)
    requires 0.0 < ttl
    ensures Run(Tight(ttl, cooldown), 0.0, FIRST_RUN) == Some(W8)
  {
    var cfg := Tight(ttl, cooldown);
    FirstRunCharges(ttl, cooldown);
    assert Step(cfg, W5, Release(0)) == W6;
    RunSnoc(cfg, 0.0, CHARGED, Release(0), W5, W6);
    assert Step(cfg, W6, Decrement(0)) == W7;
    RunSnoc(cfg, 0.0, CHARGED + [Release(0)], Decrement(0), W6, W7);
    assert Step(cfg, W7, Finish(0)) == W8;
    RunSnoc(cfg, 0.0, CHARGED + [Release(0)] + [Decrement(0)], Finish(0), W7, W8);
  }

  // ---------------------------------------------------------------- b runs later than the TTL and evicts a

  function CallB(phase: Phase, startedAt: Option<Time>): Call {
    Call("b", Event, None, phase, startedAt, Pending, Undecided, false, [])
  }

  function W9(at: Time): World {
    World(W8.rt.(processingEvents := true, tenantLocks := map["a" := 0, "b" := 1], inFlightRunCount := map["b" := 1],
                 tenantLastActivityAt := map["a" := 0.0, "b" := at]),
          [DONE_A, CallB(Waiting, None)], at)
  }

  function W10(at: Time): World {
    World(W9(at).rt.(tenantLocks := map["b" := 1], tenantLastActivityAt := map["b" := at],
                     tenantStates := map["b" := FRESH_TENANT]),
          [DONE_A, CallB(Racing, Some(at))], at)
  }

  function W11(at: Time): World {
    World(W10(at).rt.(pendingHeartbeatRuns := {"a"}, tenantLocks := map["a" := 2, "b" := 1],
                      inFlightRunCount := map["a" := 1, "b" := 1],
                      tenantLastActivityAt := map["a" := at, "b" := at]),
          W10(at).calls + [CALL_A], at)
  }

  lemma BEnters(ttl: Time, cooldown: Time, at: Time)
    requires 0.0 < ttl < at
    ensures Run(Tight(ttl, cooldown), 0.0, FIRST_RUN + [Emit("b", at)]) == Some(W9(at))
  {
    var cfg := Tight(ttl, cooldown);
    FirstRunFinishes(ttl, cooldown);
    assert Step(cfg, W8, Emit("b", at)) == W9(at);
    RunSnoc(cfg, 0.0, FIRST_RUN, Emit("b", at), W8, W9(at));
  }

  lemma BEvictsA(ttl: Time, cooldown: Time, at: Time)
    requires 0.0 < ttl < at
    ensures MayEnter(W9(at), 1) && Step(Tight(ttl, cooldown), W9(at), Enter(1, false, AdmitAt(at))) == W10(at)
  {
  }

  lemma AWaits(ttl: Time, cooldown: Time, at: Time)
    requires 0.0 < ttl < at
    ensures MayEnter(W11(at), 2) && Step(Tight(ttl, cooldown), W10(at), Tick(at)) == W11(at)
  {
  }

  function Forgetful(at: Time): seq<Label> {
    FIRST_RUN + [Emit("b", at)] + [Enter(1, false, AdmitAt(at))] + [Tick(at)]
  }

  lemma ForgetfulRun(ttl: Time, cooldown: Time, at: Time)
    requires 0.0 < ttl < at
    ensures Run(Tight(ttl, cooldown), 0.0, Forgetful(at)) == Some(W11(at))
  {
    var cfg := Tight(ttl, cooldown);
    BEnters(ttl, cooldown, at);
    BEvictsA(ttl, cooldown, at);
    RunSnoc(cfg, 0.0, FIRST_RUN + [Emit("b", at)], Enter(1, false, AdmitAt(at)), W9(at), W10(at));
    AWaits(ttl, cooldown, at);
    RunSnoc(cfg, 0.0, FIRST_RUN + [Emit("b", at)] + [Enter(1, false, AdmitAt(at))], Tick(at), W10(at), W11(at));
  }

  // ---------------------------------------------------------------- a runs again

  function AgainA(at: Time): Call {
    Call("a", Heartbeat, None, BodyDone, Some(at), Resolved(false, Some(1)), Succeeded, false, [1])
  }

  function W12(at: Time): World {
    World(W11(at).rt.(tenantStates := map["a" := FRESH_TENANT, "b" := FRESH_TENANT]),
          W10(at).calls + [CALL_A.(phase := Racing, startedAt := Some(at))], at)
  }

  function W13(at: Time): World {
    W12(at).(calls := W10(at).calls + [W12(at).calls[2].(provider := Resolved(false, Some(1)))])
  }

  function W14(at: Time): World {
    World(W12(at).rt.(tenantStates := map["a" := TenantState([at], [TokenEntry(1, at)], 0, None), "b" := FRESH_TENANT]),
          W10(at).calls + [AgainA(at)], at)
  }

  lemma FreshAgain(ttl: Time, cooldown: Time, at: Time)
    requires 0.0 < ttl < at
    ensures GetTenantState(Tight(ttl, cooldown), W11(at).rt, "a", AllAt(at)) == W12(at).rt
  {
    assert Touch(W11(at).rt, "a", at) == W11(at).rt;
  }

  lemma StillFresh(ttl: Time, cooldown: Time, at: Time)
    requires 0.0 < ttl < at
    ensures GetTenantState(Tight(ttl, cooldown), W12(at).rt, "a", AllAt(at)) == W12(at).rt
  {
    assert Touch(W12(at).rt, "a", at) == W12(at).rt;
  }

  lemma AAdmittedAgain(ttl: Time, cooldown: Time, at: Time)
    requires 0.0 < ttl < at
    ensures Admit(Tight(ttl, cooldown), W11(at).rt, "a", false, AdmitAt(at)) == (W12(at).rt, Admitted)
  {
    var cfg, rt := Tight(ttl, cooldown), W11(at).rt;
    FreshAgain(ttl, cooldown, at);
    StillFresh(ttl, cooldown, at);
    assert Touch(rt, "a", at) == rt;
    assert Prune(FRESH_TENANT, at) == FRESH_TENANT;
    assert WithState(W12(at).rt, "a", FRESH_TENANT) == W12(at).rt;
    assert CheckBudget(cfg, rt, "a", at, AllAt(at)) == (W12(at).rt, true);
    assert IsCircuitOpen(cfg, W12(at).rt, "a", at, AllAt(at)) == (W12(at).rt, false);
  }

  lemma AEntersAgain(ttl: Time, cooldown: Time, at: Time)
    requires 0.0 < ttl < at
    ensures MayEnter(W11(at), 2) && Step(Tight(ttl, cooldown), W11(at), Enter(2, false, AdmitAt(at))) == W12(at)
  {
    AAdmittedAgain(ttl, cooldown, at);
    assert W11(at).calls[2 := W12(at).calls[2]] == W12(at).calls;
  }

  lemma ARecordedAgain(ttl: Time, cooldown: Time, at: Time)
    requires 0.0 < ttl < at
    ensures Record(Tight(ttl, cooldown), W13(at), 2, Racing, 1, AllAt(at)) ==
            W14(at).(calls := W10(at).calls + [AgainA(at).(phase := Racing, outcome := Undecided)])
  {
    var rt := RecordRun(Tight(ttl, cooldown), W13(at).rt, "a", at, 1, AllAt(at));
    assert rt.tenantStates["a"].runTimestamps == [at] && rt.tenantStates["a"].tokenTimestamps == [TokenEntry(1, at)];
    assert rt.tenantStates == W14(at).rt.tenantStates;
    assert rt == W14(at).rt;
    assert W13(at).calls[2].charges + [1] == [1];
    assert W13(at).calls[2 := AgainA(at).(phase := Racing, outcome := Undecided)] ==
           W10(at).calls + [AgainA(at).(phase := Racing, outcome := Undecided)];
  }

  lemma ASucceedsAgain(ttl: Time, cooldown: Time, at: Time)
    requires 0.0 < ttl < at
    ensures Step(Tight(ttl, cooldown), W13(at), RaceResolved(2, AllAt(at), AllAt(at))) == W14(at)
  {
    ARecordedAgain(ttl, cooldown, at);
    var w := W14(at).(calls := W10(at).calls + [AgainA(at).(phase := Racing, outcome := Undecided)]);
    var rt := RecordSuccess(Tight(ttl, cooldown), w.rt, "a", AllAt(at));
    assert rt.tenantStates == W14(at).rt.tenantStates;
    assert rt == W14(at).rt;
    assert w.calls[2 := AgainA(at)] == W14(at).calls;
  }

  function Again(at: Time): seq<Label> {
    Forgetful(at) + [Enter(2, false, AdmitAt(at))] + [ProviderSettles(2, Resolved(false, Some(1)))]
    + [RaceResolved(2, AllAt(at), AllAt(at))]
  }

  lemma AgainUntilRace(ttl: Time, cooldown: Time, at: Time)
    requires 0.0 < ttl < at
    ensures Run(Tight(ttl, cooldown), 0.0, Forgetful(at) + [Enter(2, false, AdmitAt(at))]) == Some(W12(at))
  {
    ForgetfulRun(ttl, cooldown, at);
    AEntersAgain(ttl, cooldown, at);
    RunSnoc(Tight(ttl, cooldown), 0.0, Forgetful(at), Enter(2, false, AdmitAt(at)), W11(at), W12(at));
  }

  lemma ASettlesAgain(ttl: Time, cooldown: Time, at: Time)
    requires 0.0 < ttl
    ensures Step(Tight(ttl, cooldown), W12(at), ProviderSettles(2, Resolved(false, Some(1)))) == W13(at)
  {
    assert W12(at).calls[2 := W13(at).calls[2]] == W13(at).calls;
  }

  lemma AgainRun(ttl: Time, cooldown: Time, at: Time)
    requires 0.0 < ttl < at
    ensures Run(Tight(ttl, cooldown), 0.0, Again(at)) == Some(W14(at))
  {
    var cfg, ls := Tight(ttl, cooldown), Forgetful(at) + [Enter(2, false, AdmitAt(at))];
    AgainUntilRace(ttl, cooldown, at);
    ASettlesAgain(ttl, cooldown, at);
    RunSnoc(cfg, 0.0, ls, ProviderSettles(2, Resolved(false, Some(1))), W12(at), W13(at));
    ASucceedsAgain(ttl, cooldown, at);
    RunSnoc(cfg, 0.0, ls + [ProviderSettles(2, Resolved(false, Some(1)))], RaceResolved(2, AllAt(at), AllAt(at)), W13(at), W14(at));
  }

  lemma SumOfThree(a: Call, b: Call, c: Call, f: Call -> int)
    ensures Sum([a, b, c], f) == f(a) + f(b) + f(c)
  {
    assert [a, b, c] == [] + [a] + [b] + [c];
    SumAppend([], a, f);
    SumAppend([] + [a], b, f);
    SumAppend([] + [a] + [b], c, f);
  }

  lemma OneTokenSpent()
    ensures Spent(RAN_A) == 1 && Spent(DONE_A) == 1 && forall at :: Spent(AgainA(at)) == 1
  {
    SumAppend([], 1, Positive());
    assert [] + [1] == [1];
  }

  // ---------------------------------------------------------------- budget decisions

  /** With a shorter eviction time, a tenant that has used up its day's tokens is let in again. */
  lemma ShortEvictionForgets(ttl: Time, cooldown: Time, at: Time)
    requires 0.0 < ttl < at < 86400000.0
    ensures !DecisionSeesEverything(Tight(ttl, cooldown), 0.0, Forgetful(at), 2, AdmitAt(at))
  {
    ForgetfulRun(ttl, cooldown, at);
    AWaits(ttl, cooldown, at);
    ThirdCallIsAs(at);
    LedgersForget(ttl, cooldown, at);
    HistoryRemembers(ttl, cooldown, at);
    DecisionMisses(Tight(ttl, cooldown), 0.0, Forgetful(at), W11(at), 2, AdmitAt(at));
  }

  lemma ThirdCallIsAs(at: Time)
    ensures |W11(at).calls| == 3 && W11(at).calls[2] == CALL_A
  {
    assert W11(at).calls == [DONE_A, CallB(Racing, Some(at)), CALL_A];
  }

  /** The decision at the end of a run is not the one the history gives. */
  lemma DecisionMisses(cfg: Config, start: Time, ls: seq<Label>, w: World, c: CallId, r: AdmitReads)
    requires cfg.Valid() && Run(cfg, start, ls) == Some(w)
    requires Enabled(cfg, w, Enter(c, false, r)) && w.calls[c].tenant in cfg.budgets
    requires BudgetDecision(cfg, w, w.calls[c].tenant, r) && !HistoryAdmits(cfg, w.calls, w.calls[c].tenant, r.now)
    ensures !DecisionSeesEverything(cfg, start, ls, c, r)
  {
  }

  lemma LedgersForget(ttl: Time, cooldown: Time, at: Time)
    requires 0.0 < ttl < at
    ensures BudgetDecision(Tight(ttl, cooldown), W11(at), "a", AdmitAt(at))
  {
  }

  lemma HistoryRemembers(ttl: Time, cooldown: Time, at: Time)
    requires at < 86400000.0
    ensures !HistoryAdmits(Tight(ttl, cooldown), W11(at).calls, "a", at)
  {
    var f := SpentAfter("a", at - 86400000.0);
    assert W11(at).calls == [DONE_A, CallB(Racing, Some(at)), CALL_A];
    SumOfThree(DONE_A, CallB(Racing, Some(at)), CALL_A, f);
    OneTokenSpent();
    assert Spent(CALL_A) == 0;
  }

  /** Budgets see the full history in every run of every configuration with the given eviction
      setting if and only if that setting is off or at least a day. */
  lemma EvictionIsInvisibleIff(eviction: Option<Time>)
    requires eviction.Some? ==> eviction.value >= 0.0
    ensures (forall cfg: Config | cfg.Valid() && cfg.tenantIdleEvictionMs == eviction :: BudgetsSeeEverything(cfg)) <==>
            (eviction.None? || eviction.value <= 0.0 || eviction.value >= 86400000.0)
  {
    if eviction.None? || eviction.value <= 0.0 || eviction.value >= 86400000.0 {
      forall cfg: Config, start, ls, c, r | cfg.Valid() && cfg.tenantIdleEvictionMs == eviction
        ensures DecisionSeesEverything(cfg, start, ls, c, r)
      {
        LongEvictionIsInvisible(cfg, start, ls, c, r);
      }
    } else {
      var ttl := eviction.value;
      ShortEvictionForgets(ttl, 0.0, (ttl + 86400000.0) / 2.0);
      assert !BudgetsSeeEverything(Tight(ttl, 0.0));
    }
  }

  // ---------------------------------------------------------------- rolling limits and cooldowns

  predicate RunsBounded(cfg: Config, start: Time, ls: seq<Label>, t: Tenant, lo: Time)
    requires cfg.Valid()
  {
    Run(cfg, start, ls).Some? && t in cfg.budgets ==>
      var started := Sum(Run(cfg, start, ls).value.calls, StartedIn(t, lo, lo + 3600000.0));
      started == 0 || started <= cfg.budgets[t].maxRunsPerHour
  }

  ghost predicate AlwaysRunsBounded(cfg: Config)
    requires cfg.Valid()
  {
    forall start, ls, t, lo :: RunsBounded(cfg, start, ls, t, lo)
  }

  /** The hourly run limit holds in every window of every run if and only if eviction is off or
      waits at least an hour. */
  lemma RollingRunBudgetIff(eviction: Option<Time>)
    requires eviction.Some? ==> eviction.value >= 0.0
    ensures (forall cfg: Config | cfg.Valid() && cfg.tenantIdleEvictionMs == eviction :: AlwaysRunsBounded(cfg)) <==>
            (eviction.None? || eviction.value <= 0.0 || eviction.value >= 3600000.0)
  {
    if eviction.None? || eviction.value <= 0.0 || eviction.value >= 3600000.0 {
      forall cfg: Config, start, ls, t, lo | cfg.Valid() && cfg.tenantIdleEvictionMs == eviction
        ensures RunsBounded(cfg, start, ls, t, lo)
      {
        if Run(cfg, start, ls).Some? && t in cfg.budgets {
          RollingRunBudget(cfg, start, ls, t, lo);
        }
      }
    } else {
      var ttl := eviction.value;
      var at := (ttl + 3600000.0) / 2.0;
      AgainRun(ttl, 0.0, at);
      assert W14(at).calls == [DONE_A, CallB(Racing, Some(at)), AgainA(at)];
      SumOfThree(DONE_A, CallB(Racing, Some(at)), AgainA(at), StartedIn("a", at - 3600000.0, at));
      assert !RunsBounded(Tight(ttl, 0.0), 0.0, Again(at), "a", at - 3600000.0);
      assert !AlwaysRunsBounded(Tight(ttl, 0.0));
    }
  }

  ghost predicate TokensBounded(cfg: Config, start: Time, ls: seq<Label>, t: Tenant, lo: Time)
    requires cfg.Valid()
  {
    Run(cfg, start, ls).Some? && t in cfg.budgets ==>
      var calls := Run(cfg, start, ls).value.calls;
      var spent := Sum(calls, SpentIn(t, lo, lo + 86400000.0));
      || spent == 0
      || exists c: CallId ::
           && LastInWindow(calls, |calls|, t, lo, lo + 86400000.0, c)
           && spent < cfg.budgets[t].maxTokensPerDay + Spent(calls[c])
  }

  ghost predicate AlwaysTokensBounded(cfg: Config)
    requires cfg.Valid()
  {
    forall start, ls, t, lo :: TokensBounded(cfg, start, ls, t, lo)
  }

  /** The daily token limit holds, up to the charge of the last run, in every window of every run if
      and only if eviction is off or waits at least a day. */
  lemma RollingTokenBudgetIff(eviction: Option<Time>)
    requires eviction.Some? ==> eviction.value >= 0.0
    ensures (forall cfg: Config | cfg.Valid() && cfg.tenantIdleEvictionMs == eviction :: AlwaysTokensBounded(cfg)) <==>
            (eviction.None? || eviction.value <= 0.0 || eviction.value >= 86400000.0)
  {
    if eviction.None? || eviction.value <= 0.0 || eviction.value >= 86400000.0 {
      forall cfg: Config, start, ls, t, lo | cfg.Valid() && cfg.tenantIdleEvictionMs == eviction
        ensures TokensBounded(cfg, start, ls, t, lo)
      {
        if Run(cfg, start, ls).Some? && t in cfg.budgets {
          RollingTokenBudget(cfg, start, ls, t, lo);
        }
      }
    } else {
      var ttl := eviction.value;
      var at := (ttl + 86400000.0) / 2.0;
      TwoTokensInADay(ttl, at);
      assert !AlwaysTokensBounded(Tight(ttl, 0.0));
    }
  }

  lemma TwoTokensInADay(ttl: Time, at: Time)
    requires 0.0 < ttl < at < 86400000.0
    ensures !TokensBounded(Tight(ttl, 0.0), 0.0, Again(at), "a", at - 86400000.0)
  {
    AgainRun(ttl, 0.0, at);
    var calls, f := W14(at).calls, SpentIn("a", at - 86400000.0, at);
    assert calls == [DONE_A, CallB(Racing, Some(at)), AgainA(at)];
    SumOfThree(DONE_A, CallB(Racing, Some(at)), AgainA(at), f);
    OneTokenSpent();
    assert Sum(calls, f) == 2;
    assert forall c: CallId :: c < |calls| ==> Spent(calls[c]) <= 1;
  }

  predicate CooldownKept(cfg: Config, start: Time, ls: seq<Label>, d: CallId, c: CallId)
    requires cfg.Valid()
  {
    Run(cfg, start, ls).Some? && d < c < |Run(cfg, start, ls).value.calls| ==>
      var calls := Run(cfg, start, ls).value.calls;
      calls[d].tenant == calls[c].tenant && calls[c].tenant in cfg.breakers && Tripped(calls[d]) && calls[c].startedAt.Some? ==>
        calls[d].StartTime() + cfg.breakers[calls[c].tenant].cooldownMs <= calls[c].StartTime()
  }

  ghost predicate AlwaysCooldownKept(cfg: Config)
    requires cfg.Valid()
  {
    forall start, ls, d, c :: CooldownKept(cfg, start, ls, d, c)
  }

  predicate Cools(cfg: Config, cooldown: Time) {
    forall t | t in cfg.breakers :: cfg.breakers[t].cooldownMs == cooldown
  }

  /** No run ever starts within the cooldown of one that opened the breaker if and only if eviction
      is off or waits at least the cooldown. */
  lemma CooldownIsRespectedIff(eviction: Option<Time>, cooldown: Time)
    requires (eviction.Some? ==> eviction.value >= 0.0) && cooldown > 0.0
    ensures (forall cfg: Config | cfg.Valid() && cfg.tenantIdleEvictionMs == eviction && Cools(cfg, cooldown) :: AlwaysCooldownKept(cfg)) <==>
            (eviction.None? || eviction.value <= 0.0 || eviction.value >= cooldown)
  {
    if eviction.None? || eviction.value <= 0.0 || eviction.value >= cooldown {
      forall cfg: Config, start, ls, d: CallId, c: CallId | cfg.Valid() && cfg.tenantIdleEvictionMs == eviction && Cools(cfg, cooldown)
        ensures CooldownKept(cfg, start, ls, d, c)
      {
        if Run(cfg, start, ls).Some? && d < c < |Run(cfg, start, ls).value.calls| {
          var calls := Run(cfg, start, ls).value.calls;
          if calls[d].tenant == calls[c].tenant && calls[c].tenant in cfg.breakers && Tripped(calls[d]) && calls[c].startedAt.Some? {
            CooldownIsRespected(cfg, start, ls, d, c);
          }
        }
      }
    } else {
      var ttl := eviction.value;
      var at := (ttl + cooldown) / 2.0;
      AgainRun(ttl, cooldown, at);
      assert W14(at).calls == [DONE_A, CallB(Racing, Some(at)), AgainA(at)];
      assert !CooldownKept(Tight(ttl, cooldown), 0.0, Again(at), 0, 2);
      assert !AlwaysCooldownKept(Tight(ttl, cooldown));
      assert Cools(Tight(ttl, cooldown), cooldown);
    }
  }

  // ---------------------------------------------------------------- the failure counter

  predicate CounterIsStreak(cfg: Config, start: Time, ls: seq<Label>, t: Tenant)
    requires cfg.Valid()
  {
    Run(cfg, start, ls).Some? ==>
      Run(cfg, start, ls).value.rt.StateOf(t).consecutiveFailures == Streak(Run(cfg, start, ls).value.calls, t)
  }

  ghost predicate AlwaysCounterIsStreak(cfg: Config)
    requires cfg.Valid()
  {
    forall start, ls, t :: CounterIsStreak(cfg, start, ls, t)
  }

  /** The counter is the whole trailing streak of failed runs in all runs if and only if eviction is off. */
  lemma CounterIsWholeStreakIff(eviction: Option<Time>)
    requires eviction.Some? ==> eviction.value >= 0.0
    ensures (forall cfg: Config | cfg.Valid() && cfg.tenantIdleEvictionMs == eviction :: AlwaysCounterIsStreak(cfg)) <==>
            (eviction.None? || eviction.value <= 0.0)
  {
    if eviction.None? || eviction.value <= 0.0 {
      forall cfg: Config, start, ls, t | cfg.Valid() && cfg.tenantIdleEvictionMs == eviction
        ensures CounterIsStreak(cfg, start, ls, t)
      {
        if Run(cfg, start, ls).Some? {
          CounterIsStreakSinceCreation(cfg, start, ls, t);
        }
      }
    } else {
      var ttl := eviction.value;
      ForgetfulRun(ttl, 0.0, ttl + 1.0);
      StreakOutlivesState(ttl + 1.0);
      assert !CounterIsStreak(Tight(ttl, 0.0), 0.0, Forgetful(ttl + 1.0), "a");
      assert !AlwaysCounterIsStreak(Tight(ttl, 0.0));
    }
  }

  lemma StreakOutlivesState(at: Time)
    ensures Streak(W11(at).calls, "a") == 1 && W11(at).rt.StateOf("a").consecutiveFailures == 0
  {
    var calls := W11(at).calls;
    assert calls[..2] == [DONE_A, CallB(Racing, Some(at))] && calls[..2][..1] == [DONE_A] && calls[..2][..1][..0] == [];
    assert Streak(calls[..2][..1], "a") == 1;
    assert Streak(calls[..2], "a") == 1;
  }
}
