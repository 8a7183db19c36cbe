/** The failure counter is the trailing streak of failed runs since the tenant's state was last
    created, for every eviction setting. */
module RuntimeStreaks {
  import opened Seqs
  import opened RuntimeState
  import opened RuntimeWorld
  import opened RuntimeServing
  import opened RuntimeLocks
  import opened RuntimeLedger
  import opened RuntimeCharges
  import opened RuntimeBreaker

  predicate Creates(cfg: Config, w: World, l: Label, t: Tenant)
    requires cfg.Valid() && Enabled(cfg, w, l)
  {
    IsBodyLabel(l) && t !in w.rt.tenantStates && t in Step(cfg, w, l).rt.tenantStates
  }

  /** The call in which the state of t was last created; 0 if it never was. */
  function Born(cfg: Config, start: Time, ls: seq<Label>, t: Tenant): CallId
    requires cfg.Valid()
  {
    if ls == [] then 0
    else
      var before, l := ls[..|ls| - 1], ls[|ls| - 1];
      var w := Run(cfg, start, before);
      if w.Some? && Enabled(cfg, w.value, l) && Creates(cfg, w.value, l, t) then l.c
      else Born(cfg, start, before, t)
  }

  // ---------------------------------------------------------------- streaks of suffixes

  lemma {:induction false} ForeignCallSameStreak(calls: seq<Call>, c: CallId, k': Call, t: Tenant)
    requires c < |calls| && k'.tenant == calls[c].tenant && k'.tenant != t
    ensures Streak(calls[c := k'], t) == Streak(calls, t)
  {
    var n := |calls| - 1;
    if c < n {
      assert calls[c := k'][..n] == calls[..n][c := k'];
      ForeignCallSameStreak(calls[..n], c, k', t);
    } else {
      assert calls[c := k'][..n] == calls[..n];
    }
  }

  lemma {:induction false} UndecidedNoStreak(calls: seq<Call>, t: Tenant)
    requires forall d :: 0 <= d < |calls| && calls[d].tenant == t ==> calls[d].outcome.Undecided?
    ensures Streak(calls, t) == 0
  {
    if calls != [] {
      UndecidedNoStreak(calls[..|calls| - 1], t);
    }
  }

  lemma UndecidedSince(calls: seq<Call>, t: Tenant, from: CallId)
    requires from <= |calls|
    requires forall d :: from <= d < |calls| && calls[d].tenant == t ==> calls[d].outcome.Undecided?
    ensures Streak(calls[from..], t) == 0
  {
    var tail := calls[from..];
    assert forall d :: 0 <= d < |tail| ==> tail[d] == calls[from + d];
    UndecidedNoStreak(tail, t);
  }

  // ---------------------------------------------------------------- the invariant

  /** The state of t was created in call b, and counts the failures since. */
  predicate CountsSince(w: World, t: Tenant, b: CallId) {
    t in w.rt.tenantStates ==>
      && b < |w.calls| && w.calls[b].tenant == t && !w.calls[b].phase.Waiting?
      && w.rt.StateOf(t).consecutiveFailures == Streak(w.calls[b..], t)
  }

  /** While a decided call is in the body, its tenant has a state. */
  ghost predicate HasState(w: World, t: Tenant) {
    forall c :: 0 <= c < |w.calls| && w.calls[c].tenant == t && w.calls[c].InBody() && !w.calls[c].outcome.Undecided? ==>
      t in w.rt.tenantStates
  }

  // ---------------------------------------------------------------- what a step does to the counter

  /** How the outcome of call c moves the counter of its tenant. */
  predicate CountMoves(w: World, w': World, c: CallId)
    requires c < |w.calls| && c < |w'.calls|
  {
    var k, k' := w.calls[c], w'.calls[c];
    var n, n' := w.rt.StateOf(k.tenant).consecutiveFailures, w'.rt.StateOf(k.tenant).consecutiveFailures;
    if k'.outcome == k.outcome then n' == n
    else
      && k.outcome.Undecided? && k.tenant in w'.rt.tenantStates
      && if k'.outcome.Failed? then n' == n + 1 else n' == 0
  }

  lemma RecordMovesCount(cfg: Config, w: World, c: CallId, phase: Phase, tokens: int, r: Reads)
    requires CountInv(w) && c < |w.calls| && w.calls[c].InBody() && Reading(w.clock, r)
    ensures
      var w' := Record(cfg, w, c, phase, tokens, r);
      && CountMoves(w, w', c)
      && w'.rt.StateOf(w.calls[c].tenant).consecutiveFailures == w.rt.StateOf(w.calls[c].tenant).consecutiveFailures
      && w'.rt.InFlight(w.calls[c].tenant) > 0
  {
    ActiveTenant(w, c);
    RecordRunServes(cfg, w.rt, w.calls[c].tenant, w.calls[c].StartTime(), tokens, w.clock, r);
  }

  lemma FailMovesCount(cfg: Config, w: World, c: CallId, phase: Phase, r: Reads)
    requires c < |w.calls| && w.rt.InFlight(w.calls[c].tenant) > 0 && Reading(w.clock, r)
    requires w.calls[c].outcome.Undecided?
    ensures CountMoves(w, Fail(cfg, w, c, phase, r), c)
  {
    RecordFailureServes(cfg, w.rt, w.calls[c].tenant, w.calls[c].StartTime(), w.clock, r);
  }

  lemma SucceedMovesCount(cfg: Config, w: World, c: CallId, r: Reads)
    requires c < |w.calls| && w.rt.InFlight(w.calls[c].tenant) > 0 && Reading(w.clock, r)
    requires w.calls[c].outcome.Undecided?
    ensures CountMoves(w, Succeed(cfg, w, c, r), c)
  {
    RecordSuccessServes(cfg, w.rt, w.calls[c].tenant, w.clock, r);
  }

  lemma RaceResolvedMovesCount(cfg: Config, w: World, c: CallId, r: Reads, r': Reads)
    requires cfg.Valid() && CountInv(w) && Enabled(cfg, w, RaceResolved(c, r, r')) && w.calls[c].outcome.Undecided?
    ensures CountMoves(w, Step(cfg, w, RaceResolved(c, r, r')), c)
  {
    var w1 := Record(cfg, w, c, Racing, w.calls[c].ReportedTokens(), r);
    RecordMovesCount(cfg, w, c, Racing, w.calls[c].ReportedTokens(), r);
    if w.calls[c].provider.failed {
      FailMovesCount(cfg, w1, c, BodyDone, r');
    } else {
      SucceedMovesCount(cfg, w1, c, r');
    }
  }

  lemma BodyStepMovesCount(cfg: Config, w: World, l: Label)
    requires cfg.Valid() && CountInv(w) && ShapeInv(cfg, w.calls) && Enabled(cfg, w, l) && IsBodyLabel(l)
    ensures
      var w' := Step(cfg, w, l);
      l.c < |w'.calls| && CountMoves(w, w', l.c)
  {
    assert Shaped(cfg, w.calls[l.c]);
    ActiveTenant(w, l.c);
    match l
    case Enter(c, killed, r) => AdmissionAndBreaker(cfg, w.rt, w.calls[c].tenant, killed, w.clock, r);
    case RaceResolved(c, r, r') => RaceResolvedMovesCount(cfg, w, c, r, r');
    case LateRecorded(c, r) => RecordMovesCount(cfg, w, c, BodyDone, w.calls[c].ReportedTokens(), r);
    case GraceSettled(c, r) => RecordMovesCount(cfg, w, c, Hold, w.calls[c].ReportedTokens(), r);
    case GraceExpired(c, r) => RecordMovesCount(cfg, w, c, Hold, cfg.runTimeoutChargeTokens, r);
    case RaceRejected(c, r) => FailMovesCount(cfg, w, c, Late, r);
    case RaceTimedOut(c, r) => FailMovesCount(cfg, w, c, Grace, r);
  }

  /** Deciding the latest call of t counts in every streak that starts before it. */
  lemma SuffixStreakMoves(calls: seq<Call>, c: CallId, k': Call, from: CallId)
    requires from <= c < |calls| && k'.tenant == calls[c].tenant
    requires k'.outcome == calls[c].outcome || calls[c].outcome.Undecided?
    requires forall d :: c < d < |calls| && calls[d].tenant == k'.tenant ==> calls[d].outcome.Undecided?
    ensures
      var n, n' := Streak(calls[from..], k'.tenant), Streak(calls[c := k'][from..], k'.tenant);
      if k'.outcome == calls[c].outcome then n' == n else if k'.outcome.Failed? then n' == n + 1 else n' == 0
  {
    var tail := calls[from..];
    assert calls[c := k'][from..] == tail[c - from := k'];
    if k'.outcome == calls[c].outcome {
      SameOutcomesSameStreak(tail, tail[c - from := k'], k'.tenant);
    } else {
      DecidingChangesStreak(tail, c - from, k', k'.tenant);
    }
  }

  lemma OwnMoveCounts(cfg: Config, w: World, w': World, c: CallId, b: CallId)
    requires LockInv(w) && DecidedInv(w.calls) && BodyMove(cfg, w, w', c) && CountMoves(w, w', c)
    requires w.calls[c].InBody() || (w.calls[c].phase.Waiting? && MayEnter(w, c))
    requires !w'.calls[c].phase.Waiting?
    requires CountsSince(w, w.calls[c].tenant, b) && HasState(w, w.calls[c].tenant)
    ensures CountsSince(w', w.calls[c].tenant, if w.calls[c].tenant in w.rt.tenantStates then b else c)
  {
    var t, k' := w.calls[c].tenant, w'.calls[c];
    assert Decided(w.calls[c]);
    forall d | c < d < |w.calls| && w.calls[d].tenant == t
      ensures w.calls[d].outcome.Undecided? && w.calls[d].phase.Waiting?
    {
      AloneInBody(w, c, d);
    }
    if t in w'.rt.tenantStates {
      var from := if t in w.rt.tenantStates then b else c;
      assert from <= c;
      if t !in w.rt.tenantStates {
        assert w.calls[c].outcome.Undecided?;
        UndecidedSince(w.calls, t, from);
      }
      SuffixStreakMoves(w.calls, c, k', from);
    }
  }

  lemma ForeignMoveCounts(cfg: Config, w: World, w': World, c: CallId, t: Tenant, b: CallId)
    requires BodyMove(cfg, w, w', c) && w.calls[c].tenant != t && CountsSince(w, t, b)
    requires !w'.calls[c].phase.Waiting?
    ensures CountsSince(w', t, b) && (t in w'.rt.tenantStates ==> t in w.rt.tenantStates)
  {
    assert Kept(w.rt, w'.rt, t) || Evicted(cfg, w.rt, w'.rt, t, w'.clock);
    if t in w'.rt.tenantStates {
      if c < b {
        assert w'.calls[b..] == w.calls[b..];
      } else {
        assert w'.calls[b..] == w.calls[b..][c - b := w'.calls[c]];
        ForeignCallSameStreak(w.calls[b..], c - b, w'.calls[c], t);
      }
    }
  }

  lemma MoveKeepsHasState(cfg: Config, w: World, w': World, c: CallId, t: Tenant)
    requires CountInv(w) && BodyMove(cfg, w, w', c) && CountMoves(w, w', c) && HasState(w, t)
    requires w.calls[c].InBody() || w.calls[c].outcome.Undecided?
    ensures HasState(w', t)
  {
    forall d | 0 <= d < |w'.calls| && w'.calls[d].tenant == t && w'.calls[d].InBody() && !w'.calls[d].outcome.Undecided?
      ensures t in w'.rt.tenantStates
    {
      ActiveTenant(w, d);
      assert t == w.calls[c].tenant || Kept(w.rt, w'.rt, t) || Evicted(cfg, w.rt, w'.rt, t, w'.clock);
    }
  }

  /** Outside doExecuteRun calls leave the body and never come back, nor start to wait. */
  lemma QuietStepsLeaveBody(cfg: Config, w: World, l: Label, d: CallId)
    requires cfg.Valid() && Enabled(cfg, w, l) && !IsBodyLabel(l) && d < |w.calls|
    ensures d < |Step(cfg, w, l).calls|
    ensures Step(cfg, w, l).calls[d].InBody() ==> w.calls[d].InBody()
    ensures Step(cfg, w, l).calls[d].phase.Waiting? ==> w.calls[d].phase.Waiting?
  {
  }

  lemma QuietStepCounts(cfg: Config, w: World, l: Label, t: Tenant, b: CallId)
    requires cfg.Valid() && TimeInv(cfg, w) && Enabled(cfg, w, l) && !IsBodyLabel(l) && CountsSince(w, t, b) && HasState(w, t)
    ensures CountsSince(Step(cfg, w, l), t, b) && HasState(Step(cfg, w, l), t)
  {
    var w' := Step(cfg, w, l);
    StepIsQuiet(cfg, w, l);
    if t in w.rt.tenantStates {
      QuietStepsLeaveBody(cfg, w, l, b);
      SameOutcomesSameStreak(w.calls[b..], w'.calls[b..], t);
    }
    forall d | 0 <= d < |w'.calls| && w'.calls[d].tenant == t && w'.calls[d].InBody() && !w'.calls[d].outcome.Undecided?
      ensures t in w'.rt.tenantStates
    {
      if d < |w.calls| {
        QuietStepsLeaveBody(cfg, w, l, d);
      }
    }
  }

  lemma BodyStepLeavesWaiting(cfg: Config, w: World, l: Label)
    requires cfg.Valid() && Enabled(cfg, w, l) && IsBodyLabel(l)
    ensures l.c < |Step(cfg, w, l).calls| && !Step(cfg, w, l).calls[l.c].phase.Waiting?
    ensures w.calls[l.c].InBody() || (w.calls[l.c].phase.Waiting? && MayEnter(w, l.c))
  {
  }

  lemma BodyStepCounts(cfg: Config, w: World, l: Label, t: Tenant, b: CallId)
    requires cfg.Valid() && RuntimeInv(cfg, w) && Enabled(cfg, w, l) && IsBodyLabel(l)
    requires CountsSince(w, t, b) && HasState(w, t)
    ensures CountsSince(Step(cfg, w, l), t, if Creates(cfg, w, l, t) then l.c else b) && HasState(Step(cfg, w, l), t)
  {
    var w' := Step(cfg, w, l);
    assert Shaped(cfg, w.calls[l.c]);
    ShapedIsDecided(cfg, w.calls);
    BodyStepMoves(cfg, w, l);
    BodyStepMovesCount(cfg, w, l);
    BodyStepLeavesWaiting(cfg, w, l);
    MoveKeepsHasState(cfg, w, w', l.c, t);
    if w.calls[l.c].tenant == t {
      OwnMoveCounts(cfg, w, w', l.c, b);
    } else {
      ForeignMoveCounts(cfg, w, w', l.c, t, b);
    }
  }

  lemma {:induction false} RunCounts(cfg: Config, start: Time, ls: seq<Label>, t: Tenant)
    requires cfg.Valid() && Run(cfg, start, ls).Some?
    ensures CountsSince(Run(cfg, start, ls).value, t, Born(cfg, start, ls, t)) && HasState(Run(cfg, start, ls).value, t)
  {
    if ls != [] {
      var before, l := ls[..|ls| - 1], ls[|ls| - 1];
      var w, b := Run(cfg, start, before).value, Born(cfg, start, before, t);
      RunKeepsRuntimeInv(cfg, start, before);
      RunCounts(cfg, start, before, t);
      if IsBodyLabel(l) {
        BodyStepCounts(cfg, w, l, t, b);
      } else {
        QuietStepCounts(cfg, w, l, t, b);
      }
    }
  }
}
