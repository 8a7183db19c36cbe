/** Every run that started is recorded exactly once, before its lock is released; and the
    history invariants of RuntimeLedger hold in every run. */
module RuntimeCharges {
  import opened Seqs
  import opened RuntimeState
  import opened RuntimeWorld
  import opened RuntimeServing
  import opened RuntimeLocks
  import opened RuntimeLedger

  /** What a recorded run is charged: the configured charge if the provider stayed unsettled
      through the grace period, otherwise the tokens it reported (0 if it rejected). */
  predicate ChargedOnce(cfg: Config, k: Call) {
    && k.startedAt.Some?
    && (k.graceExpired || !k.provider.Pending?)
    && k.charges == [if k.graceExpired then cfg.runTimeoutChargeTokens else k.ReportedTokens()]
  }

  /** What is known of a call in each phase. */
  predicate Shaped(cfg: Config, k: Call) {
    match k.phase
    case Waiting => k.startedAt.None? && k.provider.Pending? && k.outcome.Undecided? && !k.graceExpired && k.charges == []
    case Racing => k.startedAt.Some? && k.outcome.Undecided? && !k.graceExpired && k.charges == []
    case Late => k.startedAt.Some? && k.provider.Rejected? && k.outcome.Failed? && !k.graceExpired && k.charges == []
    case Grace => k.startedAt.Some? && k.outcome.Failed? && !k.graceExpired && k.charges == []
    case Hold => ChargedOnce(cfg, k) && k.outcome.Failed?
    case _ =>
      if k.startedAt.Some? then ChargedOnce(cfg, k) && !k.outcome.Undecided?
      else k.outcome.Undecided? && k.charges == []
  }

  ghost predicate ShapeInv(cfg: Config, calls: seq<Call>) {
    forall c :: 0 <= c < |calls| ==> Shaped(cfg, calls[c])
  }

  lemma BodyStepKeepsShape(cfg: Config, w: World, l: Label)
    requires cfg.Valid() && ShapeInv(cfg, w.calls) && Enabled(cfg, w, l) && IsBodyLabel(l)
    ensures
      var calls' := Step(cfg, w, l).calls;
      && |calls'| == |w.calls| && calls' == w.calls[l.c := calls'[l.c]] && Shaped(cfg, calls'[l.c])
  {
    assert Shaped(cfg, w.calls[l.c]);
  }

  lemma StepKeepsShape(cfg: Config, w: World, l: Label)
    requires cfg.Valid() && ShapeInv(cfg, w.calls) && Enabled(cfg, w, l)
    ensures ShapeInv(cfg, Step(cfg, w, l).calls)
  {
    if IsBodyLabel(l) {
      BodyStepKeepsShape(cfg, w, l);
    } else if !(l.Start? || l.Stop? || l.Emit? || l.Tick?) {
      assert Shaped(cfg, w.calls[l.c]);
      assert Shaped(cfg, Step(cfg, w, l).calls[l.c]);
    }
  }

  // ---------------------------------------------------------------- history, step by step

  ghost predicate RuntimeInv(cfg: Config, w: World) {
    SafeInv(cfg, w) && ShapeInv(cfg, w.calls) && TimeInv(cfg, w) && LedgerInv(cfg, w)
  }

  lemma EnterKeepsHistory(cfg: Config, w: World, c: CallId, killed: bool, r: AdmitReads)
    requires cfg.Valid() && RuntimeInv(cfg, w) && Enabled(cfg, w, Enter(c, killed, r))
    ensures TimeInv(cfg, Step(cfg, w, Enter(c, killed, r))) && LedgerInv(cfg, Step(cfg, w, Enter(c, killed, r)))
  {
    var w', t := Step(cfg, w, Enter(c, killed, r)), w.calls[c].tenant;
    assert Shaped(cfg, w.calls[c]);
    EnterMoves(cfg, w, c, killed, r);
    ActiveTenant(w, c);
    var rt1 := Touch(w.rt, t, r.touch);
    if !killed {
      CheckBudgetServes(cfg, rt1, t, r.now, w.clock, r.budget);
      IsCircuitOpenServes(cfg, CheckBudget(cfg, rt1, t, r.now, r.budget).0, t, r.now, w.clock, r.breaker);
    }
    MoveKeepsHistory(cfg, w, w', c, r.now);
  }

  lemma FailKeepsHistory(cfg: Config, w: World, c: CallId, phase: Phase, r: Reads)
    requires TimeInv(cfg, w) && LedgerInv(cfg, w)
    requires c < |w.calls| && w.calls[c].InBody() && w.rt.InFlight(w.calls[c].tenant) > 0 && Reading(w.clock, r)
    requires phase in {Late, Grace, BodyDone}
    ensures TimeInv(cfg, Fail(cfg, w, c, phase, r)) && LedgerInv(cfg, Fail(cfg, w, c, phase, r))
  {
    FailMoves(cfg, w, c, phase, r);
    RecordFailureServes(cfg, w.rt, w.calls[c].tenant, w.calls[c].StartTime(), w.clock, r);
    MoveKeepsHistory(cfg, w, Fail(cfg, w, c, phase, r), c, w.clock);
  }

  lemma SucceedKeepsHistory(cfg: Config, w: World, c: CallId, r: Reads)
    requires TimeInv(cfg, w) && LedgerInv(cfg, w)
    requires c < |w.calls| && w.calls[c].InBody() && w.rt.InFlight(w.calls[c].tenant) > 0 && Reading(w.clock, r)
    ensures TimeInv(cfg, Succeed(cfg, w, c, r)) && LedgerInv(cfg, Succeed(cfg, w, c, r))
  {
    SucceedMoves(cfg, w, c, r);
    RecordSuccessServes(cfg, w.rt, w.calls[c].tenant, w.clock, r);
    MoveKeepsHistory(cfg, w, Succeed(cfg, w, c, r), c, w.clock);
  }

  lemma RecordStepKeepsHistory(cfg: Config, w: World, c: CallId, phase: Phase, tokens: int, r: Reads)
    requires TimeInv(cfg, w) && LedgerInv(cfg, w) && CountInv(w)
    requires c < |w.calls| && w.calls[c].InBody() && w.calls[c].startedAt.Some? && Reading(w.clock, r)
    requires phase in {Racing, Hold, BodyDone}
    ensures TimeInv(cfg, Record(cfg, w, c, phase, tokens, r)) && LedgerInv(cfg, Record(cfg, w, c, phase, tokens, r))
  {
    ActiveTenant(w, c);
    RecordMoves(cfg, w, c, phase, tokens, r);
    RecordKeepsHistory(cfg, w, c, phase, tokens, r);
  }

  lemma RaceResolvedKeepsHistory(cfg: Config, w: World, c: CallId, r: Reads, r': Reads)
    requires cfg.Valid() && RuntimeInv(cfg, w) && Enabled(cfg, w, RaceResolved(c, r, r'))
    ensures TimeInv(cfg, Step(cfg, w, RaceResolved(c, r, r'))) && LedgerInv(cfg, Step(cfg, w, RaceResolved(c, r, r')))
  {
    assert Shaped(cfg, w.calls[c]);
    ActiveTenant(w, c);
    var w1 := Record(cfg, w, c, Racing, w.calls[c].ReportedTokens(), r);
    RecordMoves(cfg, w, c, Racing, w.calls[c].ReportedTokens(), r);
    RecordStepKeepsHistory(cfg, w, c, Racing, w.calls[c].ReportedTokens(), r);
    if w.calls[c].provider.failed {
      FailKeepsHistory(cfg, w1, c, BodyDone, r');
    } else {
      SucceedKeepsHistory(cfg, w1, c, r');
    }
  }

  lemma GraceExpiredKeepsHistory(cfg: Config, w: World, c: CallId, r: Reads)
    requires cfg.Valid() && RuntimeInv(cfg, w) && Enabled(cfg, w, GraceExpired(c, r))
    ensures TimeInv(cfg, Step(cfg, w, GraceExpired(c, r))) && LedgerInv(cfg, Step(cfg, w, GraceExpired(c, r)))
  {
    assert Shaped(cfg, w.calls[c]);
    RecordStepKeepsHistory(cfg, w, c, Hold, cfg.runTimeoutChargeTokens, r);
    QuietKeepsHistory(cfg, Record(cfg, w, c, Hold, cfg.runTimeoutChargeTokens, r), Step(cfg, w, GraceExpired(c, r)));
  }

  lemma BodyStepKeepsHistory(cfg: Config, w: World, l: Label)
    requires cfg.Valid() && RuntimeInv(cfg, w) && Enabled(cfg, w, l) && IsBodyLabel(l)
    ensures TimeInv(cfg, Step(cfg, w, l)) && LedgerInv(cfg, Step(cfg, w, l))
  {
    assert Shaped(cfg, w.calls[l.c]);
    ActiveTenant(w, l.c);
    match l
    case Enter(c, killed, r) => EnterKeepsHistory(cfg, w, c, killed, r);
    case RaceResolved(c, r, r') => RaceResolvedKeepsHistory(cfg, w, c, r, r');
    case LateRecorded(c, r) => RecordStepKeepsHistory(cfg, w, c, BodyDone, w.calls[c].ReportedTokens(), r);
    case GraceSettled(c, r) => RecordStepKeepsHistory(cfg, w, c, Hold, w.calls[c].ReportedTokens(), r);
    case GraceExpired(c, r) => GraceExpiredKeepsHistory(cfg, w, c, r);
    case RaceRejected(c, r) => FailKeepsHistory(cfg, w, c, Late, r);
    case RaceTimedOut(c, r) => FailKeepsHistory(cfg, w, c, Grace, r);
  }

  // ---------------------------------------------------------------- steps outside doExecuteRun

  lemma {:induction false} PumpIsQuiet(rt: Runtime, id: CallId)
    ensures
      var rt' := Pump(rt, id).0;
      rt'.tenantStates == rt.tenantStates && rt'.tenantLastActivityAt == rt.tenantLastActivityAt
    decreases |rt.eventQueue|
  {
    if rt.running && rt.eventQueue != [] && rt.eventQueue[0] == "" {
      PumpIsQuiet(rt.(eventQueue := rt.eventQueue[1..]), id);
    }
  }

  lemma EmitIsQuiet(cfg: Config, w: World, t: Tenant, at: Time)
    requires cfg.Valid() && w.clock <= at
    ensures Quiet(w, Step(cfg, w, Emit(t, at)))
  {
    var rt1 := Touch(w.rt, t, at);
    PumpIsQuiet(rt1.(eventQueue := Enqueue(rt1.eventQueue, t, cfg.maxEventQueueSize), processingEvents := true), |w.calls|);
    var rt := EmitEvent(cfg, w.rt, t, at, |w.calls|).0;
    assert rt.tenantStates == w.rt.tenantStates;
    assert rt.tenantLastActivityAt == if w.rt.running then rt1.tenantLastActivityAt else w.rt.tenantLastActivityAt;
  }

  lemma FinishIsQuiet(cfg: Config, w: World, c: CallId)
    requires cfg.Valid() && Enabled(cfg, w, Finish(c))
    ensures Quiet(w, Step(cfg, w, Finish(c)))
  {
    PumpIsQuiet(w.rt, |w.calls|);
  }

  lemma StepIsQuiet(cfg: Config, w: World, l: Label)
    requires cfg.Valid() && TimeInv(cfg, w) && Enabled(cfg, w, l) && !IsBodyLabel(l)
    ensures Quiet(w, Step(cfg, w, l))
  {
    if l.Emit? {
      EmitIsQuiet(cfg, w, l.tenant, l.at);
    } else if l.Finish? {
      FinishIsQuiet(cfg, w, l.c);
    }
  }

  lemma StepKeepsRuntimeInv(cfg: Config, w: World, l: Label)
    requires cfg.Valid() && RuntimeInv(cfg, w) && Enabled(cfg, w, l)
    ensures RuntimeInv(cfg, Step(cfg, w, l))
  {
    StepKeepsSafe(cfg, w, l);
    StepKeepsShape(cfg, w, l);
    if IsBodyLabel(l) {
      BodyStepKeepsHistory(cfg, w, l);
    } else {
      StepIsQuiet(cfg, w, l);
      QuietKeepsHistory(cfg, w, Step(cfg, w, l));
    }
  }

  lemma {:induction false} RunKeepsRuntimeInv(cfg: Config, start: Time, ls: seq<Label>)
    requires cfg.Valid() && Run(cfg, start, ls).Some?
    ensures RuntimeInv(cfg, Run(cfg, start, ls).value)
  {
    if ls != [] {
      RunKeepsRuntimeInv(cfg, start, ls[..|ls| - 1]);
      StepKeepsRuntimeInv(cfg, Run(cfg, start, ls[..|ls| - 1]).value, ls[|ls| - 1]);
    }
  }
}
