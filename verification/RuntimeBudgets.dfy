/** Budgets over whole runs: decisions made from the pruned ledgers are the decisions the full
    history would give, so the rolling run and token limits hold in every window. */
module RuntimeBudgets {
  import opened Seqs
  import opened RuntimeState
  import opened RuntimeWorld
  import opened RuntimeServing
  import opened RuntimeLocks
  import opened RuntimeLedger
  import opened RuntimeCharges

  // ---------------------------------------------------------------- the history's own decision

  function StartedAfter(t: Tenant, cutoff: Time): Call -> int {
    (c: Call) => if c.tenant == t && c.startedAt.Some? && c.StartTime() > cutoff then 1 else 0
  }

  function StartedIn(t: Tenant, lo: Time, hi: Time): Call -> int {
    (c: Call) => if c.tenant == t && c.startedAt.Some? && lo < c.StartTime() <= hi then 1 else 0
  }

  function SpentIn(t: Tenant, lo: Time, hi: Time): Call -> int {
    (c: Call) => if c.tenant == t && c.startedAt.Some? && lo < c.StartTime() <= hi then Spent(c) else 0
  }

  predicate HistoryWithinRuns(b: Budget, calls: seq<Call>, t: Tenant, now: Time) {
    Sum(calls, StartedAfter(t, now - 3600000.0)) < b.maxRunsPerHour
  }

  predicate HistoryWithinTokens(b: Budget, calls: seq<Call>, t: Tenant, now: Time) {
    Sum(calls, SpentAfter(t, now - 86400000.0)) < b.maxTokensPerDay
  }

  /** The decision taken from all runs ever started and all tokens ever charged. */
  predicate HistoryAdmits(cfg: Config, calls: seq<Call>, t: Tenant, now: Time) {
    t in cfg.budgets ==>
      HistoryWithinRuns(cfg.budgets[t], calls, t, now) && HistoryWithinTokens(cfg.budgets[t], calls, t, now)
  }

  /** The budget decision of doExecuteRun, after its first touchTenant. */
  function BudgetDecision(cfg: Config, w: World, t: Tenant, r: AdmitReads): bool {
    CheckBudget(cfg, Touch(w.rt, t, r.touch), t, r.now, r.budget).1
  }

  // ---------------------------------------------------------------- entering: everything earlier is on record

  /** When a call may enter, no run of its tenant is started but unrecorded. */
  lemma EnteringSeesRecords(cfg: Config, w: World, c: CallId, cutoff: Time)
    requires LockInv(w) && ShapeInv(cfg, w.calls)
    requires c < |w.calls| && w.calls[c].phase.Waiting? && MayEnter(w, c)
    ensures Sum(w.calls, RecordedAfter(w.calls[c].tenant, cutoff)) == Sum(w.calls, StartedAfter(w.calls[c].tenant, cutoff))
    ensures Sum(w.calls, StartedAfter(w.calls[c].tenant, cutoff)) == Sum(w.calls[..c], StartedAfter(w.calls[c].tenant, cutoff))
    ensures Sum(w.calls, SpentAfter(w.calls[c].tenant, cutoff)) == Sum(w.calls[..c], SpentAfter(w.calls[c].tenant, cutoff))
  {
    var t := w.calls[c].tenant;
    MayEnterIff(w, c);
    forall d | 0 <= d < |w.calls|
      ensures RecordedAfter(t, cutoff)(w.calls[d]) == StartedAfter(t, cutoff)(w.calls[d])
      ensures d >= c ==> StartedAfter(t, cutoff)(w.calls[d]) == 0 && SpentAfter(t, cutoff)(w.calls[d]) == 0
    {
      assert Shaped(cfg, w.calls[d]);
      if d > c && w.calls[d].tenant == t {
        assert !EarlierReleased(w.calls, d);
      }
    }
    SumEqual(w.calls, RecordedAfter(t, cutoff), w.calls, StartedAfter(t, cutoff));
    SumSplit(w.calls, c, StartedAfter(t, cutoff));
    SumSplit(w.calls, c, SpentAfter(t, cutoff));
    SumZero(w.calls[c..], StartedAfter(t, cutoff));
    SumZero(w.calls[c..], SpentAfter(t, cutoff));
  }

  lemma {:induction false} PrunedLength(runs: seq<Time>, cutoff: Time)
    ensures |Filter(runs, After(cutoff))| == Sum(runs, CountAfter(cutoff))
  {
    if runs != [] {
      PrunedLength(runs[..|runs| - 1], cutoff);
    }
  }

  lemma {:induction false} PrunedTokens(tokens: seq<TokenEntry>, cutoff: Time)
    ensures Sum(Filter(tokens, TokenAfter(cutoff)), TokensOf()) == Sum(tokens, TokensAfter(cutoff))
  {
    if tokens != [] {
      var n := |tokens| - 1;
      PrunedTokens(tokens[..n], cutoff);
      assert tokens == tokens[..n] + [tokens[n]];
      SumAppend(Filter(tokens[..n], TokenAfter(cutoff)), tokens[n], TokensOf());
    }
  }

  /** The decision taken from one tenant's ledgers. */
  predicate LedgersWithin(b: Budget, st: TenantState, now: Time) {
    && Sum(st.runTimestamps, CountAfter(now - MS_PER_HOUR)) < b.maxRunsPerHour
    && Sum(st.tokenTimestamps, TokensAfter(now - MS_PER_DAY)) < b.maxTokensPerDay
  }

  lemma PrunedWithin(b: Budget, st: TenantState, now: Time)
    ensures (&& |Prune(st, now).runTimestamps| < b.maxRunsPerHour
             && Sum(Prune(st, now).tokenTimestamps, TokensOf()) < b.maxTokensPerDay) == LedgersWithin(b, st, now)
  {
    PrunedLength(st.runTimestamps, now - MS_PER_HOUR);
    PrunedTokens(st.tokenTimestamps, now - MS_PER_DAY);
  }

  /** checkBudget compares the pruned ledgers with the limits. */
  lemma DecisionIsAboutLedgers(cfg: Config, w: World, t: Tenant, r: AdmitReads)
    requires w.rt.InFlight(t) > 0 && AdmitReading(w.clock, r) && t in cfg.budgets
    ensures
      BudgetDecision(cfg, w, t, r) == LedgersWithin(cfg.budgets[t], w.rt.StateOf(t), r.now)
  {
    CheckBudgetVerdict(cfg, Touch(w.rt, t, r.touch), t, r.now, w.clock, r.budget);
    PrunedWithin(cfg.budgets[t], w.rt.StateOf(t), r.now);
  }

  /** The pruned ledgers of an entering call, in terms of the history. */
  lemma LedgersSeeHistory(cfg: Config, w: World, c: CallId, now: Time)
    requires RuntimeInv(cfg, w) && At(w, c, Waiting) && MayEnter(w, c) && w.clock <= now
    requires w.calls[c].tenant in cfg.budgets
    ensures
      var t := w.calls[c].tenant;
      && (cfg.Keeps(MS_PER_HOUR) ==>
            Sum(w.rt.StateOf(t).runTimestamps, CountAfter(now - MS_PER_HOUR)) ==
            Sum(w.calls, StartedAfter(t, now - MS_PER_HOUR)))
      && (cfg.Keeps(MS_PER_DAY) ==>
            Sum(w.rt.StateOf(t).tokenTimestamps, TokensAfter(now - MS_PER_DAY)) ==
            Sum(w.calls, SpentAfter(t, now - MS_PER_DAY)))
  {
    assert LedgersOf(cfg, w.rt, w.calls, w.clock, w.calls[c].tenant);
    EnteringSeesRecords(cfg, w, c, now - MS_PER_HOUR);
  }

  lemma LedgersWithinIsHistory(cfg: Config, w: World, c: CallId, now: Time)
    requires RuntimeInv(cfg, w) && At(w, c, Waiting) && MayEnter(w, c) && w.clock <= now
    requires w.calls[c].tenant in cfg.budgets && cfg.Keeps(MS_PER_DAY)
    ensures LedgersWithin(cfg.budgets[w.calls[c].tenant], w.rt.StateOf(w.calls[c].tenant), now) ==
            HistoryAdmits(cfg, w.calls, w.calls[c].tenant, now)
  {
    LedgersSeeHistory(cfg, w, c, now);
  }

  lemma DecisionIsHistory(cfg: Config, w: World, c: CallId, r: AdmitReads)
    requires RuntimeInv(cfg, w) && At(w, c, Waiting) && MayEnter(w, c) && AdmitReading(w.clock, r)
    requires w.calls[c].tenant in cfg.budgets && cfg.Keeps(MS_PER_DAY)
    ensures BudgetDecision(cfg, w, w.calls[c].tenant, r) <==> HistoryAdmits(cfg, w.calls, w.calls[c].tenant, r.now)
  {
    ActiveTenant(w, c);
    LedgersWithinIsHistory(cfg, w, c, r.now);
    DecisionIsAboutLedgers(cfg, w, w.calls[c].tenant, r);
  }

  // ---------------------------------------------------------------- admitted runs were within budget

  /** Run c was started within the limits, counting only the calls before it. */
  predicate AdmittedWithin(cfg: Config, calls: seq<Call>, c: CallId)
    requires c < |calls|
  {
    var t, at := calls[c].tenant, calls[c].StartTime();
    calls[c].startedAt.Some? && t in cfg.budgets ==>
      && (cfg.Keeps(MS_PER_HOUR) ==> HistoryWithinRuns(cfg.budgets[t], calls[..c], t, at))
      && (cfg.Keeps(MS_PER_DAY) ==> HistoryWithinTokens(cfg.budgets[t], calls[..c], t, at))
  }

  ghost predicate AdmitInv(cfg: Config, calls: seq<Call>) {
    forall c :: 0 <= c < |calls| ==> AdmittedWithin(cfg, calls, c)
  }

  /** What a step may do to a call as far as admissions are concerned. */
  predicate SameStart(k: Call, k': Call) {
    && k'.tenant == k.tenant
    && (k.startedAt.Some? ==> k'.startedAt == k.startedAt)
    && (k.HasReleased() ==> k'.startedAt == k.startedAt && k'.charges == k.charges)
  }

  lemma AdmissionIsStable(cfg: Config, calls: seq<Call>, calls': seq<Call>, c: CallId)
    requires OrderInv(calls) && c < |calls| <= |calls'|
    requires forall d :: 0 <= d < |calls| ==> SameStart(calls[d], calls'[d])
    requires AdmittedWithin(cfg, calls, c) && calls[c].startedAt.Some? && !calls[c].phase.Waiting?
    ensures AdmittedWithin(cfg, calls', c)
  {
    var t, at := calls[c].tenant, calls[c].StartTime();
    assert EarlierReleased(calls, c);
    SumEqual(calls[..c], StartedAfter(t, at - MS_PER_HOUR), calls'[..c], StartedAfter(t, at - MS_PER_HOUR));
    SumEqual(calls[..c], SpentAfter(t, at - MS_PER_DAY), calls'[..c], SpentAfter(t, at - MS_PER_DAY));
  }

  lemma BodyStepSameStart(cfg: Config, w: World, l: Label)
    requires cfg.Valid() && ShapeInv(cfg, w.calls) && Enabled(cfg, w, l) && IsBodyLabel(l)
    ensures
      var calls' := Step(cfg, w, l).calls;
      && |calls'| == |w.calls| && calls' == w.calls[l.c := calls'[l.c]] && SameStart(w.calls[l.c], calls'[l.c])
      && (!l.Enter? ==> calls'[l.c].startedAt == w.calls[l.c].startedAt)
  {
    assert Shaped(cfg, w.calls[l.c]);
  }

  lemma StepSameStart(cfg: Config, w: World, l: Label)
    requires cfg.Valid() && ShapeInv(cfg, w.calls) && Enabled(cfg, w, l)
    ensures
      var calls' := Step(cfg, w, l).calls;
      && |w.calls| <= |calls'|
      && (forall d :: 0 <= d < |w.calls| ==> SameStart(w.calls[d], calls'[d]))
      && (forall d :: 0 <= d < |w.calls| && !(l.Enter? && d == l.c) ==> calls'[d].startedAt == w.calls[d].startedAt)
      && (forall d :: |w.calls| <= d < |calls'| ==> calls'[d].startedAt == None)
  {
    if IsBodyLabel(l) {
      BodyStepSameStart(cfg, w, l);
    }
  }

  lemma AdmittedMeansWithin(cfg: Config, rt: Runtime, t: Tenant, killed: bool, r: AdmitReads)
    requires Admit(cfg, rt, t, killed, r).1.Admitted?
    ensures CheckBudget(cfg, Touch(rt, t, r.touch), t, r.now, r.budget).1
  {
  }

  lemma AdmittedLedgers(cfg: Config, w: World, c: CallId, killed: bool, r: AdmitReads)
    requires RuntimeInv(cfg, w) && At(w, c, Waiting) && AdmitReading(w.clock, r) && w.calls[c].tenant in cfg.budgets
    requires Admit(cfg, w.rt, w.calls[c].tenant, killed, r).1.Admitted?
    ensures LedgersWithin(cfg.budgets[w.calls[c].tenant], w.rt.StateOf(w.calls[c].tenant), r.now)
  {
    AdmittedMeansWithin(cfg, w.rt, w.calls[c].tenant, killed, r);
    ActiveTenant(w, c);
    DecisionIsAboutLedgers(cfg, w, w.calls[c].tenant, r);
  }

  lemma EnterAdmits(cfg: Config, w: World, c: CallId, now: Time)
    requires RuntimeInv(cfg, w) && At(w, c, Waiting) && MayEnter(w, c) && w.clock <= now
    requires w.calls[c].tenant in cfg.budgets
    requires LedgersWithin(cfg.budgets[w.calls[c].tenant], w.rt.StateOf(w.calls[c].tenant), now)
    ensures cfg.Keeps(MS_PER_HOUR) ==>
              HistoryWithinRuns(cfg.budgets[w.calls[c].tenant], w.calls[..c], w.calls[c].tenant, now)
    ensures cfg.Keeps(MS_PER_DAY) ==>
              HistoryWithinTokens(cfg.budgets[w.calls[c].tenant], w.calls[..c], w.calls[c].tenant, now)
  {
    LedgersSeeHistory(cfg, w, c, now);
    EnteringSeesRecords(cfg, w, c, now - MS_PER_HOUR);
    EnteringSeesRecords(cfg, w, c, now - MS_PER_DAY);
  }

  lemma EnterKeepsAdmission(cfg: Config, w: World, c: CallId, killed: bool, r: AdmitReads)
    requires cfg.Valid() && RuntimeInv(cfg, w) && Enabled(cfg, w, Enter(c, killed, r))
    ensures AdmittedWithin(cfg, Step(cfg, w, Enter(c, killed, r)).calls, c)
  {
    var calls' := Step(cfg, w, Enter(c, killed, r)).calls;
    assert Shaped(cfg, w.calls[c]);
    assert calls'[..c] == w.calls[..c];
    if calls'[c].startedAt.Some? && w.calls[c].tenant in cfg.budgets {
      AdmittedLedgers(cfg, w, c, killed, r);
      EnterAdmits(cfg, w, c, r.now);
    }
  }

  lemma StepKeepsAdmissions(cfg: Config, w: World, l: Label)
    requires cfg.Valid() && RuntimeInv(cfg, w) && AdmitInv(cfg, w.calls) && Enabled(cfg, w, l)
    ensures AdmitInv(cfg, Step(cfg, w, l).calls)
  {
    var calls' := Step(cfg, w, l).calls;
    StepSameStart(cfg, w, l);
    forall c | 0 <= c < |calls'|
      ensures AdmittedWithin(cfg, calls', c)
    {
      if l.Enter? && c == l.c {
        EnterKeepsAdmission(cfg, w, c, l.killed, l.admit);
      } else if c < |w.calls| && w.calls[c].startedAt.Some? {
        assert Shaped(cfg, w.calls[c]);
        AdmissionIsStable(cfg, w.calls, calls', c);
      }
    }
  }

  lemma {:induction false} RunAdmits(cfg: Config, start: Time, ls: seq<Label>)
    requires cfg.Valid() && Run(cfg, start, ls).Some?
    ensures AdmitInv(cfg, Run(cfg, start, ls).value.calls)
  {
    if ls != [] {
      var before := ls[..|ls| - 1];
      RunKeepsRuntimeInv(cfg, start, before);
      RunAdmits(cfg, start, before);
      StepKeepsAdmissions(cfg, Run(cfg, start, before).value, ls[|ls| - 1]);
    }
  }

  // ---------------------------------------------------------------- windows

  lemma {:induction false} RunsInWindow(cfg: Config, calls: seq<Call>, n: nat, t: Tenant, lo: Time)
    requires AdmitInv(cfg, calls) && n <= |calls| && t in cfg.budgets && cfg.Keeps(MS_PER_HOUR)
    ensures
      var started := Sum(calls[..n], StartedIn(t, lo, lo + MS_PER_HOUR));
      started == 0 || started <= cfg.budgets[t].maxRunsPerHour
  {
    if n > 0 {
      var c := n - 1;
      assert calls[..n][..c] == calls[..c];
      if StartedIn(t, lo, lo + MS_PER_HOUR)(calls[c]) == 0 {
        RunsInWindow(cfg, calls, c, t, lo);
      } else {
        assert AdmittedWithin(cfg, calls, c);
        SumMonotone(calls[..c], StartedIn(t, lo, lo + MS_PER_HOUR),
                    calls[..c], StartedAfter(t, calls[c].StartTime() - MS_PER_HOUR));
      }
    }
  }

  /** The last run of the window, among the first n calls. */
  ghost predicate LastInWindow(calls: seq<Call>, n: nat, t: Tenant, lo: Time, hi: Time, c: CallId) {
    && c < n <= |calls|
    && StartedIn(t, lo, hi)(calls[c]) == 1
    && forall d :: c < d < n ==> StartedIn(t, lo, hi)(calls[d]) == 0
  }

  /** Less was spent in the day after lo than the limit plus what the given run was charged. */
  predicate Bounded(cfg: Config, calls: seq<Call>, n: nat, t: Tenant, lo: Time, last: CallId)
    requires last < n <= |calls| && t in cfg.budgets
  {
    Sum(calls[..n], SpentIn(t, lo, lo + MS_PER_DAY)) < cfg.budgets[t].maxTokensPerDay + Spent(calls[last])
  }

  lemma {:induction false} TokensInWindow(cfg: Config, calls: seq<Call>, n: nat, t: Tenant, lo: Time)
    requires AdmitInv(cfg, calls) && n <= |calls| && t in cfg.budgets && cfg.Keeps(MS_PER_DAY)
    ensures
      || (Sum(calls[..n], SpentIn(t, lo, lo + MS_PER_DAY)) == 0
          && forall d :: 0 <= d < n ==> StartedIn(t, lo, lo + MS_PER_DAY)(calls[d]) == 0)
      || exists c: CallId :: LastInWindow(calls, n, t, lo, lo + MS_PER_DAY, c) && Bounded(cfg, calls, n, t, lo, c)
  {
    if n > 0 {
      var c := n - 1;
      var hi := lo + MS_PER_DAY;
      assert calls[..n][..c] == calls[..c];
      if StartedIn(t, lo, hi)(calls[c]) == 0 {
        TokensInWindow(cfg, calls, c, t, lo);
        if exists c': CallId :: LastInWindow(calls, c, t, lo, hi, c') && Bounded(cfg, calls, c, t, lo, c') {
          var c': CallId :| LastInWindow(calls, c, t, lo, hi, c') && Bounded(cfg, calls, c, t, lo, c');
          assert LastInWindow(calls, n, t, lo, hi, c') && Bounded(cfg, calls, n, t, lo, c');
        }
      } else {
        assert AdmittedWithin(cfg, calls, c);
        forall d | 0 <= d < c
          ensures SpentIn(t, lo, hi)(calls[d]) <= SpentAfter(t, calls[c].StartTime() - MS_PER_DAY)(calls[d])
        {
          SumNonNegative(calls[d].charges, Positive());
        }
        SumMonotone(calls[..c], SpentIn(t, lo, hi), calls[..c], SpentAfter(t, calls[c].StartTime() - MS_PER_DAY));
        assert LastInWindow(calls, n, t, lo, hi, c) && Bounded(cfg, calls, n, t, lo, c);
      }
    }
  }
}
