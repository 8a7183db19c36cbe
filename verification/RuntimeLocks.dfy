/** The per-tenant promise chain is a FIFO lock under every interleaving, although
    idle-tenant eviction deletes chains while other tenants run; and the heartbeat and
    event guards bound what is in flight and never lose a wakeup. */
module RuntimeLocks {
  import opened Seqs
  import opened RuntimeState
  import opened RuntimeWorld
  import opened RuntimeServing
  import opened RuntimeQueue

  // ---------------------------------------------------------------- invariants

  ghost predicate PrevIsLatest(calls: seq<Call>, c: CallId)
    requires c < |calls|
  {
    match calls[c].prev
    case Some(p) =>
      p < c && calls[p].tenant == calls[c].tenant
      && forall d :: p < d < c ==> calls[d].tenant != calls[c].tenant
    case None =>
      forall d :: 0 <= d < c && calls[d].tenant == calls[c].tenant ==> calls[d].Gone()
  }

  ghost predicate ChainInv(calls: seq<Call>) {
    forall c :: 0 <= c < |calls| ==> PrevIsLatest(calls, c)
  }

  /** The lock map points at the latest call of each tenant it holds. */
  ghost predicate TailInv(calls: seq<Call>, locks: map<Tenant, CallId>) {
    forall t :: t in locks ==> IsLatest(calls, t, locks[t])
  }

  ghost predicate IsLatest(calls: seq<Call>, t: Tenant, c: CallId) {
    c < |calls| && calls[c].tenant == t && forall d :: c < d < |calls| ==> calls[d].tenant != t
  }

  /** A tenant without an entry in the lock map has no call in flight. */
  ghost predicate AbsentInv(calls: seq<Call>, locks: map<Tenant, CallId>) {
    forall c :: 0 <= c < |calls| && calls[c].tenant !in locks ==> calls[c].Gone()
  }

  /** Once a call has entered, all earlier calls of its tenant have released. */
  ghost predicate OrderInv(calls: seq<Call>) {
    forall c :: 0 <= c < |calls| && !calls[c].phase.Waiting? ==> EarlierReleased(calls, c)
  }

  ghost predicate EarlierReleased(calls: seq<Call>, c: CallId)
    requires c < |calls|
  {
    forall d :: 0 <= d < c && calls[d].tenant == calls[c].tenant ==> calls[d].HasReleased()
  }

  ghost predicate LockInv(w: World) {
    && ChainInv(w.calls) && OrderInv(w.calls)
    && TailInv(w.calls, w.rt.tenantLocks) && AbsentInv(w.calls, w.rt.tenantLocks)
  }

  function Active(t: Tenant): Call -> int {
    (c: Call) => if c.tenant == t && !c.Gone() then 1 else 0
  }

  /** inFlightRunCount counts the calls that have not settled, and has no zero entries. */
  ghost predicate Counts(calls: seq<Call>, counts: map<Tenant, int>) {
    && (forall t :: t in counts ==> counts[t] == Sum(calls, Active(t)) && counts[t] > 0)
    && (forall t :: t !in counts ==> Sum(calls, Active(t)) == 0)
  }

  ghost predicate CountInv(w: World) {
    Counts(w.calls, w.rt.inFlightRunCount)
  }

  function Heartbeats(t: Tenant): Call -> int {
    (c: Call) => if c.tenant == t && c.origin.Heartbeat? && !c.phase.Finished? then 1 else 0
  }

  function Events(): Call -> int {
    (c: Call) => if c.origin.Event? && !c.phase.Finished? then 1 else 0
  }

  /** One unfinished heartbeat call for each tenant in pendingHeartbeatRuns, none for the others. */
  ghost predicate HeartbeatInv(calls: seq<Call>, pending: set<Tenant>) {
    forall t :: Sum(calls, Heartbeats(t)) == if t in pending then 1 else 0
  }

  /** One unfinished event call while the worker is on, none otherwise. */
  ghost predicate WorkerInv(w: World) {
    Sum(w.calls, Events()) == if w.rt.processingEvents then 1 else 0
  }

  predicate QueueInv(cfg: Config, rt: Runtime) {
    && (rt.running && rt.eventQueue != [] ==> rt.processingEvents)
    && (rt.running <==> rt.heartbeatHandle.Some?)
    && (!rt.running ==> rt.eventQueue == [])
    && |rt.eventQueue| <= cfg.maxEventQueueSize && NoDuplicates(rt.eventQueue)
  }

  ghost predicate ScheduleInv(cfg: Config, w: World) {
    HeartbeatInv(w.calls, w.rt.pendingHeartbeatRuns) && WorkerInv(w) && QueueInv(cfg, w.rt)
  }

  ghost predicate SafeInv(cfg: Config, w: World) {
    LockInv(w) && CountInv(w) && ScheduleInv(cfg, w)
  }

  // ---------------------------------------------------------------- the chain is a FIFO lock

  lemma {:induction false} ResolvedMeansReleased(calls: seq<Call>, c: CallId, d: CallId)
    requires ChainInv(calls) && ChainResolved(calls, c)
    requires d <= c && calls[d].tenant == calls[c].tenant
    ensures calls[d].HasReleased()
  {
    if d < c {
      assert PrevIsLatest(calls, c);
      if calls[c].prev.Some? {
        ResolvedMeansReleased(calls, calls[c].prev.value, d);
      }
    }
  }

  lemma {:induction false} ReleasedMeansResolved(calls: seq<Call>, c: CallId)
    requires ChainInv(calls) && c < |calls|
    requires forall d :: 0 <= d <= c && calls[d].tenant == calls[c].tenant ==> calls[d].HasReleased()
    ensures ChainResolved(calls, c)
  {
    assert PrevIsLatest(calls, c);
    if calls[c].prev.Some? {
      ReleasedMeansResolved(calls, calls[c].prev.value);
    }
  }

  /** A call may enter exactly when every earlier call of its tenant has released. */
  lemma MayEnterIff(w: World, c: CallId)
    requires ChainInv(w.calls) && c < |w.calls|
    ensures MayEnter(w, c) <==> EarlierReleased(w.calls, c)
  {
    assert PrevIsLatest(w.calls, c);
    if w.calls[c].prev.Some? {
      var p := w.calls[c].prev.value;
      if MayEnter(w, c) {
        forall d | 0 <= d < c && w.calls[d].tenant == w.calls[c].tenant
          ensures w.calls[d].HasReleased()
        {
          ResolvedMeansReleased(w.calls, p, d);
        }
      }
      if EarlierReleased(w.calls, c) {
        ReleasedMeansResolved(w.calls, p);
      }
    }
  }

  // ---------------------------------------------------------------- one call moves

  ghost predicate SameCall(k: Call, k': Call) {
    k'.tenant == k.tenant && k'.origin == k.origin && k'.prev == k.prev
  }

  /** Call c moves on; only locks of tenants without calls in flight disappear. */
  ghost predicate Moved(w: World, w': World, c: CallId) {
    && c < |w.calls| == |w'.calls|
    && w'.calls == w.calls[c := w'.calls[c]]
    && SameCall(w.calls[c], w'.calls[c])
    && (w.calls[c].HasReleased() ==> w'.calls[c].HasReleased())
    && (w.calls[c].Gone() ==> w'.calls[c].Gone())
    && (w.calls[c].phase.Waiting? && !w'.calls[c].phase.Waiting? ==> MayEnter(w, c))
    && (forall u :: u in w'.rt.tenantLocks ==> u in w.rt.tenantLocks && w'.rt.tenantLocks[u] == w.rt.tenantLocks[u])
    && (forall u :: u in w.rt.tenantLocks && u !in w'.rt.tenantLocks ==> w.rt.InFlight(u) == 0)
  }

  lemma NoneActive(w: World, t: Tenant, c: CallId)
    requires CountInv(w) && c < |w.calls| && w.calls[c].tenant == t && w.rt.InFlight(t) == 0
    ensures w.calls[c].Gone()
  {
    SumAtLeast(w.calls, Active(t), c);
  }

  lemma MovedKeepsChain(w: World, w': World, c: CallId)
    requires ChainInv(w.calls) && OrderInv(w.calls) && Moved(w, w', c)
    ensures ChainInv(w'.calls) && OrderInv(w'.calls)
  {
    forall d | 0 <= d < |w'.calls|
      ensures PrevIsLatest(w'.calls, d)
    {
      assert PrevIsLatest(w.calls, d);
    }
    MayEnterIff(w, c);
    forall d | 0 <= d < |w'.calls| && !w'.calls[d].phase.Waiting?
      ensures EarlierReleased(w'.calls, d)
    {
      assert EarlierReleased(w.calls, d);
    }
  }

  lemma MovedKeepsLocks(w: World, w': World, c: CallId)
    requires LockInv(w) && CountInv(w) && Moved(w, w', c)
    ensures LockInv(w')
  {
    MovedKeepsChain(w, w', c);
    forall t | t in w'.rt.tenantLocks
      ensures IsLatest(w'.calls, t, w'.rt.tenantLocks[t])
    {
      assert IsLatest(w.calls, t, w.rt.tenantLocks[t]);
    }
    forall d | 0 <= d < |w'.calls| && w'.calls[d].tenant !in w'.rt.tenantLocks
      ensures w'.calls[d].Gone()
    {
      if w.calls[d].tenant in w.rt.tenantLocks {
        NoneActive(w, w.calls[d].tenant, d);
      }
    }
  }

  lemma MovedKeepsSums(w: World, w': World, c: CallId, f: Call -> int)
    requires Moved(w, w', c)
    ensures Sum(w'.calls, f) == Sum(w.calls, f) - f(w.calls[c]) + f(w'.calls[c])
  {
    SumUpdate(w.calls, c, w'.calls[c], f);
  }

  /** A move that neither settles nor finishes a call leaves every count alone. */
  lemma MovedKeepsCounts(cfg: Config, w: World, w': World, c: CallId)
    requires CountInv(w) && ScheduleInv(cfg, w) && Moved(w, w', c)
    requires w'.calls[c].Gone() == w.calls[c].Gone() && w'.calls[c].phase.Finished? == w.calls[c].phase.Finished?
    requires w'.rt == w.rt.(tenantStates := w'.rt.tenantStates, tenantLocks := w'.rt.tenantLocks,
                            tenantLastActivityAt := w'.rt.tenantLastActivityAt)
    ensures CountInv(w') && ScheduleInv(cfg, w')
  {
    forall t
      ensures Sum(w'.calls, Active(t)) == Sum(w.calls, Active(t))
      ensures Sum(w'.calls, Heartbeats(t)) == Sum(w.calls, Heartbeats(t))
    {
      MovedKeepsSums(w, w', c, Active(t));
      MovedKeepsSums(w, w', c, Heartbeats(t));
    }
    MovedKeepsSums(w, w', c, Events());
  }

  predicate IsBodyLabel(l: Label) {
    l.Enter? || l.RaceResolved? || l.RaceRejected? || l.RaceTimedOut? || l.LateRecorded? || l.GraceSettled? || l.GraceExpired?
  }

  lemma ActiveTenant(w: World, c: CallId)
    requires CountInv(w) && c < |w.calls| && !w.calls[c].Gone()
    ensures w.rt.InFlight(w.calls[c].tenant) > 0
  {
    SumAtLeast(w.calls, Active(w.calls[c].tenant), c);
  }

  /** A stretch of doExecuteRun: it serves its tenant and moves its call inside the body. */
  ghost predicate BodyMove(cfg: Config, w: World, w': World, c: CallId) {
    && Moved(w, w', c)
    && w.clock <= w'.clock
    && Served(cfg, w.rt, w'.rt, w.calls[c].tenant, w.clock, w'.clock)
    && !w'.calls[c].HasReleased() && !w.calls[c].HasReleased()
  }

  lemma ServedKeepsLocks(cfg: Config, rt: Runtime, rt': Runtime, t: Tenant, clock: Time, hi: Time)
    requires Served(cfg, rt, rt', t, clock, hi)
    ensures forall u :: u in rt'.tenantLocks ==> u in rt.tenantLocks && rt'.tenantLocks[u] == rt.tenantLocks[u]
    ensures forall u :: u in rt.tenantLocks && u !in rt'.tenantLocks ==> rt.InFlight(u) == 0
  {
    forall u | u != t
      ensures u in rt'.tenantLocks ==> u in rt.tenantLocks && rt'.tenantLocks[u] == rt.tenantLocks[u]
      ensures u in rt.tenantLocks && u !in rt'.tenantLocks ==> rt.InFlight(u) == 0
    {
      assert Kept(rt, rt', u) || Evicted(cfg, rt, rt', u, hi);
    }
  }

  lemma EnterMoves(cfg: Config, w: World, c: CallId, killed: bool, r: AdmitReads)
    requires cfg.Valid() && CountInv(w) && Enabled(cfg, w, Enter(c, killed, r))
    ensures BodyMove(cfg, w, Step(cfg, w, Enter(c, killed, r)), c)
  {
    ActiveTenant(w, c);
    AdmitServes(cfg, w.rt, w.calls[c].tenant, killed, w.clock, r);
    ServedKeepsLocks(cfg, w.rt, Step(cfg, w, Enter(c, killed, r)).rt, w.calls[c].tenant, w.clock,
                     if killed then r.now else r.breaker.evict);
  }

  lemma RecordMoves(cfg: Config, w: World, c: CallId, phase: Phase, tokens: int, r: Reads)
    requires c < |w.calls| && w.calls[c].InBody() && w.rt.InFlight(w.calls[c].tenant) > 0 && Reading(w.clock, r)
    requires !phase.Waiting? && !phase.Released? && !phase.Settled? && !phase.Finished?
    ensures BodyMove(cfg, w, Record(cfg, w, c, phase, tokens, r), c)
  {
    var t := w.calls[c].tenant;
    RecordRunServes(cfg, w.rt, t, w.calls[c].StartTime(), tokens, w.clock, r);
    ServedKeepsLocks(cfg, w.rt, Record(cfg, w, c, phase, tokens, r).rt, t, w.clock, r.evict);
  }

  lemma FailMoves(cfg: Config, w: World, c: CallId, phase: Phase, r: Reads)
    requires c < |w.calls| && w.calls[c].InBody() && w.rt.InFlight(w.calls[c].tenant) > 0 && Reading(w.clock, r)
    requires !phase.Waiting? && !phase.Released? && !phase.Settled? && !phase.Finished?
    ensures BodyMove(cfg, w, Fail(cfg, w, c, phase, r), c)
  {
    var t := w.calls[c].tenant;
    RecordFailureServes(cfg, w.rt, t, w.calls[c].StartTime(), w.clock, r);
    ServedKeepsLocks(cfg, w.rt, Fail(cfg, w, c, phase, r).rt, t, w.clock, r.evict);
  }

  lemma SucceedMoves(cfg: Config, w: World, c: CallId, r: Reads)
    requires c < |w.calls| && w.calls[c].InBody() && w.rt.InFlight(w.calls[c].tenant) > 0 && Reading(w.clock, r)
    ensures BodyMove(cfg, w, Succeed(cfg, w, c, r), c)
  {
    var t := w.calls[c].tenant;
    RecordSuccessServes(cfg, w.rt, t, w.clock, r);
    ServedKeepsLocks(cfg, w.rt, Succeed(cfg, w, c, r).rt, t, w.clock, r.evict);
  }

  lemma BodyMoveThenMove(cfg: Config, w: World, w1: World, w2: World, c: CallId)
    requires BodyMove(cfg, w, w1, c) && BodyMove(cfg, w1, w2, c) && !w.calls[c].phase.Waiting?
    ensures BodyMove(cfg, w, w2, c)
  {
    var t := w.calls[c].tenant;
    assert w2.calls == w.calls[c := w2.calls[c]];
    Earlier(cfg, w1.rt, w2.rt, t, w.clock, w1.clock, w2.clock);
    ServedThenServed(cfg, w.rt, w1.rt, w2.rt, t, w.clock, w1.clock, w2.clock);
    ServedKeepsLocks(cfg, w.rt, w2.rt, t, w.clock, w2.clock);
  }

  lemma RaceResolvedMoves(cfg: Config, w: World, c: CallId, r: Reads, r': Reads)
    requires cfg.Valid() && CountInv(w) && Enabled(cfg, w, RaceResolved(c, r, r'))
    ensures BodyMove(cfg, w, Step(cfg, w, RaceResolved(c, r, r')), c)
  {
    ActiveTenant(w, c);
    var w1 := Record(cfg, w, c, Racing, w.calls[c].ReportedTokens(), r);
    RecordMoves(cfg, w, c, Racing, w.calls[c].ReportedTokens(), r);
    if w.calls[c].provider.failed {
      FailMoves(cfg, w1, c, BodyDone, r');
      BodyMoveThenMove(cfg, w, w1, Fail(cfg, w1, c, BodyDone, r'), c);
    } else {
      SucceedMoves(cfg, w1, c, r');
      BodyMoveThenMove(cfg, w, w1, Succeed(cfg, w1, c, r'), c);
    }
  }

  lemma BodyStepMoves(cfg: Config, w: World, l: Label)
    requires cfg.Valid() && CountInv(w) && Enabled(cfg, w, l) && IsBodyLabel(l)
    ensures BodyMove(cfg, w, Step(cfg, w, l), l.c)
  {
    ActiveTenant(w, l.c);
    match l
    case Enter(c, killed, r) => EnterMoves(cfg, w, c, killed, r);
    case RaceResolved(c, r, r') => RaceResolvedMoves(cfg, w, c, r, r');
    case LateRecorded(c, r) => RecordMoves(cfg, w, c, BodyDone, w.calls[c].ReportedTokens(), r);
    case GraceSettled(c, r) => RecordMoves(cfg, w, c, Hold, w.calls[c].ReportedTokens(), r);
    case GraceExpired(c, r) => RecordMoves(cfg, w, c, Hold, cfg.runTimeoutChargeTokens, r);
    case RaceRejected(c, r) => FailMoves(cfg, w, c, Late, r);
    case RaceTimedOut(c, r) => FailMoves(cfg, w, c, Grace, r);
  }

  // ---------------------------------------------------------------- a call arrives

  lemma ArriveKeepsLocks(w: World, t: Tenant, origin: Origin)
    requires LockInv(w)
    ensures
      var (rt, a) := Arrive(w.rt, t, |w.calls|);
      LockInv(World(rt, Spawn(w.calls, Some(a), origin), w.clock))
  {
    var (rt, a) := Arrive(w.rt, t, |w.calls|);
    var calls := Spawn(w.calls, Some(a), origin);
    forall d | 0 <= d < |calls|
      ensures PrevIsLatest(calls, d)
      ensures !calls[d].phase.Waiting? ==> EarlierReleased(calls, d)
    {
      if d < |w.calls| {
        assert PrevIsLatest(w.calls, d);
        assert !w.calls[d].phase.Waiting? ==> EarlierReleased(w.calls, d);
      } else if t in w.rt.tenantLocks {
        assert IsLatest(w.calls, t, w.rt.tenantLocks[t]);
      }
    }
    forall u | u in rt.tenantLocks
      ensures IsLatest(calls, u, rt.tenantLocks[u])
    {
      assert u != t ==> IsLatest(w.calls, u, w.rt.tenantLocks[u]);
    }
  }

  lemma ArriveKeepsCounts(w: World, t: Tenant, origin: Origin)
    requires CountInv(w)
    ensures
      var (rt, a) := Arrive(w.rt, t, |w.calls|);
      var w' := World(rt, Spawn(w.calls, Some(a), origin), w.clock);
      && CountInv(w')
      && (forall u :: Sum(w'.calls, Heartbeats(u)) ==
                      Sum(w.calls, Heartbeats(u)) + if u == t && origin.Heartbeat? then 1 else 0)
      && Sum(w'.calls, Events()) == Sum(w.calls, Events()) + if origin.Event? then 1 else 0
  {
    var (rt, a) := Arrive(w.rt, t, |w.calls|);
    var calls := Spawn(w.calls, Some(a), origin);
    var call := calls[|w.calls|];
    forall u
      ensures Sum(calls, Active(u)) == Sum(w.calls, Active(u)) + if u == t then 1 else 0
      ensures Sum(calls, Heartbeats(u)) ==
              Sum(w.calls, Heartbeats(u)) + if u == t && origin.Heartbeat? then 1 else 0
    {
      SumAppend(w.calls, call, Active(u));
      SumAppend(w.calls, call, Heartbeats(u));
    }
    SumAppend(w.calls, call, Events());
    SumNonNegative(w.calls, Active(t));
  }

  /** The worker loop, entered with processingEvents set and no event call open. */
  lemma {:induction false} PumpKeepsSafe(cfg: Config, w: World)
    requires LockInv(w) && CountInv(w)
    requires HeartbeatInv(w.calls, w.rt.pendingHeartbeatRuns)
    requires w.rt.processingEvents && Sum(w.calls, Events()) == 0
    requires w.rt.running <==> w.rt.heartbeatHandle.Some?
    requires |w.rt.eventQueue| <= cfg.maxEventQueueSize && NoDuplicates(w.rt.eventQueue)
    ensures var (rt, a) := Pump(w.rt, |w.calls|);
            SafeInv(cfg, World(rt, Spawn(w.calls, a, Event), w.clock))
    decreases |w.rt.eventQueue|
  {
    if !w.rt.running {
    } else if w.rt.eventQueue == [] {
    } else {
      var w1 := w.(rt := w.rt.(eventQueue := w.rt.eventQueue[1..]));
      if w.rt.eventQueue[0] != "" {
        ArriveKeepsLocks(w1, w.rt.eventQueue[0], Event);
        ArriveKeepsCounts(w1, w.rt.eventQueue[0], Event);
      } else {
        PumpKeepsSafe(cfg, w1);
      }
    }
  }

  // ---------------------------------------------------------------- every step keeps the invariants

  lemma ScheduleStepKeepsSafe(cfg: Config, w: World, l: Label)
    requires cfg.Valid() && SafeInv(cfg, w) && Enabled(cfg, w, l)
    requires l.Start? || l.Stop? || l.Emit? || l.Tick?
    ensures SafeInv(cfg, Step(cfg, w, l))
  {
    match l
    case Start(_) =>
    case Stop =>
    case Emit(t, at) => EmitKeepsSafe(cfg, w, t, at);
    case Tick(at) => TickKeepsSafe(cfg, w, at);
  }

  lemma EmitKeepsSafe(cfg: Config, w: World, t: Tenant, at: Time)
    requires cfg.Valid() && SafeInv(cfg, w) && Enabled(cfg, w, Emit(t, at))
    ensures SafeInv(cfg, Step(cfg, w, Emit(t, at)))
  {
    if w.rt.running {
      var rt1 := Touch(w.rt, t, at);
      EnqueueKeepsNoDuplicates(rt1.eventQueue, t, cfg.maxEventQueueSize);
      var rt2 := rt1.(eventQueue := Enqueue(rt1.eventQueue, t, cfg.maxEventQueueSize));
      if !w.rt.processingEvents {
        PumpKeepsSafe(cfg, World(rt2.(processingEvents := true), w.calls, at));
      }
    }
  }

  /** A heartbeat run, with its tenant just put among the pending ones. */
  lemma HeartbeatKeepsSafe(cfg: Config, w: World, t: Tenant)
    requires LockInv(w) && CountInv(w) && WorkerInv(w) && QueueInv(cfg, w.rt)
    requires t in w.rt.pendingHeartbeatRuns && HeartbeatInv(w.calls, w.rt.pendingHeartbeatRuns - {t})
    ensures
      var (rt, a) := Arrive(w.rt, t, |w.calls|);
      SafeInv(cfg, World(rt, Spawn(w.calls, Some(a), Heartbeat), w.clock))
  {
    ArriveKeepsLocks(w, t, Heartbeat);
    ArriveKeepsCounts(w, t, Heartbeat);
  }

  lemma TickKeepsSafe(cfg: Config, w: World, at: Time)
    requires cfg.Valid() && SafeInv(cfg, w) && Enabled(cfg, w, Tick(at))
    ensures SafeInv(cfg, Step(cfg, w, Tick(at)))
  {
    var t := w.rt.heartbeatHandle.value;
    if w.rt.running && t !in w.rt.pendingHeartbeatRuns {
      var rt1 := Touch(w.rt, t, at);
      var pending := rt1.pendingHeartbeatRuns + {t};
      assert pending - {t} == w.rt.pendingHeartbeatRuns;
      HeartbeatKeepsSafe(cfg, World(rt1.(pendingHeartbeatRuns := pending), w.calls, at), t);
    }
  }

  lemma DecrementKeepsCounts(w: World, w': World, c: CallId)
    requires CountInv(w) && Moved(w, w', c)
    requires w.calls[c].phase.Released? && w'.calls[c].phase.Settled?
    requires w'.rt == Depart(w.rt, w.calls[c].tenant)
    ensures CountInv(w')
  {
    ActiveTenant(w, c);
    forall t
      ensures Sum(w'.calls, Active(t)) == Sum(w.calls, Active(t)) - if t == w.calls[c].tenant then 1 else 0
    {
      MovedKeepsSums(w, w', c, Active(t));
    }
  }

  lemma DecrementKeepsSafe(cfg: Config, w: World, c: CallId)
    requires cfg.Valid() && SafeInv(cfg, w) && Enabled(cfg, w, Decrement(c))
    ensures SafeInv(cfg, Step(cfg, w, Decrement(c)))
  {
    var w' := Step(cfg, w, Decrement(c));
    assert Moved(w, w', c);
    DecrementKeepsCounts(w, w', c);
    MovedKeepsLocks(w, w', c);
    forall t
      ensures Sum(w'.calls, Heartbeats(t)) == Sum(w.calls, Heartbeats(t))
    {
      MovedKeepsSums(w, w', c, Heartbeats(t));
    }
    MovedKeepsSums(w, w', c, Events());
  }

  lemma FinishKeepsSafe(cfg: Config, w: World, c: CallId)
    requires cfg.Valid() && SafeInv(cfg, w) && Enabled(cfg, w, Finish(c))
    ensures SafeInv(cfg, Step(cfg, w, Finish(c)))
  {
    var call := w.calls[c];
    var w1 := Advance(w, c, call.(phase := Finished));
    assert Moved(w, w1, c);
    MovedKeepsLocks(w, w1, c);
    forall t
      ensures Sum(w1.calls, Active(t)) == Sum(w.calls, Active(t))
      ensures Sum(w1.calls, Heartbeats(t)) ==
              Sum(w.calls, Heartbeats(t)) - if t == call.tenant && call.origin.Heartbeat? then 1 else 0
    {
      MovedKeepsSums(w, w1, c, Active(t));
      MovedKeepsSums(w, w1, c, Heartbeats(t));
    }
    MovedKeepsSums(w, w1, c, Events());
    if call.origin.Heartbeat? {
      SumAtLeast(w.calls, Heartbeats(call.tenant), c);
    } else {
      SumAtLeast(w.calls, Events(), c);
      PumpKeepsSafe(cfg, w1);
    }
  }

  lemma StepKeepsSafe(cfg: Config, w: World, l: Label)
    requires cfg.Valid() && SafeInv(cfg, w) && Enabled(cfg, w, l)
    ensures SafeInv(cfg, Step(cfg, w, l))
  {
    var w' := Step(cfg, w, l);
    if l.Start? || l.Stop? || l.Emit? || l.Tick? {
      ScheduleStepKeepsSafe(cfg, w, l);
    } else if l.Decrement? {
      DecrementKeepsSafe(cfg, w, l.c);
    } else if l.Finish? {
      FinishKeepsSafe(cfg, w, l.c);
    } else {
      if IsBodyLabel(l) {
        BodyStepMoves(cfg, w, l);
      } else {
        assert Moved(w, w', l.c);
      }
      MovedKeepsLocks(w, w', l.c);
      MovedKeepsCounts(cfg, w, w', l.c);
    }
  }

  lemma {:induction false} RunIsSafe(cfg: Config, start: Time, ls: seq<Label>)
    requires cfg.Valid() && Run(cfg, start, ls).Some?
    ensures SafeInv(cfg, Run(cfg, start, ls).value)
  {
    if ls != [] {
      RunIsSafe(cfg, start, ls[..|ls| - 1]);
      StepKeepsSafe(cfg, Run(cfg, start, ls[..|ls| - 1]).value, ls[|ls| - 1]);
    }
  }
}
