/** AgentRuntime under concurrency. Every executeRun invocation is a call with a
    phase; a label names one stretch of code between two awaits (or one move of the
    environment), and a run is any sequence of enabled labels from the empty world. */
module RuntimeWorld {
  import opened Seqs
  import opened RuntimeState

  datatype Origin = Heartbeat | Event

  /** Where a call is suspended. */
  datatype Phase =
    | Waiting   // on `await previous`
    | Racing    // provider against the run timeout
    | Late      // provider rejected; the run is still to be recorded
    | Grace     // timed out; provider against the grace timer
    | Hold      // recorded; provider against the maximum lock hold
    | BodyDone  // doExecuteRun has returned
    | Released  // release() was called
    | Settled   // inFlightRunCount was decremented
    | Finished  // the caller has seen executeRun settle

  datatype Provider = Pending | Resolved(failed: bool, tokensUsed: Option<int>) | Rejected

  datatype Outcome = Undecided | Succeeded | Failed(tripped: bool)

  /** A call keeps its record after it finished: together the calls are the full history. */
  datatype Call = Call(
    tenant: Tenant,
    origin: Origin,
    prev: Option<CallId>,
    phase: Phase,
    startedAt: Option<Time>,
    provider: Provider,
    outcome: Outcome,
    graceExpired: bool,
    charges: seq<int>)
  {
    predicate InBody() { phase in {Racing, Late, Grace, Hold, BodyDone} }
    predicate HasReleased() { phase in {Released, Settled, Finished} }
    predicate Gone() { phase in {Settled, Finished} }

    /** The `now` of doExecuteRun; meaningful once the run has started. */
    function StartTime(): Time { startedAt.GetOr(0.0) }

    /** `tokensUsed ?? 0` of what the provider returned, 0 when it returned nothing. */
    function ReportedTokens(): int {
      match provider
      case Resolved(_, tokens) => tokens.GetOr(0)
      case _ => 0
    }
  }

  datatype World = World(rt: Runtime, calls: seq<Call>, clock: Time)

  function Init(clock: Time): World {
    World(STOPPED, [], clock)
  }

  datatype Label =
    | Start(tenant: Tenant)
    | Stop
    | Emit(tenant: Tenant, at: Time)
    | Tick(at: Time)
    | Enter(c: CallId, killed: bool, admit: AdmitReads)
    | ProviderSettles(c: CallId, provider: Provider)
    | RaceResolved(c: CallId, first: Reads, second: Reads)
    | RaceRejected(c: CallId, first: Reads)
    | RaceTimedOut(c: CallId, first: Reads)
    | LateRecorded(c: CallId, first: Reads)
    | GraceSettled(c: CallId, first: Reads)
    | GraceExpired(c: CallId, first: Reads)
    | HoldOver(c: CallId)
    | Release(c: CallId)
    | Decrement(c: CallId)
    | Finish(c: CallId)

  /** The promise a call left in tenantLocks: resolved when its predecessor's is and it has released. */
  predicate ChainResolved(calls: seq<Call>, c: CallId) {
    && c < |calls|
    && calls[c].HasReleased()
    && (calls[c].prev.Some? ==> calls[c].prev.value < c && ChainResolved(calls, calls[c].prev.value))
  }

  predicate MayEnter(w: World, c: CallId)
    requires c < |w.calls|
  {
    w.calls[c].prev.Some? ==> ChainResolved(w.calls, w.calls[c].prev.value)
  }

  predicate Reading(clock: Time, r: Reads) {
    clock <= r.touch <= r.evict
  }

  predicate AdmitReading(clock: Time, r: AdmitReads) {
    clock <= r.touch <= r.now && Reading(r.now, r.budget) && Reading(r.budget.evict, r.breaker)
  }

  predicate At(w: World, c: CallId, p: Phase) {
    c < |w.calls| && w.calls[c].phase == p
  }

  predicate Enabled(cfg: Config, w: World, l: Label) {
    match l
    case Start(_) => true
    case Stop => true
    case Emit(_, at) => w.clock <= at
    case Tick(at) => w.clock <= at && w.rt.heartbeatHandle.Some?
    case Enter(c, _, r) => At(w, c, Waiting) && MayEnter(w, c) && AdmitReading(w.clock, r)
    case ProviderSettles(c, p) =>
      c < |w.calls| && w.calls[c].startedAt.Some? && w.calls[c].provider.Pending? && !p.Pending?
    case RaceResolved(c, r, r') =>
      At(w, c, Racing) && w.calls[c].provider.Resolved? && Reading(w.clock, r) && Reading(r.evict, r')
    case RaceRejected(c, r) => At(w, c, Racing) && w.calls[c].provider.Rejected? && Reading(w.clock, r)
    case RaceTimedOut(c, r) => At(w, c, Racing) && w.calls[c].provider.Pending? && Reading(w.clock, r)
    case LateRecorded(c, r) => At(w, c, Late) && Reading(w.clock, r)
    case GraceSettled(c, r) => At(w, c, Grace) && !w.calls[c].provider.Pending? && Reading(w.clock, r)
    case GraceExpired(c, r) => At(w, c, Grace) && w.calls[c].provider.Pending? && Reading(w.clock, r)
    case HoldOver(c) => At(w, c, Hold)
    case Release(c) => At(w, c, BodyDone)
    case Decrement(c) => At(w, c, Released)
    case Finish(c) => At(w, c, Settled)
  }

  function Spawn(calls: seq<Call>, a: Option<Arrival>, origin: Origin): seq<Call> {
    match a
    case None => calls
    case Some(arrival) =>
      calls + [Call(arrival.tenant, origin, arrival.prev, Waiting, None, Pending, Undecided, false, [])]
  }

  function Advance(w: World, c: CallId, call: Call): World
    requires c < |w.calls|
  {
    w.(calls := w.calls[c := call])
  }

  function Charge(call: Call, tokens: int): Call {
    call.(charges := call.charges + [tokens])
  }

  function Fail(cfg: Config, w: World, c: CallId, phase: Phase, r: Reads): World
    requires c < |w.calls|
  {
    var call := w.calls[c];
    var rt := RecordFailure(cfg, w.rt, call.tenant, call.StartTime(), r);
    World(rt,
          w.calls[c := call.(phase := phase,
                             outcome := Failed(Trips(cfg, call.tenant, rt.StateOf(call.tenant).consecutiveFailures)))],
          r.evict)
  }

  function Record(cfg: Config, w: World, c: CallId, phase: Phase, tokens: int, r: Reads): World
    requires c < |w.calls|
  {
    var call := w.calls[c];
    World(RecordRun(cfg, w.rt, call.tenant, call.StartTime(), tokens, r),
          w.calls[c := Charge(call, tokens).(phase := phase)],
          r.evict)
  }

  function Succeed(cfg: Config, w: World, c: CallId, r: Reads): World
    requires c < |w.calls|
  {
    var call := w.calls[c];
    World(RecordSuccess(cfg, w.rt, call.tenant, r),
          w.calls[c := call.(phase := BodyDone, outcome := Succeeded)], r.evict)
  }

  function Step(cfg: Config, w: World, l: Label): World
    requires cfg.Valid() && Enabled(cfg, w, l)
  {
    match l
    case Start(t) => w.(rt := RuntimeState.Start(w.rt, t))
    case Stop => w.(rt := RuntimeState.Stop(w.rt))
    case Emit(t, at) =>
      var (rt, a) := EmitEvent(cfg, w.rt, t, at, |w.calls|);
      World(rt, Spawn(w.calls, a, Event), at)
    case Tick(at) =>
      var (rt, a) := ScheduleRun(w.rt, w.rt.heartbeatHandle.value, at, |w.calls|);
      World(rt, Spawn(w.calls, a, Heartbeat), at)
    case Enter(c, killed, r) =>
      var (rt, verdict) := Admit(cfg, w.rt, w.calls[c].tenant, killed, r);
      World(rt,
            w.calls[c := if verdict.Admitted? then w.calls[c].(phase := Racing, startedAt := Some(r.now))
                         else w.calls[c].(phase := BodyDone)],
            if killed then r.now else r.breaker.evict)
    case ProviderSettles(c, p) => Advance(w, c, w.calls[c].(provider := p))
    case RaceResolved(c, r, r') =>
      var w1 := Record(cfg, w, c, Racing, w.calls[c].ReportedTokens(), r);
      if w.calls[c].provider.failed then Fail(cfg, w1, c, BodyDone, r') else Succeed(cfg, w1, c, r')
    case RaceRejected(c, r) => Fail(cfg, w, c, Late, r)
    case RaceTimedOut(c, r) => Fail(cfg, w, c, Grace, r)
    case LateRecorded(c, r) => Record(cfg, w, c, BodyDone, w.calls[c].ReportedTokens(), r)
    case GraceSettled(c, r) => Record(cfg, w, c, Hold, w.calls[c].ReportedTokens(), r)
    case GraceExpired(c, r) =>
      var w1 := Record(cfg, w, c, Hold, cfg.runTimeoutChargeTokens, r);
      Advance(w1, c, w1.calls[c].(graceExpired := true))
    case HoldOver(c) => Advance(w, c, w.calls[c].(phase := BodyDone))
    case Release(c) => Advance(w, c, w.calls[c].(phase := Released))
    case Decrement(c) =>
      World(Depart(w.rt, w.calls[c].tenant), w.calls[c := w.calls[c].(phase := Settled)], w.clock)
    case Finish(c) =>
      var calls := w.calls[c := w.calls[c].(phase := Finished)];
      if w.calls[c].origin.Heartbeat? then
        World(w.rt.(pendingHeartbeatRuns := w.rt.pendingHeartbeatRuns - {w.calls[c].tenant}), calls, w.clock)
      else
        var (rt, a) := Pump(w.rt, |calls|);
        World(rt, Spawn(calls, a, Event), w.clock)
  }

  /** The world after the labels ls, unless one of them was not enabled. */
  function Run(cfg: Config, start: Time, ls: seq<Label>): Option<World>
    requires cfg.Valid()
  {
    if ls == [] then Some(Init(start))
    else
      match Run(cfg, start, ls[..|ls| - 1])
      case None => None
      case Some(w) => if Enabled(cfg, w, ls[|ls| - 1]) then Some(Step(cfg, w, ls[|ls| - 1])) else None
  }
}
