/** The fields of AgentRuntime as one value, and what each synchronous piece of
    its methods does to them. RuntimeClass proves the imperative methods against
    these functions; RuntimeWorld lets the pieces interleave.

    Times are real numbers: the clock is supplied by the caller and need not tick
    in whole milliseconds. */
module RuntimeState {
  import opened Seqs

  type Tenant = string
  type CallId = nat
  type Time = real

  const MS_PER_HOUR: Time := 3600000.0
  const MS_PER_DAY: Time := 86400000.0

  datatype Budget = Budget(maxRunsPerHour: int, maxTokensPerDay: int)
  datatype Breaker = Breaker(failureThreshold: int, cooldownMs: Time)

  datatype Config = Config(
    budgets: map<Tenant, Budget>,
    breakers: map<Tenant, Breaker>,
    maxEventQueueSize: int,
    runTimeoutChargeTokens: int,
    tenantIdleEvictionMs: Option<Time>)
  {
    /** What the constructor checks of the options modelled here. */
    predicate Valid() {
      && maxEventQueueSize >= 1
      && runTimeoutChargeTokens >= 0
      && (tenantIdleEvictionMs.Some? ==> tenantIdleEvictionMs.value >= 0.0)
    }

    predicate Evicts() {
      tenantIdleEvictionMs.Some? && tenantIdleEvictionMs.value > 0.0
    }

    /** Idle tenants are kept for at least the given time, or for ever. */
    predicate Keeps(window: Time) {
      Evicts() ==> tenantIdleEvictionMs.value >= window
    }
  }

  datatype TokenEntry = TokenEntry(tokens: int, at: Time)

  datatype TenantState = TenantState(
    runTimestamps: seq<Time>,
    tokenTimestamps: seq<TokenEntry>,
    consecutiveFailures: nat,
    circuitOpenedAt: Option<Time>)

  const FRESH_TENANT := TenantState([], [], 0, None)

  /** tenantLocks maps a tenant to the call whose release ends the tenant's promise chain. */
  datatype Runtime = Runtime(
    running: bool,
    heartbeatHandle: Option<Tenant>,
    processingEvents: bool,
    eventQueue: seq<Tenant>,
    pendingHeartbeatRuns: set<Tenant>,
    tenantLocks: map<Tenant, CallId>,
    inFlightRunCount: map<Tenant, int>,
    tenantLastActivityAt: map<Tenant, Time>,
    tenantStates: map<Tenant, TenantState>)
  {
    function InFlight(t: Tenant): int {
      if t in inFlightRunCount then inFlightRunCount[t] else 0
    }

    function StateOf(t: Tenant): TenantState {
      if t in tenantStates then tenantStates[t] else FRESH_TENANT
    }
  }

  const STOPPED := Runtime(false, None, false, [], {}, map[], map[], map[], map[])

  // ---------------------------------------------------------------- housekeeping

  function Touch(rt: Runtime, t: Tenant, at: Time): Runtime {
    rt.(tenantLastActivityAt := rt.tenantLastActivityAt[t := at])
  }

  predicate Idle(cfg: Config, rt: Runtime, u: Tenant, now: Time) {
    && cfg.Evicts()
    && u in rt.tenantLastActivityAt
    && rt.tenantLastActivityAt[u] < now - cfg.tenantIdleEvictionMs.value
    && rt.InFlight(u) == 0
  }

  function IdleTenants(cfg: Config, rt: Runtime, now: Time): set<Tenant> {
    set u | u in rt.tenantLastActivityAt && Idle(cfg, rt, u, now)
  }

  function EvictIdleTenants(cfg: Config, rt: Runtime, now: Time): Runtime {
    var idle := IdleTenants(cfg, rt, now);
    rt.(tenantStates := rt.tenantStates - idle,
        tenantLocks := rt.tenantLocks - idle,
        tenantLastActivityAt := rt.tenantLastActivityAt - idle)
  }

  /** The two clock readings one getTenantState call takes: in touchTenant and in evictIdleTenants. */
  datatype Reads = Reads(touch: Time, evict: Time)

  function GetTenantState(cfg: Config, rt: Runtime, t: Tenant, r: Reads): Runtime {
    var rt' := EvictIdleTenants(cfg, Touch(rt, t, r.touch), r.evict);
    if t in rt'.tenantStates then rt' else rt'.(tenantStates := rt'.tenantStates[t := FRESH_TENANT])
  }

  function WithState(rt: Runtime, t: Tenant, st: TenantState): Runtime {
    rt.(tenantStates := rt.tenantStates[t := st])
  }

  // ---------------------------------------------------------------- ledgers and budgets

  function After(cutoff: Time): Time -> bool {
    (at: Time) => at > cutoff
  }

  function TokenAfter(cutoff: Time): TokenEntry -> bool {
    (e: TokenEntry) => e.at > cutoff
  }

  function TokensOf(): TokenEntry -> int {
    (e: TokenEntry) => e.tokens
  }

  function Prune(st: TenantState, now: Time): TenantState {
    st.(runTimestamps := Filter(st.runTimestamps, After(now - MS_PER_HOUR)),
        tokenTimestamps := Filter(st.tokenTimestamps, TokenAfter(now - MS_PER_DAY)))
  }

  function CheckBudget(cfg: Config, rt: Runtime, t: Tenant, now: Time, r: Reads): (Runtime, bool) {
    if t !in cfg.budgets then (rt, true)
    else
      var rt1 := GetTenantState(cfg, rt, t, r);
      var st := Prune(rt1.tenantStates[t], now);
      (WithState(rt1, t, st),
       && |st.runTimestamps| < cfg.budgets[t].maxRunsPerHour
       && Sum(st.tokenTimestamps, TokensOf()) < cfg.budgets[t].maxTokensPerDay)
  }

  function RecordRun(cfg: Config, rt: Runtime, t: Tenant, now: Time, tokensUsed: int, r: Reads): Runtime {
    if t !in cfg.budgets then rt
    else
      var rt1 := GetTenantState(cfg, rt, t, r);
      var st := Prune(rt1.tenantStates[t], now);
      WithState(rt1, t, st.(
        runTimestamps := st.runTimestamps + [now],
        tokenTimestamps :=
          if tokensUsed > 0 then st.tokenTimestamps + [TokenEntry(tokensUsed, now)] else st.tokenTimestamps))
  }

  // ---------------------------------------------------------------- circuit breaker

  function IsCircuitOpen(cfg: Config, rt: Runtime, t: Tenant, now: Time, r: Reads): (Runtime, bool) {
    if t !in cfg.breakers then (rt, false)
    else
      var rt1 := GetTenantState(cfg, rt, t, r);
      var st := rt1.tenantStates[t];
      if st.circuitOpenedAt.None? then (rt1, false)
      else if now - st.circuitOpenedAt.value >= cfg.breakers[t].cooldownMs then
        (WithState(rt1, t, st.(circuitOpenedAt := None)), false)
      else (rt1, true)
  }

  predicate Trips(cfg: Config, t: Tenant, failures: nat) {
    t in cfg.breakers && failures >= cfg.breakers[t].failureThreshold
  }

  function RecordFailure(cfg: Config, rt: Runtime, t: Tenant, now: Time, r: Reads): Runtime {
    var rt1 := GetTenantState(cfg, rt, t, r);
    var st := rt1.tenantStates[t];
    var n := st.consecutiveFailures + 1;
    WithState(rt1, t, st.(
      consecutiveFailures := n,
      circuitOpenedAt := if Trips(cfg, t, n) then Some(now) else st.circuitOpenedAt))
  }

  function RecordSuccess(cfg: Config, rt: Runtime, t: Tenant, r: Reads): Runtime {
    var rt1 := GetTenantState(cfg, rt, t, r);
    WithState(rt1, t, rt1.tenantStates[t].(consecutiveFailures := 0))
  }

  // ---------------------------------------------------------------- admission of a run

  datatype Verdict = KillSwitch | OverBudget | CircuitOpen | Admitted

  /** The clock readings of doExecuteRun up to its first await. */
  datatype AdmitReads = AdmitReads(touch: Time, now: Time, budget: Reads, breaker: Reads)

  function Admit(cfg: Config, rt: Runtime, t: Tenant, killed: bool, r: AdmitReads): (Runtime, Verdict) {
    var rt1 := Touch(rt, t, r.touch);
    if killed then (rt1, KillSwitch)
    else
      var (rt2, within) := CheckBudget(cfg, rt1, t, r.now, r.budget);
      if !within then (rt2, OverBudget)
      else
        var (rt3, open) := IsCircuitOpen(cfg, rt2, t, r.now, r.breaker);
        (rt3, if open then CircuitOpen else Admitted)
  }

  // ---------------------------------------------------------------- lock chain and queue

  datatype Arrival = Arrival(tenant: Tenant, prev: Option<CallId>)

  /** executeRun and withTenantLock up to `await previous`. */
  function Arrive(rt: Runtime, t: Tenant, id: CallId): (Runtime, Arrival) {
    (rt.(inFlightRunCount := rt.inFlightRunCount[t := rt.InFlight(t) + 1],
         tenantLocks := rt.tenantLocks[t := id]),
     Arrival(t, if t in rt.tenantLocks then Some(rt.tenantLocks[t]) else None))
  }

  /** The finally block of executeRun. */
  function Depart(rt: Runtime, t: Tenant): Runtime {
    var n := rt.InFlight(t) - 1;
    if n <= 0 then rt.(inFlightRunCount := rt.inFlightRunCount - {t})
    else rt.(inFlightRunCount := rt.inFlightRunCount[t := n])
  }

  function NotTenant(t: Tenant): Tenant -> bool {
    (u: Tenant) => u != t
  }

  function Enqueue(queue: seq<Tenant>, t: Tenant, max: int): (r: seq<Tenant>)
    requires max >= 1
    ensures 0 < |r| <= max && r[|r| - 1] == t
  {
    var others := Filter(queue, NotTenant(t));
    (if |others| >= max then others[|others| - (max - 1)..] else others) + [t]
  }

  /** The worker loop of processEventQueue from its head to its next await, or to its end. */
  function Pump(rt: Runtime, id: CallId): (Runtime, Option<Arrival>)
    decreases |rt.eventQueue|
  {
    if !rt.running then (rt.(eventQueue := [], processingEvents := false), None)
    else if rt.eventQueue == [] then (rt.(processingEvents := false), None)
    else
      var rest := rt.(eventQueue := rt.eventQueue[1..]);
      if rt.eventQueue[0] != "" then
        var (rt', a) := Arrive(rest, rt.eventQueue[0], id);
        (rt', Some(a))
      else Pump(rest, id)
  }

  function ProcessEventQueue(rt: Runtime, id: CallId): (Runtime, Option<Arrival>) {
    if !rt.running || rt.processingEvents || rt.eventQueue == [] then (rt, None)
    else Pump(rt.(processingEvents := true), id)
  }

  function Start(rt: Runtime, t: Tenant): Runtime {
    if rt.running then rt else rt.(running := true, heartbeatHandle := Some(t))
  }

  function Stop(rt: Runtime): Runtime {
    rt.(running := false, eventQueue := [], heartbeatHandle := None)
  }

  function EmitEvent(cfg: Config, rt: Runtime, t: Tenant, at: Time, id: CallId): (Runtime, Option<Arrival>)
    requires cfg.Valid()
  {
    if !rt.running then (rt, None)
    else
      var rt1 := Touch(rt, t, at);
      ProcessEventQueue(rt1.(eventQueue := Enqueue(rt1.eventQueue, t, cfg.maxEventQueueSize)), id)
  }

  function ScheduleRun(rt: Runtime, t: Tenant, at: Time, id: CallId): (Runtime, Option<Arrival>) {
    if !rt.running || t in rt.pendingHeartbeatRuns then (rt, None)
    else
      var rt1 := Touch(rt, t, at);
      var (rt2, a) := Arrive(rt1.(pendingHeartbeatRuns := rt1.pendingHeartbeatRuns + {t}), t, id);
      (rt2, Some(a))
  }
}
