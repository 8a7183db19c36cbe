/** What becomes of emitted events: the worker starts one run for the first queued event that names a
    tenant and leaves all later ones queued, so nothing is lost or overtaken on the way. */
module RuntimeEvents {
  import opened Seqs
  import opened RuntimeState
  import opened RuntimeWorld
  import opened RuntimeQueue
  import opened RuntimeLocks

  /** One more call, of this tenant, which has not begun. */
  predicate Appends(calls: seq<Call>, calls': seq<Call>, t: Tenant, origin: Origin) {
    && |calls'| == |calls| + 1 && calls'[..|calls|] == calls
    && calls'[|calls|].tenant == t && calls'[|calls|].origin == origin
    && calls'[|calls|].phase.Waiting? && calls'[|calls|].startedAt.None?
  }

  /** The worker takes the next event of q, or finds none. */
  ghost predicate Takes(q: seq<Tenant>, q': seq<Tenant>, calls: seq<Call>, calls': seq<Call>) {
    && (forall k: nat {:trigger Next(q, k)} :: Next(q, k) ==> Appends(calls, calls', q[k], Event) && q' == q[k + 1..])
    && (NamesNone(q) ==> calls' == calls && q' == [])
  }

  lemma {:induction false} PumpTakes(rt: Runtime, calls: seq<Call>)
    requires rt.running
    ensures
      var (rt', a) := Pump(rt, |calls|);
      Takes(rt.eventQueue, rt'.eventQueue, calls, Spawn(calls, a, Event))
    decreases |rt.eventQueue|
  {
    var q := rt.eventQueue;
    if q != [] && q[0] == "" {
      PumpTakes(rt.(eventQueue := q[1..]), calls);
      forall k: nat | Next(q, k)
        ensures Next(q[1..], k - 1) && q[1..][k - 1] == q[k] && q[1..][k..] == q[k + 1..]
      {
        assert k > 0;
        assert forall i :: 0 <= i < k - 1 ==> q[1..][i] == q[i + 1];
      }
      assert NamesNone(q) ==> NamesNone(q[1..]);
    }
  }

  /** The worker does not touch tenants or switch the runtime. */
  lemma {:induction false} PumpKeepsActivity(rt: Runtime, id: CallId)
    ensures Pump(rt, id).0.tenantLastActivityAt == rt.tenantLastActivityAt && Pump(rt, id).0.running == rt.running
    decreases |rt.eventQueue|
  {
    if rt.eventQueue != [] && rt.eventQueue[0] == "" {
      PumpKeepsActivity(rt.(eventQueue := rt.eventQueue[1..]), id);
    }
  }

  lemma EmitTouches(cfg: Config, w: World, t: Tenant, at: Time)
    requires cfg.Valid() && Enabled(cfg, w, Emit(t, at)) && w.rt.running
    ensures Step(cfg, w, Emit(t, at)).rt.tenantLastActivityAt == w.rt.tenantLastActivityAt[t := at]
    ensures Step(cfg, w, Emit(t, at)).rt.running
  {
    var rt1 := Touch(w.rt, t, at);
    PumpKeepsActivity(rt1.(eventQueue := Enqueue(rt1.eventQueue, t, cfg.maxEventQueueSize), processingEvents := true), |w.calls|);
  }

  /** Emitting while the worker is idle: it takes from the queue with the event in it. */
  lemma EmitWakes(cfg: Config, w: World, t: Tenant, at: Time)
    requires cfg.Valid() && Enabled(cfg, w, Emit(t, at)) && w.rt.running && !w.rt.processingEvents
    ensures
      var w' := Step(cfg, w, Emit(t, at));
      Takes(LastOf(Coalesce(w.rt.eventQueue, t), cfg.maxEventQueueSize), w'.rt.eventQueue, w.calls, w'.calls)
  {
    EnqueueIsLastOf(w.rt.eventQueue, t, cfg.maxEventQueueSize);
    var rt1 := Touch(w.rt, t, at);
    PumpTakes(rt1.(eventQueue := Enqueue(rt1.eventQueue, t, cfg.maxEventQueueSize), processingEvents := true), w.calls);
  }

  /** The calls once call c has finished. */
  function WithFinished(calls: seq<Call>, c: CallId): seq<Call>
    requires c < |calls|
  {
    calls[c := calls[c].(phase := Finished)]
  }

  predicate SameCalls(calls: seq<Call>, calls': seq<Call>) {
    && |calls'| == |calls|
    && forall c :: 0 <= c < |calls| ==> calls'[c].tenant == calls[c].tenant && calls'[c].origin == calls[c].origin
  }

  /** What a label does to queue and calls in a running runtime, or in one that is stopped. */
  ghost predicate ServesEvents(cfg: Config, w: World, l: Label, w': World)
    requires cfg.Valid()
  {
    var (q, q') := (w.rt.eventQueue, w'.rt.eventQueue);
    match l
    case Stop => q' == [] && w'.calls == w.calls && !w'.rt.running
    case Emit(t, at) =>
      if !w.rt.running then w'.rt == w.rt && w'.calls == w.calls
      else
        && t in w'.rt.tenantLastActivityAt && w'.rt.tenantLastActivityAt[t] == at
        && var queued := LastOf(Coalesce(q, t), cfg.maxEventQueueSize);
           if w.rt.processingEvents then q' == queued && w'.calls == w.calls
           else q == [] && queued == [t] && Takes(queued, q', w.calls, w'.calls)
    case Tick(at) =>
      var t := w.rt.heartbeatHandle.GetOr("");
      && q' == q
      && if w.rt.running && t !in w.rt.pendingHeartbeatRuns then
           && Appends(w.calls, w'.calls, t, Heartbeat)
           && t in w'.rt.tenantLastActivityAt && w'.rt.tenantLastActivityAt[t] == at
         else w'.calls == w.calls
    case Finish(c) =>
      c < |w.calls| &&
      if w.calls[c].origin.Heartbeat? then q' == q && w'.calls == WithFinished(w.calls, c)
      else if w.rt.running then Takes(q, q', WithFinished(w.calls, c), w'.calls)
      else q' == [] && w'.calls == WithFinished(w.calls, c)
    case Start(t) =>
      && q' == q && w'.calls == w.calls && w'.rt.running
      && w'.rt.heartbeatHandle == if w.rt.running then w.rt.heartbeatHandle else Some(t)
    case _ => q' == q && SameCalls(w.calls, w'.calls)
  }

  /** In every run: an event call that finishes, or an emit that finds the worker idle, makes the worker
      start exactly one run, for the first queued event that names a tenant, and all later events stay
      queued in order. No other label but Stop and Emit changes the queue. */
  lemma WorkerTakesNext(cfg: Config, start: Time, ls: seq<Label>, l: Label)
    requires cfg.Valid() && Run(cfg, start, ls).Some? && Enabled(cfg, Run(cfg, start, ls).value, l)
    ensures ServesEvents(cfg, Run(cfg, start, ls).value, l, Step(cfg, Run(cfg, start, ls).value, l))
  {
    RunIsSafe(cfg, start, ls);
    StepServesEvents(cfg, Run(cfg, start, ls).value, l);
  }

  lemma EmitServesEvents(cfg: Config, w: World, t: Tenant, at: Time)
    requires cfg.Valid() && Enabled(cfg, w, Emit(t, at)) && QueueInv(cfg, w.rt)
    ensures ServesEvents(cfg, w, Emit(t, at), Step(cfg, w, Emit(t, at)))
  {
    EnqueueIsLastOf(w.rt.eventQueue, t, cfg.maxEventQueueSize);
    if w.rt.running {
      EmitTouches(cfg, w, t, at);
      if !w.rt.processingEvents {
        EmitWakes(cfg, w, t, at);
        assert w.rt.eventQueue == [] && Coalesce([], t) == [t];
      }
    }
  }

  lemma FinishServesEvents(cfg: Config, w: World, c: CallId)
    requires cfg.Valid() && Enabled(cfg, w, Finish(c))
    ensures ServesEvents(cfg, w, Finish(c), Step(cfg, w, Finish(c)))
  {
    if w.calls[c].origin.Event? && w.rt.running {
      PumpTakes(w.rt, WithFinished(w.calls, c));
    }
  }

  lemma TickServesEvents(cfg: Config, w: World, at: Time)
    requires cfg.Valid() && Enabled(cfg, w, Tick(at))
    ensures ServesEvents(cfg, w, Tick(at), Step(cfg, w, Tick(at)))
  {
  }

  lemma MoveServesEvents(cfg: Config, w: World, l: Label, w': World)
    requires cfg.Valid() && IsBodyLabel(l) && BodyMove(cfg, w, w', l.c)
    ensures ServesEvents(cfg, w, l, w')
  {
  }

  lemma BodyServesEvents(cfg: Config, w: World, l: Label)
    requires cfg.Valid() && SafeInv(cfg, w) && Enabled(cfg, w, l) && IsBodyLabel(l)
    ensures ServesEvents(cfg, w, l, Step(cfg, w, l))
  {
    BodyStepMoves(cfg, w, l);
    MoveServesEvents(cfg, w, l, Step(cfg, w, l));
  }

  lemma OtherServesEvents(cfg: Config, w: World, l: Label)
    requires cfg.Valid() && Enabled(cfg, w, l)
    requires l.Start? || l.Stop? || l.ProviderSettles? || l.HoldOver? || l.Release? || l.Decrement?
    ensures ServesEvents(cfg, w, l, Step(cfg, w, l))
  {
  }

  lemma StepServesEvents(cfg: Config, w: World, l: Label)
    requires cfg.Valid() && Enabled(cfg, w, l) && SafeInv(cfg, w)
    ensures ServesEvents(cfg, w, l, Step(cfg, w, l))
  {
    match l
    case Emit(t, at) => EmitServesEvents(cfg, w, t, at);
    case Finish(c) => FinishServesEvents(cfg, w, c);
    case Tick(at) => TickServesEvents(cfg, w, at);
    case _ =>
      if IsBodyLabel(l) {
        BodyServesEvents(cfg, w, l);
      } else {
        OtherServesEvents(cfg, w, l);
      }
  }

  // ---------------------------------------------------------------- no event is lost or overtaken

  function Named(q: seq<Tenant>): seq<Tenant> {
    Filter(q, NotTenant(""))
  }

  /** The tenants of the event calls among these, in order. */
  function EventTenants(calls: seq<Call>): seq<Tenant> {
    if calls == [] then []
    else
      var n := |calls| - 1;
      if calls[n].origin.Event? then EventTenants(calls[..n]) + [calls[n].tenant] else EventTenants(calls[..n])
  }

  lemma NamedAlone(t: Tenant)
    requires t != ""
    ensures Named([t]) == [t]
  {
    assert [t][..0] == [];
  }

  lemma NothingFirst(a: seq<Tenant>, b: seq<Tenant>)
    requires a == []
    ensures a + b == b
  {
  }

  /** The next event is the first named one. */
  lemma NextIsFirstNamed(q: seq<Tenant>, k: nat)
    requires Next(q, k)
    ensures Named(q) == [q[k]] + Named(q[k + 1..])
  {
    var passed, rest := q[..k], q[k + 1..];
    SplitAround(q, k);
    FilterConcat(passed, [q[k]] + rest, NotTenant(""));
    FilterConcat([q[k]], rest, NotTenant(""));
    NoneNamed(passed);
    NamedAlone(q[k]);
    NothingFirst(Named(passed), Named([q[k]] + rest));
  }

  lemma {:induction false} NoneNamed(q: seq<Tenant>)
    requires NamesNone(q)
    ensures Named(q) == []
  {
    if q != [] {
      NoneNamed(q[..|q| - 1]);
    }
  }

  lemma {:induction false} EventTenantsAppend(calls: seq<Call>, call: Call)
    ensures EventTenants(calls + [call]) == if call.origin.Event? then EventTenants(calls) + [call.tenant] else EventTenants(calls)
  {
    assert (calls + [call])[..|calls|] == calls;
  }

  lemma {:induction false} EventTenantsKeep(calls: seq<Call>, calls': seq<Call>)
    requires SameCalls(calls, calls')
    ensures EventTenants(calls') == EventTenants(calls)
  {
    if calls != [] {
      EventTenantsKeep(calls[..|calls| - 1], calls'[..|calls| - 1]);
    }
  }

  /** Some event names a tenant, or none does. */
  lemma NextOrNone(q: seq<Tenant>) returns (k: nat)
    ensures Next(q, k) || NamesNone(q)
  {
    k := 0;
    while k < |q| && q[k] == ""
      invariant k <= |q| && forall i :: 0 <= i < k ==> q[i] == ""
    {
      k := k + 1;
    }
  }

  lemma TakingServes(q: seq<Tenant>, q': seq<Tenant>, calls: seq<Call>, calls': seq<Call>)
    requires Takes(q, q', calls, calls')
    ensures EventTenants(calls') + Named(q') == EventTenants(calls) + Named(q)
  {
    var k := NextOrNone(q);
    if NamesNone(q) {
      NoneNamed(q);
      assert Named(q') == [];
    } else {
      NextIsFirstNamed(q, k);
      AppendedServes(calls, calls', q[k], Event);
      Regroup(EventTenants(calls), [q[k]], Named(q'));
    }
  }

  lemma AppendedServes(calls: seq<Call>, calls': seq<Call>, t: Tenant, origin: Origin)
    requires Appends(calls, calls', t, origin)
    ensures EventTenants(calls') == if origin.Event? then EventTenants(calls) + [t] else EventTenants(calls)
  {
    FrontAndLast(calls');
    EventTenantsAppend(calls, calls'[|calls|]);
  }

  lemma Regroup(a: seq<Tenant>, b: seq<Tenant>, c: seq<Tenant>)
    ensures a + b + c == a + (b + c)
  {
  }

  predicate NeitherEmitsNorStops(ls: seq<Label>) {
    forall l | l in ls :: !l.Emit? && !l.Stop?
  }

  lemma ServingKeepsOrder(cfg: Config, w: World, l: Label, w': World)
    requires cfg.Valid() && ServesEvents(cfg, w, l, w') && !l.Emit? && !l.Stop? && (!w.rt.running ==> w.rt.eventQueue == [])
    ensures EventTenants(w'.calls) + Named(w'.rt.eventQueue) == EventTenants(w.calls) + Named(w.rt.eventQueue)
  {
    match l
    case Finish(c) =>
      var calls := WithFinished(w.calls, c);
      EventTenantsKeep(w.calls, calls);
      if w.calls[c].origin.Event? && w.rt.running {
        TakingServes(w.rt.eventQueue, w'.rt.eventQueue, calls, w'.calls);
      }
    case Tick(at) =>
      if w.rt.running && w.rt.heartbeatHandle.GetOr("") !in w.rt.pendingHeartbeatRuns {
        AppendedServes(w.calls, w'.calls, w.rt.heartbeatHandle.GetOr(""), Heartbeat);
      }
    case Start(_) =>
    case _ => EventTenantsKeep(w.calls, w'.calls);
  }

  lemma StepKeepsOrder(cfg: Config, w: World, l: Label)
    requires cfg.Valid() && SafeInv(cfg, w) && Enabled(cfg, w, l) && !l.Emit? && !l.Stop?
    ensures
      var w' := Step(cfg, w, l);
      EventTenants(w'.calls) + Named(w'.rt.eventQueue) == EventTenants(w.calls) + Named(w.rt.eventQueue)
  {
    StepServesEvents(cfg, w, l);
    ServingKeepsOrder(cfg, w, l, Step(cfg, w, l));
  }

  lemma RunOneMore(cfg: Config, start: Time, ls: seq<Label>, later: seq<Label>)
    requires cfg.Valid() && Run(cfg, start, ls + later).Some? && later != []
    ensures
      var before, l := ls + later[..|later| - 1], later[|later| - 1];
      && Run(cfg, start, before).Some? && SafeInv(cfg, Run(cfg, start, before).value)
      && Enabled(cfg, Run(cfg, start, before).value, l)
      && Run(cfg, start, ls + later).value == Step(cfg, Run(cfg, start, before).value, l)
  {
    ConcatFront(ls, later);
    RunIsSafe(cfg, start, ls + later[..|later| - 1]);
  }

  /** While nothing is emitted and the runtime is not stopped, the event runs started are exactly the
      queued events that name a tenant, in queue order: what is not yet served is still queued. */
  lemma {:induction false} EventsAreServedInOrder(cfg: Config, start: Time, ls: seq<Label>, later: seq<Label>)
    requires cfg.Valid() && Run(cfg, start, ls).Some? && Run(cfg, start, ls + later).Some? && NeitherEmitsNorStops(later)
    ensures
      var w, w' := Run(cfg, start, ls).value, Run(cfg, start, ls + later).value;
      EventTenants(w'.calls) + Named(w'.rt.eventQueue) == EventTenants(w.calls) + Named(w.rt.eventQueue)
    decreases |later|
  {
    if later == [] {
      assert ls + later == ls;
    } else {
      var n := |later| - 1;
      RunOneMore(cfg, start, ls, later);
      EventsAreServedInOrder(cfg, start, ls, later[..n]);
      assert later[n] in later;
      StepKeepsOrder(cfg, Run(cfg, start, ls + later[..n]).value, later[n]);
    }
  }
}
