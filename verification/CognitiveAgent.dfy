/** core/agent/cognitive-agent.ts: one run of the agent, for every behaviour of its collaborators. */
module CognitiveAgent {
  import opened Seqs

  datatype AgentState =
    | Observe | RetrieveMemory | UpdateWorld | UpdateSelf | PlanGoals | Simulate | QueryLlm
    | ValidateOutput | Act | StoreResults | Learn | Complete | Error

  datatype Action = Action(kind: string, payload: string)

  /** An empty action type stands for a missing one. */
  datatype Decision = Decision(actionType: string, payload: string) {
    function AsAction(): Action {
      Action(actionType, payload)
    }
  }

  datatype DryRunMode = Off | WithLlm | WithoutLlm

  datatype Options = Options(dryRun: DryRunMode, multiActMaxSteps: Option<int>) {
    function MaxSteps(): (n: nat)
      ensures n >= 1
    {
      var steps := multiActMaxSteps.GetOr(1);
      if steps >= 1 then steps else 1
    }
  }

  /** What a call comes to. */
  datatype Reply<T> = Threw | Got(value: T)

  /** What the collaborators answer. Every answer may depend on how many calls were made before, and so
      on anything that happened earlier in the run. */
  datatype World = World(
    completes: nat -> bool,
    flagged: nat -> Reply<bool>,
    nextGoal: nat -> Reply<Option<Decision>>,
    planHasSteps: nat -> Reply<bool>,
    validated: nat -> Reply<Option<Decision>>,
    allowed: nat -> Reply<bool>,
    acted: nat -> Reply<bool>)

  /** The calls that collaborators answer. */
  datatype Duty =
    | Observing | Screening | Recalling | UpdatingWorld | Snapshotting | Choosing | Planning | Storing
    | Prompting | Generating | Validating | Gating | Acting | Reflecting | Hinting | Remembering | Concluding

  /** What happens in a run. Events with a number are answers; the n-th call is answered as number n. */
  datatype Event =
    | Entered(state: AgentState)
    | Called(duty: Duty, n: nat) // returned, with nothing that matters here
    | Broke(duty: Duty, n: nat) // threw
    | Screened(flagged: bool, n: nat)
    | Chose(goal: Option<Decision>, n: nat) // the goal is known by its first candidate action
    | Planned(hasSteps: bool, n: nat)
    | AddedProcedural
    | Generated
    | Validated(decision: Option<Decision>, n: nat)
    | Gated(action: Action, approved: bool, n: nat)
    | Acted(action: Action)
    | Resulted(success: bool, n: nat)
    | AddedEpisodic(action: Action, success: bool)
    | RecordedOutcome(success: bool)

  // ---------------------------------------------------------------- what a run has done

  datatype Tally = Tally(
    states: seq<AgentState>,
    decision: Option<Decision>,
    acts: seq<Action>,
    results: seq<bool>,
    generates: nat,
    plans: nat,
    episodes: seq<(Action, bool)>,
    outcomes: seq<bool>,
    calls: nat)

  const NOTHING := Tally([], None, [], [], 0, 0, [], [], 0)

  /** The decision that stands after a validation: a valid one with an action type, or the one before. */
  function Newest(standing: Option<Decision>, validated: Option<Decision>): Option<Decision> {
    if validated.Some? && validated.value.actionType != "" then validated else standing
  }

  predicate IsAnswer(e: Event) {
    !(e.Entered? || e.AddedProcedural? || e.Generated? || e.Acted? || e.AddedEpisodic? || e.RecordedOutcome?)
  }

  function Noted(t: Tally, e: Event): Tally {
    match e
    case Entered(state) => t.(states := t.states + [state])
    case Called(_, _) => t.(calls := t.calls + 1)
    case Broke(_, _) => t.(calls := t.calls + 1)
    case Screened(_, _) => t.(calls := t.calls + 1)
    case Chose(goal, _) => t.(decision := goal, calls := t.calls + 1)
    case Planned(_, _) => t.(calls := t.calls + 1)
    case AddedProcedural => t.(plans := t.plans + 1)
    case Generated => t.(generates := t.generates + 1)
    case Validated(d, _) => t.(decision := Newest(t.decision, d), calls := t.calls + 1)
    case Gated(_, _, _) => t.(calls := t.calls + 1)
    case Acted(action) => t.(acts := t.acts + [action])
    case Resulted(success, _) => t.(results := t.results + [success], calls := t.calls + 1)
    case AddedEpisodic(action, success) => t.(episodes := t.episodes + [(action, success)])
    case RecordedOutcome(success) => t.(outcomes := t.outcomes + [success])
  }

  /** What the first n events amount to. */
  function CountTo(log: seq<Event>, n: nat): Tally
    requires n <= |log|
  {
    if n == 0 then NOTHING else Noted(CountTo(log, n - 1), log[n - 1])
  }

  function Count(log: seq<Event>): Tally {
    CountTo(log, |log|)
  }

  // ---------------------------------------------------------------- the rules

  /** The collaborator threw when call n was made. */
  predicate Throws(world: World, duty: Duty, n: nat) {
    match duty
    case Screening => world.flagged(n).Threw?
    case Choosing => world.nextGoal(n).Threw?
    case Planning => world.planHasSteps(n).Threw?
    case Validating => world.validated(n).Threw?
    case Gating => world.allowed(n).Threw?
    case Acting => world.acted(n).Threw?
    case _ => !world.completes(n)
  }

  /** An event that reports an answer reports what the collaborator answered to this very call. */
  predicate Truthful(world: World, t: Tally, e: Event) {
    match e
    case Called(duty, n) => n == t.calls && !Throws(world, duty, n)
    case Broke(duty, n) => n == t.calls && Throws(world, duty, n)
    case Screened(flagged, n) => n == t.calls && world.flagged(n) == Got(flagged)
    case Chose(goal, n) => n == t.calls && world.nextGoal(n) == Got(goal)
    case Planned(hasSteps, n) => n == t.calls && world.planHasSteps(n) == Got(hasSteps)
    case Validated(decision, n) => n == t.calls && world.validated(n) == Got(decision)
    case Gated(_, approved, n) => n == t.calls && world.allowed(n) == Got(approved)
    case Resulted(success, n) => n == t.calls && world.acted(n) == Got(success)
    case _ => true
  }

  /** The call is made, and returns or throws. */
  predicate Calls(e: Event, duty: Duty) {
    (e.Called? || e.Broke?) && e.duty == duty
  }

  predicate BreaksAt(e: Event, duty: Duty) {
    e.Broke? && e.duty == duty
  }

  /** The gate is asked about the decision that stands. */
  predicate AsksGate(t: Tally, e: Event) {
    t.decision.Some? && ((e.Gated? && e.action == t.decision.value.AsAction()) || BreaksAt(e, Gating))
  }

  predicate StartsDeciding(opts: Options, e: Event) {
    e == Entered(if opts.dryRun == WithoutLlm then ValidateOutput else QueryLlm)
  }

  /** The acts are remembered one by one with their results, and then the agent learns. */
  predicate RemembersNext(t: Tally, e: Event) {
    var k := |t.episodes|;
    if k < |t.acts| then k < |t.results| && e == AddedEpisodic(t.acts[k], t.results[k]) else e == Entered(Learn)
  }

  predicate AfterEntering(opts: Options, t: Tally, s: AgentState, e: Event) {
    match s
    case Observe => Calls(e, Observing)
    case RetrieveMemory => e.Screened? || BreaksAt(e, Screening)
    case UpdateWorld => Calls(e, UpdatingWorld)
    case UpdateSelf => Calls(e, Snapshotting)
    case PlanGoals => e.Chose? || BreaksAt(e, Choosing)
    case Simulate => e.Planned? || BreaksAt(e, Planning)
    case QueryLlm => Calls(e, Prompting)
    case ValidateOutput => if opts.dryRun == WithoutLlm then AsksGate(t, e) else e.Validated? || BreaksAt(e, Validating)
    case Act => t.decision.Some? && e == Acted(t.decision.value.AsAction())
    case StoreResults => RemembersNext(t, e)
    case Learn => e == RecordedOutcome(t.results == [] || t.results[|t.results| - 1])
    case Complete => false
    case Error => false
  }

  predicate AfterCall(opts: Options, t: Tally, duty: Duty, e: Event) {
    match duty
    case Observing => e == Entered(RetrieveMemory)
    case Recalling => e == Entered(UpdateWorld)
    case UpdatingWorld => e == Entered(UpdateSelf)
    case Snapshotting => e == Entered(PlanGoals)
    case Storing => StartsDeciding(opts, e)
    case Prompting => e == Generated
    case Generating => if t.acts == [] then e == Entered(ValidateOutput) else e.Validated? || BreaksAt(e, Validating)
    case Reflecting => if |t.acts| >= opts.MaxSteps() then e == Entered(StoreResults) else Calls(e, Hinting)
    case Hinting => e == Generated
    case Remembering => RemembersNext(t, e)
    case Concluding => e == Entered(Complete)
    case _ => false
  }

  /** After a validation: a usable decision goes to the gate; an unusable one ends the acting, or is asked
      for once more, or ends the run. */
  predicate AfterValidation(t: Tally, d: Option<Decision>, e: Event) {
    if d.Some? && d.value.actionType != "" then AsksGate(t, e)
    else if t.acts != [] then e == Entered(StoreResults)
    else if d.None? && t.generates < 2 then e == Generated
    else e == Entered(Error)
  }

  /** What may happen next, given what has happened and the last event. */
  predicate Follows(opts: Options, t: Tally, last: Option<Event>, e: Event) {
    match last
    case None => e == Entered(Observe)
    case Some(Entered(s)) => AfterEntering(opts, t, s, e)
    case Some(Called(duty, _)) => AfterCall(opts, t, duty, e)
    case Some(Broke(_, _)) => e == Entered(Error)
    case Some(Screened(flagged, _)) => if flagged then e == Entered(Error) else Calls(e, Recalling)
    case Some(Chose(goal, _)) => goal.Some? && e == Entered(Simulate)
    case Some(Planned(hasSteps, _)) =>
      if hasSteps && opts.dryRun == Off then e == AddedProcedural else StartsDeciding(opts, e)
    case Some(AddedProcedural) => Calls(e, Storing)
    case Some(Generated) => Calls(e, Generating)
    case Some(Validated(d, _)) => AfterValidation(t, d, e)
    case Some(Gated(action, approved, _)) =>
      e == Entered(if !approved then Error
                   else if action.kind == "complete_run" then StoreResults
                   else if opts.dryRun != Off then Complete
                   else Act)
    case Some(Acted(_)) => e.Resulted? || BreaksAt(e, Acting)
    case Some(Resulted(_, _)) => Calls(e, Reflecting)
    case Some(AddedEpisodic(_, _)) => Calls(e, Remembering)
    case Some(RecordedOutcome(_)) => Calls(e, Concluding)
  }

  function LastOf(log: seq<Event>, n: nat): Option<Event>
    requires n <= |log|
  {
    if n == 0 then None else Some(log[n - 1])
  }

  predicate Permitted(opts: Options, world: World, t: Tally, last: Option<Event>, e: Event) {
    Truthful(world, t, e) && Follows(opts, t, last, e)
  }

  predicate PermittedAt(opts: Options, world: World, log: seq<Event>, i: nat)
    requires i < |log|
  {
    Permitted(opts, world, CountTo(log, i), LastOf(log, i), log[i])
  }

  /** Every event reports the truth and is what the rules ask for at this point. */
  ghost predicate Obeys(opts: Options, world: World, log: seq<Event>) {
    forall i {:trigger PermittedAt(opts, world, log, i)} :: 0 <= i < |log| ==> PermittedAt(opts, world, log, i)
  }

  /** The run is over, and this is its result. */
  predicate EndsWith(opts: Options, log: seq<Event>, t: Tally, r: Result) {
    log != [] &&
    match log[|log| - 1]
    case Chose(None, _) => r == Result(Idle, None, false)
    case Entered(Error) => r == Result(Failed, None, false)
    case Entered(Complete) =>
      if opts.dryRun != Off && |log| >= 2 && log[|log| - 2].Gated? then r == Result(DryRunDone, t.decision, true)
      else r == Result(Completed, t.decision, t.results == [] || t.results[|t.results| - 1])
    case _ => false
  }

  // The trail has the tally before each event and after the last.

  predicate CountedAt(log: seq<Event>, trail: seq<Tally>, i: nat)
    requires i < |log| && i + 1 < |trail|
  {
    trail[i + 1] == Noted(trail[i], log[i])
  }

  ghost predicate Tracks(log: seq<Event>, trail: seq<Tally>) {
    && |trail| == |log| + 1 && trail[0] == NOTHING
    && forall i {:trigger CountedAt(log, trail, i)} :: 0 <= i < |log| ==> CountedAt(log, trail, i)
  }

  predicate SoundAt(opts: Options, world: World, log: seq<Event>, trail: seq<Tally>, i: nat)
    requires i < |log| && i < |trail|
  {
    Permitted(opts, world, trail[i], LastOf(log, i), log[i])
  }

  ghost predicate Sound(opts: Options, world: World, log: seq<Event>, trail: seq<Tally>)
    requires |trail| == |log| + 1
  {
    forall i {:trigger SoundAt(opts, world, log, trail, i)} :: 0 <= i < |log| ==> SoundAt(opts, world, log, trail, i)
  }

  lemma SoundMore(opts: Options, world: World, log: seq<Event>, trail: seq<Tally>, e: Event)
    requires Tracks(log, trail) && Sound(opts, world, log, trail)
    requires Permitted(opts, world, trail[|log|], LastOf(log, |log|), e)
    ensures
      var (log', trail') := (log + [e], trail + [Noted(trail[|log|], e)]);
      Tracks(log', trail') && Sound(opts, world, log', trail')
  {
    var log', trail' := log + [e], trail + [Noted(trail[|log|], e)];
    forall i | 0 <= i < |log'|
      ensures CountedAt(log', trail', i) && SoundAt(opts, world, log', trail', i)
    {
      if i < |log| {
        assert CountedAt(log, trail, i) && SoundAt(opts, world, log, trail, i);
        assert LastOf(log', i) == LastOf(log, i);
      }
    }
  }

  lemma {:induction false} TrailIsCount(log: seq<Event>, trail: seq<Tally>, n: nat)
    requires Tracks(log, trail) && n <= |log|
    ensures trail[n] == CountTo(log, n)
  {
    if n > 0 {
      TrailIsCount(log, trail, n - 1);
      assert CountedAt(log, trail, n - 1);
    }
  }

  lemma SoundObeys(opts: Options, world: World, log: seq<Event>, trail: seq<Tally>)
    requires Tracks(log, trail) && Sound(opts, world, log, trail)
    ensures Obeys(opts, world, log) && trail[|log|] == Count(log)
  {
    TrailIsCount(log, trail, |log|);
    forall i | 0 <= i < |log|
      ensures PermittedAt(opts, world, log, i)
    {
      TrailIsCount(log, trail, i);
      assert SoundAt(opts, world, log, trail, i);
    }
  }

  /** The gate has approved this action. */
  predicate GateApproved(e: Event, action: Action) {
    e.Gated? && e.action == action && e.approved
  }

  /** The gate has just approved this very action, and the run has entered the act state for it. */
  predicate ApprovedAt(log: seq<Event>, i: nat)
    requires i < |log| && log[i].Acted?
  {
    i >= 2 && log[i - 1] == Entered(Act) && GateApproved(log[i - 2], log[i].action) && log[i].action.kind != "complete_run"
  }

  ghost predicate Approved(log: seq<Event>) {
    forall i {:trigger ApprovedAt(log, i)} :: 0 <= i < |log| && log[i].Acted? ==> ApprovedAt(log, i)
  }

  // ---------------------------------------------------------------- the language of traces

  const PREFIX := [Observe, RetrieveMemory, UpdateWorld, UpdateSelf, PlanGoals, Simulate]

  function Repeat(s: AgentState, n: nat): seq<AgentState> {
    seq(n, _ => s)
  }

  function Head(llm: bool, validations: nat): seq<AgentState> {
    PREFIX + (if llm then [QueryLlm] else []) + Repeat(ValidateOutput, validations)
  }

  /** A run that goes all the way. */
  function Spine(llm: bool, validations: nat, acts: nat): seq<AgentState> {
    Head(llm, validations) + Repeat(Act, acts) + [StoreResults, Learn, Complete]
  }

  datatype Status = Idle | Completed | DryRunDone | Failed

  datatype Result = Result(status: Status, decision: Option<Decision>, success: bool)

  /** complete and error come last only: a failed run is a run that breaks off, plus error. */
  predicate InLanguage(status: Status, trace: seq<AgentState>, llm: bool, validations: nat, acts: nat) {
    match status
    case Idle => trace == PREFIX[..5]
    case Completed => trace == Spine(llm, validations, acts)
    case DryRunDone => trace == Head(llm, validations) + [Complete]
    case Failed => BreaksOff(trace, llm, validations, acts)
  }

  predicate BreaksOff(trace: seq<AgentState>, llm: bool, validations: nat, acts: nat) {
    trace != [] && trace[|trace| - 1] == Error && Unfinished(trace[..|trace| - 1], llm, validations, acts)
  }

  predicate Unfinished(trace: seq<AgentState>, llm: bool, validations: nat, acts: nat) {
    trace != [] && trace <= Head(llm, validations) + Repeat(Act, acts) + [StoreResults, Learn]
  }

  /** A dry run ends where it would have acted, with the decision the gate has just approved. */
  predicate WouldHaveActed(log: seq<Event>, r: Result) {
    && r.decision.Some? && r.decision.value.actionType != "complete_run"
    && |log| >= 2 && GateApproved(log[|log| - 2], r.decision.value.AsAction()) && log[|log| - 1] == Entered(Complete)
  }

  // ---------------------------------------------------------------- what the rules imply

  lemma ObeyingIsApproved(opts: Options, world: World, log: seq<Event>)
    requires Obeys(opts, world, log)
    ensures Approved(log)
  {
    forall i | 0 <= i < |log| && log[i].Acted?
      ensures ApprovedAt(log, i)
    {
      assert PermittedAt(opts, world, log, i);
      assert i >= 1 && log[i - 1] == Entered(Act);
      assert PermittedAt(opts, world, log, i - 1);
      assert i >= 2 && log[i - 2].Gated?;
      assert PermittedAt(opts, world, log, i - 2);
    }
  }

  /** An act is one the gate was asked about and has approved, and nothing happened in between. */
  lemma ActsAreApproved(opts: Options, world: World, log: seq<Event>, i: nat)
    requires Obeys(opts, world, log) && i < |log| && log[i].Acted?
    ensures i >= 2 && log[i - 2].Gated? && log[i - 2].action == log[i].action && world.allowed(log[i - 2].n) == Got(true)
    ensures opts.dryRun == Off && log[i].action.kind != "complete_run"
  {
    ObeyingIsApproved(opts, world, log);
    assert ApprovedAt(log, i);
    assert PermittedAt(opts, world, log, i - 2);
    assert PermittedAt(opts, world, log, i - 1);
  }

  /** An event after which only the error state can follow. */
  predicate IsFatal(e: Event) {
    e.Broke? || (e.Screened? && e.flagged) || (e.Gated? && !e.approved)
  }

  /** If the filter flags the input, the gate denies the action or a collaborator throws, then the run
      fails at once: nothing happens any more, and in particular nothing is done. */
  lemma FatalIsFinal(opts: Options, world: World, log: seq<Event>, r: Result, i: nat)
    requires Obeys(opts, world, log) && EndsWith(opts, log, Count(log), r) && i < |log| && IsFatal(log[i])
    ensures |log| == i + 2 && log[i + 1] == Entered(Error) && r == Result(Failed, None, false)
    ensures log[i].Gated? ==> world.allowed(log[i].n) == Got(false)
    ensures log[i].Screened? ==> world.flagged(log[i].n) == Got(true)
  {
    assert PermittedAt(opts, world, log, i);
    assert i + 1 < |log|;
    assert PermittedAt(opts, world, log, i + 1);
    if i + 2 < |log| {
      EndsAreLast(opts, world, log, i + 1);
    }
  }

  predicate IsEnd(e: Event) {
    e == Entered(Error) || e == Entered(Complete) || (e.Chose? && e.goal.None?)
  }

  lemma EndsAreLast(opts: Options, world: World, log: seq<Event>, i: nat)
    requires Obeys(opts, world, log) && i + 1 < |log|
    ensures !IsEnd(log[i])
  {
    assert PermittedAt(opts, world, log, i + 1);
  }

  /** A decision that cannot be used, before anything was done. */
  predicate IsUnusable(e: Event) {
    e.Validated? && (e.decision.None? || e.decision.value.actionType == "")
  }

  /** A run fails only if something threw, the input was flagged, the action was denied, or the model
      gave no usable decision. */
  lemma FailsForCause(opts: Options, world: World, log: seq<Event>, r: Result)
    requires Obeys(opts, world, log) && EndsWith(opts, log, Count(log), r) && r.status.Failed?
    ensures |log| >= 2 && (IsFatal(log[|log| - 2]) || (IsUnusable(log[|log| - 2]) && CountTo(log, |log| - 1).acts == []))
  {
    assert PermittedAt(opts, world, log, |log| - 1);
  }

  /** At every point the rules and the collaborators leave one possibility. */
  lemma OneNext(opts: Options, world: World, t: Tally, last: Option<Event>, e: Event, e': Event)
    requires Permitted(opts, world, t, last, e) && Permitted(opts, world, t, last, e')
    ensures e == e'
  {
    if last.Some? {
      match last.value
      case Entered(s) => OneAfterEntering(opts, world, t, s, e, e');
      case Called(duty, _) => OneAfterCall(opts, world, t, duty, e, e');
      case Validated(d, _) => OneAfterValidation(world, t, d, e, e');
      case Screened(flagged, _) =>
        if !flagged {
          OneCall(world, t, Recalling, e, e');
        }
      case AddedProcedural => OneCall(world, t, Storing, e, e');
      case Generated => OneCall(world, t, Generating, e, e');
      case Resulted(_, _) => OneCall(world, t, Reflecting, e, e');
      case AddedEpisodic(_, _) => OneCall(world, t, Remembering, e, e');
      case RecordedOutcome(_) => OneCall(world, t, Concluding, e, e');
      case _ =>
    }
  }

  lemma OneCall(world: World, t: Tally, duty: Duty, e: Event, e': Event)
    requires Truthful(world, t, e) && Truthful(world, t, e') && Calls(e, duty) && Calls(e', duty)
    ensures e == e'
  {
  }

  lemma OneValidation(world: World, t: Tally, e: Event, e': Event)
    requires Truthful(world, t, e) && Truthful(world, t, e')
    requires (e.Validated? || BreaksAt(e, Validating)) && (e'.Validated? || BreaksAt(e', Validating))
    ensures e == e'
  {
  }

  lemma OneGating(world: World, t: Tally, e: Event, e': Event)
    requires Truthful(world, t, e) && Truthful(world, t, e') && AsksGate(t, e) && AsksGate(t, e')
    ensures e == e'
  {
  }

  lemma OneAfterEntering(opts: Options, world: World, t: Tally, s: AgentState, e: Event, e': Event)
    requires Truthful(world, t, e) && Truthful(world, t, e') && AfterEntering(opts, t, s, e) && AfterEntering(opts, t, s, e')
    ensures e == e'
  {
    match s
    case Observe => OneCall(world, t, Observing, e, e');
    case UpdateWorld => OneCall(world, t, UpdatingWorld, e, e');
    case UpdateSelf => OneCall(world, t, Snapshotting, e, e');
    case QueryLlm => OneCall(world, t, Prompting, e, e');
    case ValidateOutput =>
      if opts.dryRun == WithoutLlm {
        OneGating(world, t, e, e');
      } else {
        OneValidation(world, t, e, e');
      }
    case _ =>
  }

  lemma OneAfterCall(opts: Options, world: World, t: Tally, duty: Duty, e: Event, e': Event)
    requires Truthful(world, t, e) && Truthful(world, t, e') && AfterCall(opts, t, duty, e) && AfterCall(opts, t, duty, e')
    ensures e == e'
  {
    match duty
    case Generating =>
      if t.acts != [] {
        OneValidation(world, t, e, e');
      }
    case Reflecting =>
      if |t.acts| < opts.MaxSteps() {
        OneCall(world, t, Hinting, e, e');
      }
    case _ =>
  }

  lemma OneAfterValidation(world: World, t: Tally, d: Option<Decision>, e: Event, e': Event)
    requires Truthful(world, t, e) && Truthful(world, t, e') && AfterValidation(t, d, e) && AfterValidation(t, d, e')
    ensures e == e'
  {
    if d.Some? && d.value.actionType != "" {
      OneGating(world, t, e, e');
    }
  }

  lemma {:induction false} SameSoFar(opts: Options, world: World, log: seq<Event>, log': seq<Event>, n: nat)
    requires Obeys(opts, world, log) && Obeys(opts, world, log') && n <= |log| && n <= |log'|
    ensures log[..n] == log'[..n] && CountTo(log, n) == CountTo(log', n)
  {
    if n > 0 {
      SameSoFar(opts, world, log, log', n - 1);
      assert PermittedAt(opts, world, log, n - 1) && PermittedAt(opts, world, log', n - 1);
      assert n > 1 ==> log[n - 2] == log[..n - 1][n - 2] == log'[n - 2];
      OneNext(opts, world, CountTo(log, n - 1), LastOf(log, n - 1), log[n - 1], log'[n - 1]);
      assert log[..n] == log[..n - 1] + [log[n - 1]] && log'[..n] == log'[..n - 1] + [log'[n - 1]];
    }
  }

  lemma NothingAfterEnd(opts: Options, world: World, log: seq<Event>, log': seq<Event>, r: Result)
    requires Obeys(opts, world, log) && Obeys(opts, world, log') && EndsWith(opts, log, Count(log), r)
    ensures |log'| <= |log|
  {
    var n := |log|;
    if |log'| > n {
      SameSoFar(opts, world, log, log', n);
      assert log'[n - 1] == log'[..n][n - 1] == log[..n][n - 1];
      EndsAreLast(opts, world, log', n - 1);
    }
  }

  /** What the collaborators answer determines the whole run: the rules leave no choice. */
  lemma RunIsDetermined(opts: Options, world: World, log: seq<Event>, log': seq<Event>, r: Result, r': Result)
    requires Obeys(opts, world, log) && EndsWith(opts, log, Count(log), r)
    requires Obeys(opts, world, log') && EndsWith(opts, log', Count(log'), r')
    ensures log == log' && r == r'
  {
    NothingAfterEnd(opts, world, log, log', r);
    NothingAfterEnd(opts, world, log', log, r');
    SameSoFar(opts, world, log, log', |log|);
    assert log[..|log|] == log && log'[..|log'|] == log';
  }

  // ---------------------------------------------------------------- how runs end

  /** The run went all the way: every act is remembered, and the last one learned from. */
  predicate Finished(opts: Options, log: seq<Event>, t: Tally, llm: bool, v: nat, n: nat, r: Result) {
    && EndsWith(opts, log, t, r)
    && r.status.Completed? && t.states == Spine(llm, v, n)
    && ActionsOf(t.episodes) == t.acts && SuccessesOf(t.episodes) == t.results
    && t.outcomes == [r.success]
    && r.success == (t.acts == [] || t.episodes[|t.episodes| - 1].1)
    && (opts.dryRun != Off ==> r.decision.Some? && r.decision.value.actionType == "complete_run")
  }

  /** The run ended after its first decision, without going all the way. */
  predicate Stopped(opts: Options, log: seq<Event>, t: Tally, llm: bool, v: nat, n: nat, r: Result) {
    && EndsWith(opts, log, t, r)
    && if r.status.DryRunDone? then opts.dryRun != Off && t.states == Head(llm, v) + [Complete] && WouldHaveActed(log, r)
       else r.status.Failed? && BreaksOff(t.states, llm, v, n)
  }

  /** The run ended early, wherever that was. */
  predicate GivenUp(opts: Options, log: seq<Event>, t: Tally, llm: bool, v: nat, n: nat, r: Result) {
    && EndsWith(opts, log, t, r)
    && !r.status.Completed? && (r.status.DryRunDone? ==> opts.dryRun != Off && WouldHaveActed(log, r))
    && InLanguage(r.status, t.states, llm, v, n)
  }

  lemma CompletedIsFinished(opts: Options, log: seq<Event>, t: Tally, llm: bool, v: nat, n: nat, r: Result)
    requires EndsWith(opts, log, t, r) && r.status.Completed?
    requires t.states == Head(llm, v) + Repeat(Act, n) + [StoreResults, Learn, Complete]
    requires ActionsOf(t.episodes) == t.acts && SuccessesOf(t.episodes) == t.results && t.outcomes == [r.success]
    requires r.success == (t.episodes == [] || t.episodes[|t.episodes| - 1].1)
    requires opts.dryRun != Off ==> r.decision.Some? && r.decision.value.actionType == "complete_run"
    ensures Finished(opts, log, t, llm, v, n, r) && Entries(t.states, Act) == n
  {
    CompletedTraceShape(llm, v, n, t.states);
  }

  lemma LoopEndIsStopped(opts: Options, log: seq<Event>, t: Tally, llm: bool, v: nat, n: nat, r: Result)
    requires log != []
    requires if r.status.DryRunDone? then
               && opts.dryRun != Off && n == 0 && t.states == Head(llm, v) + [Complete] && WouldHaveActed(log, r)
               && r == Result(DryRunDone, t.decision, true)
             else
               && r == Result(Failed, None, false) && log[|log| - 1] == Entered(Error)
               && t.states == Head(llm, v) + Repeat(Act, n) + [Error]
    ensures Stopped(opts, log, t, llm, v, n, r) && Entries(t.states, Act) == n
  {
    StoppedTraceShape(llm, v, n, t.states);
  }

  lemma StoppedIsGivenUp(opts: Options, log: seq<Event>, t: Tally, llm: bool, v: nat, n: nat, r: Result)
    requires Stopped(opts, log, t, llm, v, n, r)
    ensures GivenUp(opts, log, t, llm, v, n, r)
  {
  }

  lemma BlockIsGivenUp(opts: Options, log: seq<Event>, t: Tally, llm: bool, r: Result)
    requires r == Result(Failed, None, false) && t.states == PREFIX[..2] + [Error]
    requires log != [] && log[|log| - 1] == Entered(Error)
    ensures GivenUp(opts, log, t, llm, 1, 0, r) && Entries(t.states, Act) == 0
  {
    BrokenOff(PREFIX[..2], llm, 1, 0);
    HeadHasNoActs(PREFIX[..2], llm, 1);
  }

  lemma IdleIsGivenUp(opts: Options, log: seq<Event>, t: Tally, llm: bool, r: Result)
    requires r == Result(Idle, None, false) && t.states == PREFIX[..5]
    requires log != [] && log[|log| - 1].Chose? && log[|log| - 1].goal.None?
    ensures GivenUp(opts, log, t, llm, 1, 0, r) && Entries(t.states, Act) == 0
  {
    HeadHasNoActs(t.states, llm, 1);
  }

  lemma StartIsUnfinished(states: seq<AgentState>, llm: bool)
    requires states != [] && states <= PREFIX
    ensures Unfinished(states, llm, 1, 0) && Entries(states, Act) == 0
  {
    PartsAreUnfinished(states, llm, 1, 0);
    HeadHasNoActs(states, llm, 1);
  }

  // ---------------------------------------------------------------- the run

  /** How a part of the run ends: with a value, with a result, or by throwing. */
  datatype Outcome<T> = Next(value: T) | Stop(result: Result) | Throw

  class CognitiveAgent {
    const opts: Options
    const world: World
    var log: seq<Event>
    var calls: nat
    ghost var tally: Tally
    ghost var trail: seq<Tally>

    ghost predicate Valid()
      reads this
    {
      Tracks(log, trail) && Sound(opts, world, log, trail) && tally == trail[|log|] && calls == tally.calls
    }

    constructor (opts: Options, world: World)
      ensures this.opts == opts && this.world == world && Valid() && log == []
    {
      this.opts := opts;
      this.world := world;
      log, calls, tally, trail := [], 0, NOTHING, [NOTHING];
    }

    // -------------------------------------------------------------- the last event

    ghost function Last(): Option<Event>
      reads this
    {
      LastOf(log, |log|)
    }

    ghost predicate JustCalled(duty: Duty)
      reads this
    {
      Last().Some? && Last().value.Called? && Last().value.duty == duty
    }

    ghost predicate JustBroke()
      reads this
    {
      Last().Some? && Last().value.Broke?
    }

    ghost predicate JustEntered(state: AgentState)
      reads this
    {
      Last() == Some(Entered(state))
    }

    ghost predicate JustValidated(d: Option<Decision>)
      reads this
    {
      Last().Some? && Last().value.Validated? && Last().value.decision == d
    }

    ghost predicate DecidesNext()
      reads this
    {
      JustCalled(Storing) || (Last().Some? && Last().value.Planned? && !(Last().value.hasSteps && opts.dryRun == Off))
    }

    ghost predicate GateIsNext()
      reads this
    {
      && tally.decision.Some?
      && ((JustEntered(ValidateOutput) && opts.dryRun == WithoutLlm)
          || (JustValidated(tally.decision) && tally.decision.value.actionType != ""))
    }

    ghost predicate May(e: Event)
      reads this
    {
      Follows(opts, tally, Last(), e)
    }

    // -------------------------------------------------------------- events

    method Note(e: Event)
      requires Valid() && Permitted(opts, world, tally, Last(), e)
      modifies this`log, this`tally, this`trail, this`calls
      ensures Valid() && log == old(log) + [e] && tally == Noted(old(tally), e)
    {
      SoundMore(opts, world, log, trail, e);
      trail := trail + [Noted(tally, e)];
      log, tally, calls := log + [e], Noted(tally, e), if IsAnswer(e) then calls + 1 else calls;
    }

    method Transition(state: AgentState)
      requires Valid() && May(Entered(state))
      modifies this`log, this`tally, this`trail, this`calls
      ensures Valid() && log == old(log) + [Entered(state)]
      ensures tally == old(tally).(states := old(tally).states + [state])
    {
      Note(Entered(state));
    }

    /** A call of which only matters whether it returns. */
    method Try(duty: Duty) returns (ok: bool)
      requires Valid() && duty !in {Screening, Choosing, Planning, Validating, Gating, Acting}
      requires May(Called(duty, calls)) && May(Broke(duty, calls))
      modifies this`log, this`tally, this`trail, this`calls
      ensures Valid() && tally == old(tally).(calls := tally.calls)
      ensures if ok then JustCalled(duty) else JustBroke()
    {
      ok := world.completes(calls);
      Note(if ok then Called(duty, calls) else Broke(duty, calls));
    }

    /** A state in which one call is made; false if it throws. */
    method Reach(state: AgentState, duty: Duty) returns (ok: bool)
      requires Valid() && May(Entered(state))
      requires (state, duty) in {(Observe, Observing), (UpdateWorld, UpdatingWorld), (UpdateSelf, Snapshotting), (QueryLlm, Prompting)}
      modifies this`log, this`tally, this`trail, this`calls
      ensures Valid() && tally == old(tally).(states := old(tally).states + [state], calls := tally.calls)
      ensures if ok then JustCalled(duty) else JustBroke()
    {
      Transition(state);
      ok := Try(duty);
    }

    // -------------------------------------------------------------- the parts of a run

    /** What the environment shows, if it is fit to be used. */
    method Perceive() returns (o: Outcome<()>)
      requires Valid() && log == []
      modifies this
      ensures Valid() && tally == NOTHING.(states := tally.states, calls := tally.calls)
      ensures match o
              case Next(_) => tally.states == PREFIX[..2] && JustCalled(Recalling)
              case Stop(r) => r == Result(Failed, None, false) && tally.states == PREFIX[..2] + [Error] && JustEntered(Error)
              case Throw => JustBroke() && (tally.states == PREFIX[..1] || tally.states == PREFIX[..2])
    {
      var ok := Reach(Observe, Observing);
      if !ok { return Throw; }
      Transition(RetrieveMemory);
      o := Screen();
    }

    /** The filter's word on what was observed, and the memories for it. */
    method Screen() returns (o: Outcome<()>)
      requires Valid() && JustEntered(RetrieveMemory)
      modifies this
      ensures Valid() && tally == old(tally).(states := tally.states, calls := tally.calls)
      ensures match o
              case Next(_) => tally.states == old(tally.states) && JustCalled(Recalling)
              case Stop(r) => r == Result(Failed, None, false) && tally.states == old(tally.states) + [Error] && JustEntered(Error)
              case Throw => JustBroke() && tally.states == old(tally.states)
    {
      var sanitized := world.flagged(calls);
      if sanitized.Threw? {
        Note(Broke(Screening, calls));
        return Throw;
      }
      Note(Screened(sanitized.value, calls));
      if sanitized.value {
        Transition(Error);
        return Stop(Result(Failed, None, false));
      }
      var ok := Try(Recalling);
      return if ok then Next(()) else Throw;
    }

    /** The choice of a goal and the plan for it. */
    method PlanGoal() returns (o: Outcome<Decision>)
      requires Valid() && tally == NOTHING.(states := PREFIX[..2], calls := tally.calls) && JustCalled(Recalling)
      modifies this
      ensures Valid()
      ensures tally == NOTHING.(states := tally.states, decision := tally.decision, plans := tally.plans, calls := tally.calls)
      ensures opts.dryRun != Off ==> tally.plans == 0
      ensures match o
              case Next(stub) => tally.states == PREFIX && tally.decision == Some(stub) && DecidesNext()
              case Stop(r) =>
                && r == Result(Idle, None, false) && tally.states == PREFIX[..5]
                && Last().Some? && Last().value.Chose? && Last().value.goal.None?
              case Throw => JustBroke() && |tally.states| >= 3 && tally.states <= PREFIX
    {
      PrefixSnoc(2);
      var ok := Reach(UpdateWorld, UpdatingWorld);
      if !ok { return Throw; }
      PrefixSnoc(3);
      ok := Reach(UpdateSelf, Snapshotting);
      if !ok { return Throw; }
      Transition(PlanGoals);
      PrefixSnoc(4);
      o := ChooseAndPlan();
    }

    /** The part of planning that starts with the goal stack. */
    method ChooseAndPlan() returns (o: Outcome<Decision>)
      requires Valid() && tally == NOTHING.(states := PREFIX[..5], calls := tally.calls) && JustEntered(PlanGoals)
      modifies this
      ensures Valid()
      ensures tally == NOTHING.(states := tally.states, decision := tally.decision, plans := tally.plans, calls := tally.calls)
      ensures opts.dryRun != Off ==> tally.plans == 0
      ensures match o
              case Next(stub) => tally.states == PREFIX && tally.decision == Some(stub) && DecidesNext()
              case Stop(r) =>
                && r == Result(Idle, None, false) && tally.states == PREFIX[..5]
                && Last().Some? && Last().value.Chose? && Last().value.goal.None?
              case Throw => JustBroke() && |tally.states| >= 3 && tally.states <= PREFIX
    {
      var goal := world.nextGoal(calls);
      if goal.Threw? {
        Note(Broke(Choosing, calls));
        return Throw;
      }
      Note(Chose(goal.value, calls));
      if goal.value.None? {
        return Stop(Result(Idle, None, false));
      }
      Transition(Simulate);
      PrefixSnoc(5);
      var planned := MakePlan();
      return if planned then Next(goal.value.value) else Throw;
    }

    /** The plan, which is remembered unless this is a dry run; false if something throws. */
    method MakePlan() returns (ok: bool)
      requires Valid() && JustEntered(Simulate) && tally.plans == 0
      modifies this
      ensures Valid() && tally == old(tally).(plans := tally.plans, calls := tally.calls)
      ensures opts.dryRun != Off ==> tally.plans == 0
      ensures if ok then DecidesNext() else JustBroke()
    {
      var plan := world.planHasSteps(calls);
      if plan.Threw? {
        Note(Broke(Planning, calls));
        return false;
      }
      Note(Planned(plan.value, calls));
      if plan.value && opts.dryRun == Off {
        Note(AddedProcedural);
        ok := Try(Storing);
        return;
      }
      return true;
    }

    /** One attempt to get a decision; None if the answer is not valid. */
    method AskModel(ghost base: seq<AgentState>, ghost attempt: nat) returns (reply: Reply<Option<Decision>>)
      requires Valid() && tally.states == base + Repeat(ValidateOutput, attempt)
      requires May(Generated) && opts.dryRun != WithoutLlm && tally.acts == []
      modifies this
      ensures Valid()
      ensures tally == old(tally).(states := tally.states, decision := tally.decision, generates := old(tally).generates + 1, calls := tally.calls)
      ensures tally.states == base + Repeat(ValidateOutput, attempt + 1) || (reply.Threw? && tally.states == old(tally).states)
      ensures reply.Got? ==> JustValidated(reply.value) && tally.decision == Newest(old(tally).decision, reply.value)
      ensures reply.Got? ==> exists n :: world.validated(n) == reply
      ensures reply.Threw? ==> JustBroke()
    {
      Note(Generated);
      var ok := Try(Generating);
      if !ok { return Threw; }
      RepeatSnoc(base, ValidateOutput, attempt);
      Transition(ValidateOutput);
      reply := Validate();
    }

    /** The validator's word on the model's answer. */
    method Validate() returns (reply: Reply<Option<Decision>>)
      requires Valid() && May(Validated(None, calls)) && May(Broke(Validating, calls))
      requires JustCalled(Generating) || JustEntered(ValidateOutput)
      modifies this
      ensures Valid() && tally == old(tally).(decision := tally.decision, calls := tally.calls)
      ensures reply.Got? ==> JustValidated(reply.value) && tally.decision == Newest(old(tally).decision, reply.value)
      ensures reply.Got? ==> exists n :: world.validated(n) == reply
      ensures reply.Threw? ==> JustBroke() && tally.decision == old(tally).decision
    {
      reply := world.validated(calls);
      if reply.Threw? {
        Note(Broke(Validating, calls));
      } else {
        Note(Validated(reply.value, calls));
      }
    }

    /** The model's first valid answer of at most two. */
    method AskTwice() returns (o: Outcome<Decision>, ghost validations: nat)
      requires Valid() && tally.generates == 0 && tally.acts == [] && JustCalled(Prompting) && opts.dryRun != WithoutLlm
      modifies this
      ensures Valid()
      ensures tally == old(tally).(states := tally.states, decision := tally.decision, generates := tally.generates, calls := tally.calls)
      ensures 1 <= validations <= 2 && tally.generates <= 2
      ensures o.Next? ==> o.value.actionType != "" && tally.generates == validations && exists n :: world.validated(n) == Got(Some(o.value))
      ensures match o
              case Next(d) =>
                && tally.states == old(tally).states + Repeat(ValidateOutput, validations)
                && tally.decision == Some(d) && JustValidated(Some(d))
              case Stop(r) =>
                && r == Result(Failed, None, false) && JustEntered(Error)
                && tally.states == old(tally).states + Repeat(ValidateOutput, validations) + [Error]
              case Throw =>
                JustBroke() && exists k: nat :: k <= validations && tally.states == old(tally).states + Repeat(ValidateOutput, k)
    {
      validations := 1;
      ghost var base := tally.states;
      assert base + Repeat(ValidateOutput, 0) == base;
      var decision: Option<Decision> := None;
      for attempt := 0 to 2
        invariant Valid()
        invariant tally == old(tally).(states := base + Repeat(ValidateOutput, attempt), decision := tally.decision, generates := attempt, calls := tally.calls)
        invariant decision.None? && validations == (if attempt == 0 then 1 else attempt)
        invariant attempt < 2 && May(Generated)
      {
        var validated := AskModel(base, attempt);
        validations := attempt + 1;
        if validated.Threw? { return Throw, validations; }
        decision := validated.value;
        if decision.Some? {
          break;
        }
        if attempt == 1 {
          Transition(Error);
          return Stop(Result(Failed, None, false)), validations;
        }
      }
      if decision.None? || decision.value.actionType == "" {
        Transition(Error);
        return Stop(Result(Failed, None, false)), validations;
      }
      return Next(decision.value), validations;
    }

    /** The first decision: a stub without the model, or the model's first valid answer of at most two. */
    method Decide(stub: Decision) returns (o: Outcome<Decision>, ghost validations: nat)
      requires Valid() && tally.states == PREFIX && tally.generates == 0
      requires tally.acts == [] && tally.decision == Some(stub) && DecidesNext()
      modifies this
      ensures Valid()
      ensures tally == old(tally).(states := tally.states, decision := tally.decision, generates := tally.generates, calls := tally.calls)
      ensures 1 <= validations <= 2 && tally.generates <= 2
      ensures opts.dryRun == WithoutLlm ==> o == Next(stub) && tally.generates == 0
      ensures opts.dryRun != WithoutLlm && o.Next? ==>
                o.value.actionType != "" && tally.generates == validations && exists n :: world.validated(n) == Got(Some(o.value))
      ensures match o
              case Next(d) =>
                tally.states == Head(opts.dryRun != WithoutLlm, validations) && tally.decision == Some(d) && GateIsNext()
              case Stop(r) =>
                && r == Result(Failed, None, false) && JustEntered(Error)
                && tally.states == Head(opts.dryRun != WithoutLlm, validations) + [Error]
              case Throw => JustBroke() && tally.states != [] && tally.states <= Head(opts.dryRun != WithoutLlm, validations)
    {
      validations := 1;
      if opts.dryRun == WithoutLlm {
        Transition(ValidateOutput);
        return Next(stub), 1;
      }
      var ok := Reach(QueryLlm, Prompting);
      if !ok { return Throw, 1; }
      o, validations := AskTwice();
      if o.Throw? {
        AttemptsArePartOfHead(tally.states, validations);
      }
    }

    /** Do what the gate has just approved; Threw if the environment or the world model does. */
    method Perform(action: Action) returns (reply: Reply<bool>)
      requires Valid() && Last().Some? && GateApproved(Last().value, action) && action.kind != "complete_run"
      requires opts.dryRun == Off && tally.decision.Some? && tally.decision.value.AsAction() == action
      modifies this
      ensures Valid()
      ensures tally == old(tally).(states := old(tally).states + [Act], acts := old(tally).acts + [action], results := tally.results, calls := tally.calls)
      ensures match reply
              case Got(success) => tally.results == old(tally).results + [success] && JustCalled(Reflecting)
              case Threw => JustBroke()
    {
      Transition(Act);
      Note(Acted(action));
      reply := world.acted(calls);
      if reply.Threw? {
        Note(Broke(Acting, calls));
        return;
      }
      Note(Resulted(reply.value, calls));
      var ok := Try(Reflecting);
      if !ok { return Threw; }
    }

    /** Ask the model for the next action; None if the answer is of no use. */
    method Continue() returns (reply: Reply<Option<Decision>>)
      requires Valid() && JustCalled(Reflecting) && 0 < |tally.acts| < opts.MaxSteps()
      modifies this
      ensures Valid() && tally == old(tally).(decision := tally.decision, generates := tally.generates, calls := tally.calls)
      ensures old(tally.generates) <= tally.generates <= old(tally.generates) + 1
      ensures reply.Got? ==> tally.generates == old(tally.generates) + 1
      ensures match reply
              case Got(Some(d)) => tally.decision == Some(d) && JustValidated(Some(d)) && d.actionType != ""
              case Got(None) => tally.decision == old(tally).decision && May(Entered(StoreResults))
              case Threw => JustBroke()
    {
      var ok := Try(Hinting);
      if !ok { return Threw; }
      Note(Generated);
      ok := Try(Generating);
      if !ok { return Threw; }
      reply := Validate();
      if reply.Got? && reply.value.Some? && reply.value.value.actionType == "" {
        return Got(None);
      }
    }

    /** The gate's word on the next action: true if it is to be done, false if the run is complete. */
    method Gate(last: Decision) returns (o: Outcome<bool>)
      requires Valid() && GateIsNext() && tally.decision == Some(last)
      modifies this
      ensures Valid() && tally == old(tally).(states := tally.states, calls := tally.calls)
      ensures match o
              case Next(go) =>
                && tally.states == old(tally.states)
                && Last().Some? && GateApproved(Last().value, last.AsAction())
                && (go ==> opts.dryRun == Off && last.AsAction().kind != "complete_run")
                && (!go ==> last.AsAction().kind == "complete_run")
              case Stop(r) =>
                if r.status.DryRunDone? then
                  && opts.dryRun != Off && tally.states == old(tally.states) + [Complete] && WouldHaveActed(log, r)
                  && r == Result(DryRunDone, Some(last), true)
                else
                  r == Result(Failed, None, false) && tally.states == old(tally.states) + [Error] && JustEntered(Error)
              case Throw => JustBroke() && tally.states == old(tally.states)
    {
      var action := last.AsAction();
      var permission := world.allowed(calls);
      if permission.Threw? {
        Note(Broke(Gating, calls));
        return Throw;
      }
      Note(Gated(action, permission.value, calls));
      if !permission.value {
        Transition(Error);
        return Stop(Result(Failed, None, false));
      }
      if action.kind == "complete_run" {
        return Next(false);
      }
      if opts.dryRun != Off {
        Transition(Complete);
        return Stop(Result(DryRunDone, Some(last), true));
      }
      return Next(true);
    }

    /** Act until the steps are used up, the model says it is done or gives no usable answer.
        history has the actions taken, with their success. */
    method ActLoop(first: Decision, ghost base: seq<AgentState>) returns (o: Outcome<Decision>, history: seq<(Action, bool)>, ghost acts: nat)
      requires Valid() && tally.states == base && GateIsNext() && tally.decision == Some(first)
      requires tally.acts == [] && tally.results == [] && tally.generates <= 2
      modifies this
      ensures Valid()
      ensures tally == old(tally).(states := tally.states, decision := tally.decision, generates := tally.generates,
                                   acts := tally.acts, results := tally.results, calls := tally.calls)
      ensures |tally.acts| == acts <= opts.MaxSteps() && (opts.dryRun != Off ==> acts == 0)
      ensures tally.generates < old(tally.generates) + opts.MaxSteps()
      ensures match o
              case Next(last) =>
                && tally.states == base + Repeat(Act, acts)
                && ActionsOf(history) == tally.acts && SuccessesOf(history) == tally.results
                && tally.decision == Some(last) && May(Entered(StoreResults))
                && (opts.dryRun != Off ==> last.actionType == "complete_run")
              case Stop(r) =>
                if r.status.DryRunDone? then
                  && opts.dryRun != Off && tally.states == base + [Complete] && WouldHaveActed(log, r)
                  && r == Result(DryRunDone, tally.decision, true)
                else
                  && r == Result(Failed, None, false) && JustEntered(Error)
                  && tally.states == base + Repeat(Act, acts) + [Error]
              case Throw => JustBroke() && tally.states == base + Repeat(Act, acts)
    {
      var last := first;
      history, acts := [], 0;
      assert base + Repeat(Act, 0) == base;
      for step := 0 to opts.MaxSteps()
        invariant Valid() && acts == step == |history| && step < opts.MaxSteps()
        invariant tally == old(tally).(states := base + Repeat(Act, step), decision := Some(last), generates := old(tally).generates + step,
                                       acts := ActionsOf(history), results := SuccessesOf(history), calls := tally.calls)
        invariant GateIsNext()
        invariant opts.dryRun != Off ==> step == 0
      {
        var action := last.AsAction();
        var gated := Gate(last);
        if gated.Throw? { return Throw, history, acts; }
        if gated.Stop? { return Stop(gated.result), history, acts; }
        if !gated.value {
          break;
        }
        RepeatSnoc(base, Act, step);
        var result := Perform(action);
        acts := acts + 1;
        if result.Threw? { return Throw, history, acts; }
        ActionsSnoc(history, (action, result.value));
        history := history + [(action, result.value)];
        if step + 1 >= opts.MaxSteps() {
          break;
        }
        var next := Continue();
        if next.Threw? { return Throw, history, acts; }
        if next.value.None? {
          break;
        }
        last := next.value.value;
      }
      return Next(last), history, acts;
    }

    /** Write one episodic memory per act; false if a write throws. */
    method Remember(history: seq<(Action, bool)>) returns (ok: bool)
      requires Valid() && tally.episodes == [] && JustEntered(StoreResults)
      requires ActionsOf(history) == tally.acts && SuccessesOf(history) == tally.results
      modifies this
      ensures Valid() && tally == old(tally).(episodes := tally.episodes, calls := tally.calls)
      ensures tally.episodes <= history && (ok ==> tally.episodes == history)
      ensures if ok then May(Entered(Learn)) else JustBroke()
    {
      for i := 0 to |history|
        invariant Valid() && tally == old(tally).(episodes := history[..i], calls := tally.calls)
        invariant JustEntered(StoreResults) || JustCalled(Remembering)
      {
        HistoryAt(history, i);
        Note(AddedEpisodic(history[i].0, history[i].1));
        assert tally.episodes == history[..i + 1];
        var stored := Try(Remembering);
        if !stored { return false; }
      }
      return true;
    }

    /** The states around the memories. */
    method StoreAll(history: seq<(Action, bool)>) returns (ok: bool)
      requires Valid() && tally.episodes == [] && May(Entered(StoreResults))
      requires ActionsOf(history) == tally.acts && SuccessesOf(history) == tally.results
      modifies this
      ensures Valid() && tally == old(tally).(states := tally.states, episodes := tally.episodes, calls := tally.calls)
      ensures tally.episodes <= history && (ok ==> tally.episodes == history)
      ensures if ok then tally.states == old(tally.states) + [StoreResults] + [Learn] && JustEntered(Learn)
              else tally.states == old(tally.states) + [StoreResults] && JustBroke()
    {
      Transition(StoreResults);
      ok := Remember(history);
      if ok {
        Transition(Learn);
      }
    }

    /** Learn from the last act; false if something throws. */
    method LearnFrom(last: Decision, success: bool) returns (ok: bool)
      requires Valid() && JustEntered(Learn) && tally.decision == Some(last)
      requires success == (tally.results == [] || tally.results[|tally.results| - 1])
      modifies this
      ensures Valid() && tally == old(tally).(states := tally.states, outcomes := old(tally).outcomes + [success], calls := tally.calls)
      ensures if ok then
                tally.states == old(tally.states) + [Complete] && EndsWith(opts, log, tally, Result(Completed, Some(last), success))
              else tally.states == old(tally.states) && JustBroke()
    {
      Note(RecordedOutcome(success));
      ok := Try(Concluding);
      if ok {
        Transition(Complete);
      }
    }

    /** Remember all acts, and learn from the last one. */
    method Conclude(last: Decision, history: seq<(Action, bool)>) returns (o: Outcome<Result>)
      requires Valid() && tally.episodes == [] && tally.outcomes == []
      requires ActionsOf(history) == tally.acts && SuccessesOf(history) == tally.results
      requires tally.decision == Some(last) && May(Entered(StoreResults))
      modifies this
      ensures Valid()
      ensures tally == old(tally).(states := tally.states, episodes := tally.episodes, outcomes := tally.outcomes, calls := tally.calls)
      ensures tally.episodes <= history
      ensures match o
              case Next(r) =>
                && r == Result(Completed, Some(last), history == [] || history[|history| - 1].1)
                && tally.states == old(tally).states + [StoreResults, Learn, Complete]
                && tally.episodes == history && tally.outcomes == [r.success]
                && EndsWith(opts, log, tally, r)
              case Stop(_) => false
              case Throw =>
                && JustBroke()
                && (tally.states == old(tally).states + [StoreResults] || tally.states == old(tally).states + [StoreResults, Learn])
    {
      var success := if history == [] then true else history[|history| - 1].1;
      ghost var states := tally.states;
      if history != [] {
        HistoryAt(history, |history| - 1);
      }
      var stored := StoreAll(history);
      if !stored { return Throw; }
      ThreeMore(states);
      var learned := LearnFrom(last, success);
      if !learned { return Throw; }
      return Next(Result(Completed, Some(last), success));
    }

    /** Act and conclude. */
    method Carry(first: Decision, ghost llm: bool, ghost v: nat) returns (o: Outcome<Result>, ghost n: nat)
      requires Valid() && tally.states == Head(llm, v) && GateIsNext() && tally.decision == Some(first)
      requires tally.acts == [] && tally.results == [] && tally.episodes == [] && tally.outcomes == [] && tally.generates <= 2
      modifies this
      ensures Valid() && tally.plans == old(tally.plans)
      ensures n == |tally.acts| <= opts.MaxSteps() && Entries(tally.states, Act) == n
      ensures tally.generates < old(tally.generates) + opts.MaxSteps()
      ensures opts.dryRun != Off ==> tally.acts == [] && tally.episodes == []
      ensures match o
              case Next(r) => Finished(opts, log, tally, llm, v, n, r)
              case Stop(r) => Stopped(opts, log, tally, llm, v, n, r)
              case Throw => JustBroke() && Unfinished(tally.states, llm, v, n)
    {
      ghost var base := tally.states;
      var looped, history, acts := ActLoop(first, base);
      match looped {
        case Stop(r) =>
          LoopEndIsStopped(opts, log, tally, llm, v, acts, r);
          return Stop(r), acts;
        case Throw =>
          ThrownTraceShape(llm, v, acts, tally.states);
          return Throw, acts;
        case Next(_) =>
      }
      var concluded := Conclude(looped.value, history);
      if concluded.Next? {
        CompletedIsFinished(opts, log, tally, llm, v, acts, concluded.value);
      } else {
        ThrownTraceShape(llm, v, acts, tally.states);
      }
      return concluded, acts;
    }

    /** Decide, act and conclude. */
    method Pursue(stub: Decision) returns (o: Outcome<Result>, ghost v: nat, ghost n: nat)
      requires Valid() && tally == NOTHING.(states := PREFIX, decision := Some(stub), plans := tally.plans, calls := tally.calls)
      requires DecidesNext()
      modifies this
      ensures Valid() && tally.plans == old(tally.plans)
      ensures 1 <= v <= 2 && n == |tally.acts| <= opts.MaxSteps() && Entries(tally.states, Act) == n
      ensures tally.generates <= opts.MaxSteps() + 1
      ensures opts.dryRun != Off ==> tally.acts == [] && tally.episodes == []
      ensures match o
              case Next(r) => Finished(opts, log, tally, opts.dryRun != WithoutLlm, v, n, r)
              case Stop(r) => Stopped(opts, log, tally, opts.dryRun != WithoutLlm, v, n, r)
              case Throw => JustBroke() && Unfinished(tally.states, opts.dryRun != WithoutLlm, v, n)
    {
      ghost var llm := opts.dryRun != WithoutLlm;
      var decided, validations := Decide(stub);
      v, n := validations, 0;
      match decided {
        case Stop(r) =>
          BrokenOff(Head(llm, v), llm, v, 0);
          HeadHasNoActs(Head(llm, v), llm, v);
          return Stop(r), v, 0;
        case Throw =>
          PartsAreUnfinished(tally.states, llm, v, 0);
          HeadHasNoActs(tally.states, llm, v);
          return Throw, v, 0;
        case Next(_) =>
      }
      o, n := Carry(decided.value, llm, v);
    }

    /** The part of the run that errors are caught from. */
    method Attempt() returns (o: Outcome<Result>, ghost v: nat, ghost n: nat)
      requires Valid() && log == []
      modifies this
      ensures Valid()
      ensures 1 <= v <= 2 && n == |tally.acts| <= opts.MaxSteps()
      ensures Entries(tally.states, Act) == n
      ensures tally.generates <= opts.MaxSteps() + 1
      ensures opts.dryRun != Off ==> tally.acts == [] && tally.plans == 0 && tally.episodes == []
      ensures match o
              case Next(r) => Finished(opts, log, tally, opts.dryRun != WithoutLlm, v, n, r)
              case Stop(r) => GivenUp(opts, log, tally, opts.dryRun != WithoutLlm, v, n, r)
              case Throw => JustBroke() && Unfinished(tally.states, opts.dryRun != WithoutLlm, v, n)
    {
      ghost var llm := opts.dryRun != WithoutLlm;
      var perceived := Perceive();
      match perceived {
        case Stop(r) =>
          BlockIsGivenUp(opts, log, tally, llm, r);
          return Stop(r), 1, 0;
        case Throw =>
          StartIsUnfinished(tally.states, llm);
          return Throw, 1, 0;
        case Next(_) =>
      }
      var planned := PlanGoal();
      match planned {
        case Stop(r) =>
          IdleIsGivenUp(opts, log, tally, llm, r);
          return Stop(r), 1, 0;
        case Throw =>
          StartIsUnfinished(tally.states, llm);
          return Throw, 1, 0;
        case Next(_) =>
      }
      o, v, n := Pursue(planned.value);
      if o.Stop? {
        StoppedIsGivenUp(opts, log, tally, llm, v, n, o.result);
      }
    }

    /** The whole run: it obeys the rules to its end. v and n tell which spine the trace follows: every
        act is one the gate has just approved, there are as many act states as acts, and a completed run
        has remembered each act. */
    method RunOnce() returns (result: Result, ghost v: nat, ghost n: nat)
      requires Valid() && log == []
      modifies this
      ensures Valid()
      ensures Obeys(opts, world, log) && EndsWith(opts, log, Count(log), result)
      ensures Approved(log)
      ensures InLanguage(result.status, Count(log).states, opts.dryRun != WithoutLlm, v, n)
      ensures 1 <= v <= 2 && n == |Count(log).acts| == Entries(Count(log).states, Act) <= opts.MaxSteps()
      ensures Count(log).generates <= opts.MaxSteps() + 1
      ensures opts.dryRun != Off ==> Count(log).acts == [] && Count(log).plans == 0 && Count(log).episodes == []
      ensures result.status.DryRunDone? ==> opts.dryRun != Off && WouldHaveActed(log, result)
      ensures result.status.Completed? ==>
                && ActionsOf(Count(log).episodes) == Count(log).acts
                && SuccessesOf(Count(log).episodes) == Count(log).results
                && Count(log).outcomes == [result.success]
                && result.success == (Count(log).acts == [] || Count(log).episodes[|Count(log).episodes| - 1].1)
      ensures result.status.Completed? && opts.dryRun != Off ==>
                result.decision.Some? && result.decision.value.actionType == "complete_run"
    {
      var o: Outcome<Result>;
      o, v, n := Attempt();
      match o {
        case Next(r) => result := r;
        case Stop(r) => result := r;
        case Throw =>
          ghost var trace := tally.states;
          Transition(Error);
          assert tally.states[..|trace|] == trace;
          result := Result(Failed, None, false);
      }
      SoundObeys(opts, world, log, trail);
      ObeyingIsApproved(opts, world, log);
    }
  }

  lemma PrefixSnoc(k: nat)
    requires k < |PREFIX|
    ensures PREFIX[..k] + [PREFIX[k]] == PREFIX[..k + 1]
  {
  }

  lemma AttemptsArePartOfHead(states: seq<AgentState>, v: nat)
    requires exists k: nat :: k <= v && states == PREFIX + [QueryLlm] + Repeat(ValidateOutput, k)
    ensures states != [] && states <= Head(true, v)
  {
    var k: nat :| k <= v && states == PREFIX + [QueryLlm] + Repeat(ValidateOutput, k);
    assert Repeat(ValidateOutput, k) <= Repeat(ValidateOutput, v);
  }

  lemma ThreeMore(states: seq<AgentState>)
    ensures states + [StoreResults] + [Learn] == states + [StoreResults, Learn]
    ensures states + [StoreResults] + [Learn] + [Complete] == states + [StoreResults, Learn, Complete]
  {
  }

  lemma RepeatSnoc(base: seq<AgentState>, state: AgentState, n: nat)
    ensures base + Repeat(state, n) + [state] == base + Repeat(state, n + 1)
  {
  }

  lemma ActionsSnoc(history: seq<(Action, bool)>, h: (Action, bool))
    ensures ActionsOf(history + [h]) == ActionsOf(history) + [h.0]
    ensures SuccessesOf(history + [h]) == SuccessesOf(history) + [h.1]
  {
    assert (history + [h])[..|history|] == history;
  }

  lemma PartsAreUnfinished(trace: seq<AgentState>, llm: bool, v: nat, n: nat)
    requires trace != []
    requires
      || trace <= PREFIX || trace <= Head(llm, v) || trace <= Head(llm, v) + Repeat(Act, n)
      || trace <= Head(llm, v) + Repeat(Act, n) + [StoreResults, Learn]
    ensures Unfinished(trace, llm, v, n)
  {
    assert PREFIX <= Head(llm, v) <= Head(llm, v) + Repeat(Act, n) <= Head(llm, v) + Repeat(Act, n) + [StoreResults, Learn];
  }

  lemma BrokenOff(trace: seq<AgentState>, llm: bool, v: nat, n: nat)
    requires trace != [] && (trace <= PREFIX || trace <= Head(llm, v) || trace <= Head(llm, v) + Repeat(Act, n))
    ensures BreaksOff(trace + [Error], llm, v, n)
  {
    PartsAreUnfinished(trace, llm, v, n);
    assert (trace + [Error])[..|trace|] == trace;
  }

  function Entries(trace: seq<AgentState>, state: AgentState): nat {
    if trace == [] then 0
    else Entries(trace[..|trace| - 1], state) + if trace[|trace| - 1] == state then 1 else 0
  }

  lemma {:induction false} EntriesAppend(a: seq<AgentState>, b: seq<AgentState>, state: AgentState)
    ensures Entries(a + b, state) == Entries(a, state) + Entries(b, state)
  {
    if b == [] {
      assert a + b == a;
    } else {
      assert (a + b)[..|a + b| - 1] == a + b[..|b| - 1];
      EntriesAppend(a, b[..|b| - 1], state);
    }
  }

  lemma {:induction false} NoEntries(trace: seq<AgentState>, state: AgentState)
    requires state !in trace
    ensures Entries(trace, state) == 0
  {
    if trace != [] {
      NoEntries(trace[..|trace| - 1], state);
    }
  }

  lemma {:induction false} EntriesOfRepeat(state: AgentState, n: nat)
    ensures Entries(Repeat(state, n), state) == n
  {
    if n > 0 {
      assert Repeat(state, n)[..n - 1] == Repeat(state, n - 1);
      EntriesOfRepeat(state, n - 1);
    }
  }

  lemma HeadHasNoActs(trace: seq<AgentState>, llm: bool, v: nat)
    requires trace <= PREFIX || trace <= Head(llm, v)
    ensures Entries(trace, Act) == 0 && Entries(trace + [Error], Act) == 0
  {
    assert PREFIX <= Head(llm, v);
    forall i | 0 <= i < |trace|
      ensures trace[i] != Act
    {
      assert trace[i] == Head(llm, v)[i];
    }
    NoEntries(trace, Act);
    NoEntries(trace + [Error], Act);
  }

  lemma SpineActs(llm: bool, v: nat, n: nat, tail: seq<AgentState>)
    requires Act !in tail
    ensures Entries(Head(llm, v) + Repeat(Act, n) + tail, Act) == n
  {
    HeadHasNoActs(Head(llm, v), llm, v);
    EntriesOfRepeat(Act, n);
    NoEntries(tail, Act);
    EntriesAppend(Head(llm, v), Repeat(Act, n), Act);
    EntriesAppend(Head(llm, v) + Repeat(Act, n), tail, Act);
  }

  /** What a trace with n acts and the given tail amounts to. */
  lemma TraceShape(llm: bool, v: nat, n: nat, tail: seq<AgentState>)
    requires Act !in tail
    ensures
      var trace := Head(llm, v) + Repeat(Act, n) + tail;
      && Entries(trace, Act) == n
      && (tail <= [StoreResults, Learn] ==> Unfinished(trace, llm, v, n))
      && (tail == [Error] ==> BreaksOff(trace, llm, v, n))
      && (tail == [StoreResults, Learn, Complete] ==> trace == Spine(llm, v, n))
  {
    SpineActs(llm, v, n, tail);
    var acting := Head(llm, v) + Repeat(Act, n);
    if tail <= [StoreResults, Learn] {
      PartsAreUnfinished(acting + tail, llm, v, n);
    }
    if tail == [Error] {
      BrokenOff(acting, llm, v, n);
    }
  }

  lemma ThrownTraceShape(llm: bool, v: nat, n: nat, trace: seq<AgentState>)
    requires
      var acting := Head(llm, v) + Repeat(Act, n);
      trace == acting || trace == acting + [StoreResults] || trace == acting + [StoreResults] + [Learn]
      || trace == acting + [StoreResults, Learn]
    ensures Entries(trace, Act) == n && Unfinished(trace, llm, v, n)
  {
    var acting := Head(llm, v) + Repeat(Act, n);
    assert acting + [] == acting && acting + [StoreResults] + [Learn] == acting + [StoreResults, Learn];
    TraceShape(llm, v, n, []);
    TraceShape(llm, v, n, [StoreResults]);
    TraceShape(llm, v, n, [StoreResults, Learn]);
  }

  lemma StoppedTraceShape(llm: bool, v: nat, n: nat, trace: seq<AgentState>)
    requires trace == Head(llm, v) + Repeat(Act, n) + [Error] || (n == 0 && trace == Head(llm, v) + [Complete])
    ensures Entries(trace, Act) == n
    ensures trace == Head(llm, v) + Repeat(Act, n) + [Error] ==> BreaksOff(trace, llm, v, n)
  {
    assert Head(llm, v) + Repeat(Act, 0) == Head(llm, v);
    TraceShape(llm, v, n, [Error]);
    TraceShape(llm, v, n, [Complete]);
  }

  lemma CompletedTraceShape(llm: bool, v: nat, n: nat, trace: seq<AgentState>)
    requires trace == Head(llm, v) + Repeat(Act, n) + [StoreResults, Learn, Complete]
    ensures Entries(trace, Act) == n && trace == Spine(llm, v, n)
  {
    TraceShape(llm, v, n, [StoreResults, Learn, Complete]);
  }

  /** In every trace of the language complete and error come last, if at all, and acts stand together. */
  lemma EndsOnlyOnce(status: Status, trace: seq<AgentState>, llm: bool, v: nat, n: nat)
    requires InLanguage(status, trace, llm, v, n)
    ensures forall i :: 0 <= i < |trace| - 1 ==> trace[i] != Complete && trace[i] != Error
    ensures trace != [] && (trace[|trace| - 1] == Error <==> status.Failed?)
    ensures trace[|trace| - 1] == Complete <==> status.Completed? || status.DryRunDone?
    ensures forall i, j :: 0 <= i <= j < |trace| && trace[i] == Act && trace[j] == Act ==> forall k :: i <= k <= j ==> trace[k] == Act
  {
    var spine, h := Head(llm, v) + Repeat(Act, n) + [StoreResults, Learn], |Head(llm, v)|;
    assert forall i :: 0 <= i < h ==> Head(llm, v)[i] != Act && Head(llm, v)[i] != Complete && Head(llm, v)[i] != Error;
    assert forall i :: 0 <= i < |spine| ==> (spine[i] == Act <==> h <= i < h + n) && spine[i] != Complete && spine[i] != Error;
    match status
    case Idle => assert trace <= spine;
    case Completed => assert trace == spine + [Complete];
    case DryRunDone => assert trace[..|trace| - 1] <= spine;
    case Failed =>
  }

  function ActionsOf(history: seq<(Action, bool)>): (r: seq<Action>)
    ensures |r| == |history|
  {
    if history == [] then [] else ActionsOf(history[..|history| - 1]) + [history[|history| - 1].0]
  }

  function SuccessesOf(history: seq<(Action, bool)>): (r: seq<bool>)
    ensures |r| == |history|
  {
    if history == [] then [] else SuccessesOf(history[..|history| - 1]) + [history[|history| - 1].1]
  }

  lemma {:induction false} HistoryAt(history: seq<(Action, bool)>, i: nat)
    requires i < |history|
    ensures ActionsOf(history)[i] == history[i].0 && SuccessesOf(history)[i] == history[i].1
  {
    if i < |history| - 1 {
      HistoryAt(history[..|history| - 1], i);
    }
  }
}
