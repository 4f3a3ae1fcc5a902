/**
  One delivery of a runtime permit (src/apexcrew/application/runtime.py, lines 522-783, and the validator of
  RunStop in src/apexcrew/domain/commands.py, lines 354-379). The store, the authority and the drivers are
  ports that reply anything or raise; the trace records every call.
*/
module PhaseLoop {
  import opened Wrappers
  import opened Sequences

  datatype RunState =
    | Draft | Planning | AwaitingPlanApproval | ReadyToStart | Active | VerifyingRun | ReadyForApproval
    | Applying | Paused | Indeterminate | Completed | Failed | Cancelled

  datatype StopReason =
    | AWAITING_PLAN_APPROVAL | AWAITING_ACTION_APPROVAL | AWAITING_FINAL_APPROVAL | PAUSED | INTERRUPTED
    | BUDGET_STOP | INDETERMINATE | TERMINAL | NO_RUNTIME_PERMIT | ALREADY_RUNNING

  /** The phases a permit can be given for. */
  datatype AllowedPhase =
    | ForDraft | ForPlanning | ForReadyToStart | ForActive | ForPaused | ForIndeterminate | ForReadyForApproval
    | ForTerminalAdministration

  datatype FaultPhase =
    | PERMIT_CONSUMPTION | TARGET_RESERVATION | RECOVERED_ACTION | GRANTED_ACTION_RECOVERY | EFFECT_RECOVERY
    | MODEL_RECOVERY | PLANNING | WORKER_SCHEDULING | POST_BARRIER | PHASE_DRIVER

  datatype Driver =
    | InitializeTargetReservation | RunPlanningTurn | InitializePrivateRef | Schedule | ResumeResolution
      | IntegrateCandidate

  datatype Code = CONTINUE | STOP | MALFORMED_ACTION | ACTION_RECORDED | DENIED

  datatype Transition = TargetReservationInitialized | PrivateRefInitialized

  /** The reason a decision states: none, a known one, or any other text. */
  datatype Stated = Nothing | Other | Known(reason: StopReason)

  datatype Decision = Decision(code: Code, stated: Stated, sequenced: bool, transition: Option<Transition>)

  datatype Permit = Permit(allowed: AllowedPhase, owned: bool)

  // ---------- Decisions and stops ----------

  predicate GoesOn(d: Decision) { d.code in {CONTINUE, MALFORMED_ACTION, ACTION_RECORDED} }

  predicate Awaiting(r: StopReason) { r in {AWAITING_PLAN_APPROVAL, AWAITING_ACTION_APPROVAL, AWAITING_FINAL_APPROVAL} }

  function StopReasonFor(stated: Stated): StopReason {
    match stated
    case Nothing => PAUSED
    case Other => PAUSED
    case Known(r) => if Awaiting(r) || r in {BUDGET_STOP, INDETERMINATE, TERMINAL} then r else PAUSED
  }

  datatype Stop = Stop(state: RunState, reason: StopReason, pending: bool)

  /** The validator of a stop: a pending subject exactly for the awaiting reasons, each in its own state. */
  predicate ValidStop(stop: Stop) {
    match stop.reason
    case AWAITING_PLAN_APPROVAL => stop.state == AwaitingPlanApproval && stop.pending
    case AWAITING_ACTION_APPROVAL => stop.state == Active && stop.pending
    case AWAITING_FINAL_APPROVAL => stop.state == ReadyForApproval && stop.pending
    case _ => !stop.pending
  }

  /** `_stop_for_state` never names a pending subject; an invalid stop raises. */
  function StopForState(state: RunState, reason: StopReason): Option<Stop> {
    var stop := Stop(state, reason, false);
    if ValidStop(stop) then Some(stop) else None
  }

  /** So it raises exactly for the awaiting reasons, whatever the state is. */
  lemma {:induction false} AwaitingStopsCannotBeBuilt(state: RunState, reason: StopReason)
    ensures StopForState(state, reason) == None <==> Awaiting(reason)
  {}

  // ---------- Phases ----------

  function PhaseState(p: AllowedPhase): Option<RunState> {
    match p
    case ForDraft => Some(Draft)
    case ForPlanning => Some(Planning)
    case ForReadyToStart => Some(ReadyToStart)
    case ForActive => Some(Active)
    case ForPaused => Some(Paused)
    case ForIndeterminate => Some(Indeterminate)
    case ForReadyForApproval => Some(ReadyForApproval)
    case ForTerminalAdministration => None
  }

  function DriverFor(s: RunState): Option<Driver> {
    match s
    case Draft => Some(InitializeTargetReservation)
    case Planning => Some(RunPlanningTurn)
    case ReadyToStart => Some(InitializePrivateRef)
    case Active => Some(Schedule)
    case Paused => Some(Schedule)
    case Indeterminate => Some(ResumeResolution)
    case ReadyForApproval => Some(IntegrateCandidate)
    case _ => None
  }

  function PhaseOfDriver(d: Driver): FaultPhase {
    match d
    case InitializeTargetReservation => TARGET_RESERVATION
    case RunPlanningTurn => FaultPhase.PLANNING
    case Schedule => WORKER_SCHEDULING
    case _ => PHASE_DRIVER
  }

  // ---------- Traces ----------

  datatype Port = AtControls | AtLoad | AtBoundary

  /** A reply to a port call; a driver that raised was still called. */
  datatype Event =
    | Controls(pending: Option<Stated>)
    | Loaded(state: RunState)
    | Boundary(goesOn: bool)
    | Drove(driver: Driver, decision: Option<Decision>)
    | Raised(port: Port)

  type Trace = seq<Event>

  /** The last call of a driver reported a transition. */
  predicate Reported(t: Trace, driver: Driver, transition: Transition)
    decreases |t|
  {
    t != [] &&
    (if Final(t).Drove? && Final(t).driver == driver
     then Final(t).decision.Some? && Final(t).decision.value.transition == Some(transition)
     else Reported(Init(t), driver, transition))
  }

  /** Whether the drivers of the first states have reported their transitions. */
  function Reports(t: Trace): (bool, bool) {
    (Reported(t, InitializeTargetReservation, TargetReservationInitialized),
      Reported(t, InitializePrivateRef, PrivateRefInitialized))
  }

  /** A permit allows its own phase, and the one that its driver has led to. */
  predicate Allowed(permit: Permit, t: Trace, s: RunState) {
    AllowedBy(permit, s, Reports(t).0, Reports(t).1)
  }

  predicate AllowedBy(permit: Permit, s: RunState, draftInitialized: bool, privateRefInitialized: bool) {
    || PhaseState(permit.allowed) == Some(s)
    || (permit.allowed == ForDraft && draftInitialized && s == Planning)
    || (permit.allowed == ForReadyToStart && privateRefInitialized && s == Active)
  }

  /** The turns before are over: the last driver call went on, and so did the boundary after it. */
  predicate AfterTurn(t: Trace) {
    t == [] ||
    (|t| >= 5 && t[|t| - 1] == Boundary(true) && t[|t| - 2].Drove? && t[|t| - 2].decision.Some?
      && GoesOn(t[|t| - 2].decision.value))
  }

  /** Where a driver may be called: after a clear post-barrier check, in an allowed state, within the run time. */
  predicate MayDrive(permit: Permit, t: Trace, driver: Driver) {
    var n := |t|;
    && n >= 3 && t[n - 1] == Boundary(true) && t[n - 2].Loaded? && t[n - 3] == Controls(None)
    && DriverFor(t[n - 2].state).Some? && DriverFor(t[n - 2].state).value == driver
    && Allowed(permit, t[..n - 3], t[n - 2].state)
    && AfterTurn(t[..n - 3])
  }

  /** The state is loaded after the controls, and for a stop after a boundary. */
  predicate LoadDue(t: Trace) {
    && t != []
    && (|| Final(t).Controls?
        || Final(t) == Boundary(false)
        || (&& Final(t) == Boundary(true) && |t| >= 2 && t[|t| - 2].Drove? && t[|t| - 2].decision.Some?
            && !GoesOn(t[|t| - 2].decision.value)))
  }

  /** The boundary is evaluated in an allowed state after clear controls, and after a driver has decided. */
  predicate BoundaryDue(permit: Permit, t: Trace) {
    var n := |t|;
    || (n >= 2 && t[n - 1].Loaded? && t[n - 2] == Controls(None) && Allowed(permit, t[..n - 2], t[n - 1].state))
    || (n >= 1 && t[n - 1].Drove? && t[n - 1].decision.Some?)
  }

  /** The one call that is due after a trace. */
  predicate Expected(permit: Permit, t: Trace, e: Event) {
    match e
    case Controls(_) => AfterTurn(t)
    case Loaded(_) => LoadDue(t)
    case Boundary(_) => BoundaryDue(permit, t)
    case Drove(driver, _) => MayDrive(permit, t, driver)
    case Raised(AtControls) => AfterTurn(t)
    case Raised(AtLoad) => LoadDue(t)
    case Raised(AtBoundary) => BoundaryDue(permit, t)
  }

  predicate WellDriven(permit: Permit, t: Trace)
    decreases |t|
  {
    t == [] || (WellDriven(permit, Init(t)) && Expected(permit, Init(t), Final(t)))
  }

  /** How a delivery ends: with a stop, with a raised fault, or with the death of the process. */
  datatype Ending = Stopped(stop: Stop) | Faulted(phase: FaultPhase) | Died

  /** The phase that a fault at the end of a trace is recorded under. */
  function PhaseOf(t: Trace): FaultPhase
    decreases |t|
  {
    if t == [] then POST_BARRIER
    else
      match Final(t)
      case Controls(_) => POST_BARRIER
      case Raised(port) => if port == AtControls then POST_BARRIER else PhaseOf(Init(t))
      case Drove(driver, _) => PhaseOfDriver(driver)
      case _ => PhaseOf(Init(t))
  }

  /** What the end of a trace asks for, if it ends with a stop: the state and the reason. */
  function AsksToStop(permit: Permit, t: Trace): Option<(RunState, StopReason)> {
    var n := |t|;
    if n < 2 || !t[n - 1].Loaded? then None
    else
      var s := t[n - 1].state;
      match t[n - 2]
      case Controls(Some(stated)) => Some((s, StopReasonFor(stated)))
      case Controls(None) => if Allowed(permit, t[..n - 2], s) then None else Some((s, PAUSED))
      case Boundary(false) => Some((s, BUDGET_STOP))
      case Boundary(true) =>
        if n >= 3 && t[n - 3].Drove? && t[n - 3].decision.Some? && !GoesOn(t[n - 3].decision.value)
        then Some((s, StopReasonFor(t[n - 3].decision.value.stated))) else None
      case _ => None
  }

  /** A stop is the one the trace asks for; a fault was raised by a port, or by a stop that cannot be built. */
  predicate EndsWith(permit: Permit, t: Trace, ending: Ending) {
    match ending
    case Stopped(stop) =>
      AsksToStop(permit, t).Some? && StopForState(AsksToStop(permit, t).value.0, AsksToStop(permit, t).value.1) ==
        Some(stop)
    case Faulted(phase) =>
      && phase == PhaseOf(t)
      && (|| (t == [] && !permit.owned)
          || (t != [] && (Final(t).Raised? || (Final(t).Drove? && Final(t).decision == None)))
          || (AsksToStop(permit, t).Some? && Awaiting(AsksToStop(permit, t).value.1)))
    case Died => true
  }

  /** A trace that asks for an approval to be awaited never ends in that stop: it falls into the fault handler. */
  lemma {:induction false} AwaitingFallsIntoFault(permit: Permit, t: Trace, ending: Ending)
    requires EndsWith(permit, t, ending) && AsksToStop(permit, t).Some?
    ensures Awaiting(AsksToStop(permit, t).value.1) ==> !ending.Stopped?
    ensures ending.Faulted? ==> Awaiting(AsksToStop(permit, t).value.1)
    ensures ending.Stopped? ==> ending.stop.reason == AsksToStop(permit, t).value.1
  {
    AwaitingStopsCannotBeBuilt(AsksToStop(permit, t).value.0, AsksToStop(permit, t).value.1);
  }

  // ---------- What well-driven traces promise ----------

  lemma {:induction false} DrivenAt(permit: Permit, t: Trace, i: nat)
    requires WellDriven(permit, t) && i < |t| && t[i].Drove?
    ensures MayDrive(permit, t[..i], t[i].driver)
    decreases |t|
  {
    if i == |t| - 1 {
      assert Init(t) == t[..i];
    } else {
      DrivenAt(permit, Init(t), i);
      assert Init(t)[..i] == t[..i];
    }
  }

  /**
    Two driver calls are separated by a boundary that goes on, a clear post-barrier check and another boundary, in this
    order.
  */
  lemma {:induction false} DriverCallsAreSeparated(permit: Permit, t: Trace, i: nat, j: nat)
    requires WellDriven(permit, t) && i < j < |t| && t[i].Drove? && t[j].Drove?
    ensures i + 5 <= j && t[j - 4] == Boundary(true) && t[j - 3] == Controls(None) && t[j - 1] == Boundary(true)
    ensures t[j - 5].Drove? && t[j - 5].decision.Some? && GoesOn(t[j - 5].decision.value)
  {
    DrivenAt(permit, t, j);
    var before := t[..j];
    assert before[j - 1] == t[j - 1] && before[j - 2] == t[j - 2] && before[j - 3] == t[j - 3];
    assert before[..j - 3] == t[..j - 3];
    assert i < j - 3;
    assert t[..j - 3] != [] && t[..j - 3][j - 4] == t[j - 4] && t[..j - 3][j - 5] == t[j - 5];
  }

  /** A transition that was reported was reported by a driver call. */
  lemma {:induction false} ReportedSomewhere(t: Trace, driver: Driver, transition: Transition) returns (i: nat)
    requires Reported(t, driver, transition)
    ensures i < |t| && t[i].Drove? && t[i].driver == driver && t[i].decision.Some?
      && t[i].decision.value.transition == Some(transition)
    decreases |t|
  {
    if Final(t).Drove? && Final(t).driver == driver {
      i := |t| - 1;
    } else {
      i := ReportedSomewhere(Init(t), driver, transition);
    }
  }

  /** A driver's report that lets a permit go on to the successor of its state. */
  predicate Licenses(permit: Permit, e: Event, s: RunState) {
    && e.Drove? && e.decision.Some?
    && ((permit.allowed == ForDraft && s == Planning && e.driver == InitializeTargetReservation
         && e.decision.value.transition == Some(TargetReservationInitialized))
        || (permit.allowed == ForReadyToStart && s == Active && e.driver == InitializePrivateRef
            && e.decision.value.transition == Some(PrivateRefInitialized)))
  }

  /**
    A driver is called only in the permit's own state, or in its one successor after the driver of the permit's
    state has reported the transition; a permit for terminal administration drives nothing.
  */
  lemma {:induction false} OnlyPermittedDrivers(permit: Permit, t: Trace, i: nat)
    requires WellDriven(permit, t) && i < |t| && t[i].Drove?
    ensures i >= 2 && t[i - 2].Loaded? && DriverFor(t[i - 2].state).Some?
      && DriverFor(t[i - 2].state).value == t[i].driver
    ensures PhaseState(permit.allowed) == Some(t[i - 2].state) || exists k ::
      0 <= k < i && Licenses(permit, t[k], t[i - 2].state)
    ensures permit.allowed != ForTerminalAdministration
  {
    DrivenAt(permit, t, i);
    var before := t[..i];
    assert before[i - 2] == t[i - 2];
    var s, earlier := t[i - 2].state, before[..i - 3];
    if PhaseState(permit.allowed) != Some(s) {
      var k: nat;
      if permit.allowed == ForDraft {
        k := ReportedSomewhere(earlier, InitializeTargetReservation, TargetReservationInitialized);
      } else {
        k := ReportedSomewhere(earlier, InitializePrivateRef, PrivateRefInitialized);
      }
      assert earlier[k] == t[k];
      assert Licenses(permit, t[k], s);
    }
  }

  /** The state a permit allows always has a driver: the fall-through to a TERMINAL stop is never taken. */
  lemma {:induction false} AllowedStateHasDriver(permit: Permit, t: Trace, s: RunState)
    requires Allowed(permit, t, s)
    ensures DriverFor(s).Some?
  {}

  /** A TERMINAL stop was stated by the pending controls or by a driver. */
  lemma {:induction false} TerminalWasStated(permit: Permit, t: Trace, stop: Stop)
    requires EndsWith(permit, t, Stopped(stop)) && stop.reason == TERMINAL
    ensures exists i :: 0 <= i < |t| && StatesTerminal(t[i])
  {
    var n := |t|;
    if t[n - 2].Controls? { assert StatesTerminal(t[n - 2]); } else { assert StatesTerminal(t[n - 3]); }
  }

  predicate StatesTerminal(e: Event) {
    || e == Controls(Some(Known(TERMINAL)))
    || (e.Drove? && e.decision.Some? && e.decision.value.stated == Known(TERMINAL))
  }

  lemma {:induction false} TurnReports(t: Trace, s: RunState, d: Driver, decision: Decision)
    requires GoesOn(decision)
    ensures var u := t + Gate(s) + [Drove(d, Some(decision))] + [Boundary(true)];
      AfterTurn(u) && Reports(u) == (
        if d == InitializeTargetReservation then decision.transition == Some(TargetReservationInitialized)
          else Reports(t).0,
        if d == InitializePrivateRef then decision.transition == Some(PrivateRefInitialized) else Reports(t).1)
  {
    ReportedAfterTurn(t, s, d, decision, InitializeTargetReservation, TargetReservationInitialized);
    ReportedAfterTurn(t, s, d, decision, InitializePrivateRef, PrivateRefInitialized);
  }

  lemma {:induction false} Extended(permit: Permit, t: Trace, e: Event)
    requires WellDriven(permit, t) && Expected(permit, t, e)
    ensures WellDriven(permit, t + [e])
    ensures PhaseOf(t + [e]) ==
      if e.Controls? || e == Raised(AtControls) then POST_BARRIER else if e.Drove? then PhaseOfDriver(e.driver)
        else PhaseOf(t)
  {
    assert Init(t + [e]) == t;
  }

  /** The events before a driver call. */
  function Gate(s: RunState): Trace { [Controls(None), Loaded(s), Boundary(true)] }

  lemma {:induction false} GateOpens(permit: Permit, t: Trace, s: RunState)
    requires AfterTurn(t) && Allowed(permit, t, s)
    ensures DriverFor(s).Some? && MayDrive(permit, t + Gate(s), DriverFor(s).value)
  {
    var u := t + Gate(s);
    assert u[..|u| - 3] == t;
  }

  /** The last event leaves nothing to do but load the state and stop for this reason. */
  predicate StopDue(t: Trace, reason: StopReason) {
    t != [] &&
    match Final(t)
    case Controls(Some(stated)) => reason == StopReasonFor(stated)
    case Boundary(false) => reason == BUDGET_STOP
    case Boundary(true) =>
      && |t| >= 2 && t[|t| - 2].Drove? && t[|t| - 2].decision.Some? && !GoesOn(t[|t| - 2].decision.value)
      && reason == StopReasonFor(t[|t| - 2].decision.value.stated)
    case _ => false
  }

  lemma {:induction false} StopEnds(permit: Permit, t: Trace, s: RunState, reason: StopReason)
    requires WellDriven(permit, t) && StopDue(t, reason)
    ensures WellDriven(permit, t + [Loaded(s)])
    ensures EndsWith(permit, t + [Loaded(s)],
      match StopForState(s, reason) case Some(stop) => Stopped(stop) case None => Faulted(PhaseOf(t)))
  {
    Extended(permit, t, Loaded(s));
    AwaitingStopsCannotBeBuilt(s, reason);
    assert AsksToStop(permit, t + [Loaded(s)]) == Some((s, reason));
  }

  /** What the state means after clear controls. */
  lemma {:induction false} PhaseIsChecked(permit: Permit, t: Trace, s: RunState)
    requires WellDriven(permit, t + [Controls(None)])
    ensures var u := t + [Controls(None)] + [Loaded(s)];
      && WellDriven(permit, u) && PhaseOf(u) == PhaseOf(t + [Controls(None)])
      && if Allowed(permit, t, s) then BoundaryDue(permit, u)
         else EndsWith(permit, u, match StopForState(s, PAUSED) case Some(stop) => Stopped(stop) case None =>
           Faulted(PhaseOf(u)))
  {
    var checked := t + [Controls(None)];
    var u := checked + [Loaded(s)];
    Extended(permit, checked, Loaded(s));
    assert u[..|u| - 2] == t && u[|u| - 2] == Controls(None);
    AwaitingStopsCannotBeBuilt(s, PAUSED);
  }

  lemma {:induction false} RaiseEnds(permit: Permit, t: Trace, port: Port)
    requires WellDriven(permit, t) && Expected(permit, t, Raised(port))
    ensures WellDriven(permit, t + [Raised(port)])
    ensures EndsWith(permit, t + [Raised(port)], Faulted(if port == AtControls then POST_BARRIER else PhaseOf(t)))
  {
    Extended(permit, t, Raised(port));
  }

  lemma {:induction false} ReportedStep(t: Trace, e: Event, driver: Driver, transition: Transition)
    ensures Reported(t + [e], driver, transition) ==
      if e.Drove? && e.driver == driver then e.decision.Some? && e.decision.value.transition == Some(transition)
      else Reported(t, driver, transition)
  {
    assert Init(t + [e]) == t;
  }

  /** Events that are not calls of a driver leave its reports alone. */
  lemma {:induction false} ReportedAfterTurn(t: Trace, s: RunState, d: Driver, decision: Decision, driver: Driver,
      transition: Transition)
    ensures var u := t + Gate(s) + [Drove(d, Some(decision))] + [Boundary(true)];
      Reported(u, driver, transition) == if d == driver then decision.transition == Some(transition)
        else Reported(t, driver, transition)
  {
    var u0 := t + [Controls(None)];
    var u1 := u0 + [Loaded(s)];
    var u2 := u1 + [Boundary(true)];
    var u3 := u2 + [Drove(d, Some(decision))];
    assert t + Gate(s) == u2;
    ReportedStep(t, Controls(None), driver, transition);
    ReportedStep(u0, Loaded(s), driver, transition);
    ReportedStep(u1, Boundary(true), driver, transition);
    ReportedStep(u2, Drove(d, Some(decision)), driver, transition);
    ReportedStep(u3, Boundary(true), driver, transition);
  }

  // ---------- What the ports reply ----------

  datatype Reply<T> = Returns(value: T) | Raises

  /** What every port replies at each moment, and when the process dies. */
  datatype Environment = Environment(
    lifetime: nat,
    owner: bool,
    permit: nat -> Reply<Option<Permit>>,
    load: nat -> Reply<RunState>,
    controls: nat -> Reply<Option<Stated>>,
    boundary: nat -> Reply<bool>,
    drive: nat -> Reply<Decision>,
    found: nat -> Reply<bool>,
    barrierIndeterminate: nat -> Reply<bool>)

  /** The event is what its port replied at that moment; a driver may also have died. */
  predicate Replied(env: Environment, e: Event, now: nat) {
    match e
    case Controls(pending) => now < env.lifetime && env.controls(now) == Returns(pending)
    case Loaded(s) => now < env.lifetime && env.load(now) == Returns(s)
    case Boundary(goesOn) => now < env.lifetime && env.boundary(now) == Returns(goesOn)
    case Drove(_, Some(decision)) => now < env.lifetime && env.drive(now) == Returns(decision)
    case Drove(_, None) => now >= env.lifetime || env.drive(now) == Raises
    case Raised(AtControls) => now < env.lifetime && env.controls(now) == Raises
    case Raised(AtLoad) => now < env.lifetime && env.load(now) == Raises
    case Raised(AtBoundary) => now < env.lifetime && env.boundary(now) == Raises
  }

  /** The trace is what the ports replied, one call at each moment from `began` on. */
  ghost predicate Heard(env: Environment, t: Trace, began: nat) {
    forall i | 0 <= i < |t| :: Replied(env, t[i], began + i)
  }

  lemma {:induction false} HeardMore(env: Environment, t: Trace, began: nat, e: Event)
    requires Heard(env, t, began) && Replied(env, e, began + |t|)
    ensures Heard(env, t + [e], began)
  {}
}
