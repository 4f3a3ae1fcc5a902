/**
  The runtime service (src/apexcrew/application/runtime.py, lines 573-783): one delivery of a permit, with the
  recovery before the loop, the loop, and the fault handler around both.
*/
module RuntimeDelivery {
  import opened Wrappers
  import opened Sequences
  import opened PhaseLoop
  import opened RuntimeRecovery

  class RuntimeService {
    const env: Environment
    var clock: nat
    var phase: FaultPhase
    ghost var trace: Trace
    ghost var began: nat
    ghost var recovery: RecoveryLog
    ghost var start: nat

    constructor (env: Environment)
      ensures this.env == env && clock == 0 && trace == [] && recovery == []
    {
      this.env := env;
      clock := 0;
      phase := PERMIT_CONSUMPTION;
      trace := [];
      began := 0;
      recovery := [];
      start := 0;
    }

    /** One call of a port: no reply when the process dies in it. */
    method Call<T>(port: nat -> Reply<T>) returns (r: Option<Reply<T>>)
      modifies this`clock
      ensures clock == old(clock) + 1
      ensures r == if old(clock) >= env.lifetime then None else Some(port(old(clock)))
    {
      r := if clock >= env.lifetime then None else Some(port(clock));
      clock := clock + 1;
    }

    /** Every call since the loop was entered is in the trace. */
    ghost predicate InLoop()
      reads this
    {
      Heard(env, trace, began) && clock == began + |trace|
    }

    /**
      The delivery is over at that moment: the trace is what was heard, a process that died had reached its end,
      and a fault comes right after the last call.
    */
    ghost predicate Left(ending: Ending, now: nat)
      reads this
    {
      && Heard(env, trace, began)
      && (ending == Died ==> env.lifetime < now <= began + |trace| + 1)
      && (ending.Faulted? ==> now == began + |trace|)
    }

    /** A failed port call, as the end of the delivery. */
    ghost predicate Broke(ending: Ending, before: Trace, port: Port)
      reads this
    {
      && Left(ending, clock)
      && ((ending == Died && trace == before) || (ending == Faulted(phase) && trace == before + [Raised(port)]))
    }

    ghost method Hear(e: Event)
      requires Heard(env, trace, began) && Replied(env, e, began + |trace|)
      modifies this`trace
      ensures trace == old(trace) + [e] && Heard(env, trace, began)
    {
      HeardMore(env, trace, began, e);
      trace := trace + [e];
    }

    method LoadState() returns (r: Result<RunState, Ending>)
      requires InLoop()
      modifies this`clock, this`trace
      ensures clock == old(clock) + 1 && (r.Ok? ==> old(clock) < env.lifetime)
      ensures r.Ok? ==> InLoop() && trace == old(trace) + [Loaded(r.value)]
      ensures r.Err? ==> Broke(r.error, old(trace), AtLoad)
    {
      var reply := Call(env.load);
      match reply {
        case None => r := Err(Died);
        case Some(Raises) => Hear(Raised(AtLoad)); r := Err(Faulted(phase));
        case Some(Returns(s)) => Hear(Loaded(s)); r := Ok(s);
      }
    }

    method EvaluateBoundary() returns (r: Result<bool, Ending>)
      requires InLoop()
      modifies this`clock, this`trace
      ensures clock == old(clock) + 1 && (r.Ok? ==> old(clock) < env.lifetime)
      ensures r.Ok? ==> InLoop() && trace == old(trace) + [Boundary(r.value)]
      ensures r.Err? ==> Broke(r.error, old(trace), AtBoundary)
    {
      var reply := Call(env.boundary);
      match reply {
        case None => r := Err(Died);
        case Some(Raises) => Hear(Raised(AtBoundary)); r := Err(Faulted(phase));
        case Some(Returns(b)) => Hear(Boundary(b)); r := Ok(b);
      }
    }

    method ApplyPostBarrierControls() returns (r: Result<Option<Stated>, Ending>)
      requires InLoop()
      modifies this`clock, this`trace
      ensures clock == old(clock) + 1 && (r.Ok? ==> old(clock) < env.lifetime)
      ensures r.Ok? ==> InLoop() && trace == old(trace) + [Controls(r.value)]
      ensures r.Err? ==> Broke(r.error, old(trace), AtControls)
    {
      var reply := Call(env.controls);
      match reply {
        case None => r := Err(Died);
        case Some(Raises) => Hear(Raised(AtControls)); r := Err(Faulted(phase));
        case Some(Returns(pending)) => Hear(Controls(pending)); r := Ok(pending);
      }
    }

    method Drive(driver: Driver) returns (r: Result<Decision, Ending>)
      requires InLoop()
      modifies this`clock, this`trace
      ensures clock == old(clock) + 1 && (r.Ok? ==> old(clock) < env.lifetime)
      ensures r.Ok? ==> InLoop() && trace == old(trace) + [Drove(driver, Some(r.value))]
      ensures r.Err? ==>
        (r.error == Died || r.error == Faulted(phase)) && Left(r.error, clock)
        && trace == old(trace) + [Drove(driver, None)]
    {
      var reply := Call(env.drive);
      match reply {
        case None => Hear(Drove(driver, None)); r := Err(Died);
        case Some(Raises) => Hear(Drove(driver, None)); r := Err(Faulted(phase));
        case Some(Returns(decision)) => Hear(Drove(driver, Some(decision))); r := Ok(decision);
      }
    }

    /** Building a stop: the ending it makes, when the validator refuses it too. */
    function StopOrFault(state: RunState, reason: StopReason): Ending
      reads this
    {
      match StopForState(state, reason)
      case Some(stop) => Stopped(stop)
      case None => Faulted(phase)
    }

    /** Load the state and stop for a reason that the trace asks for. */
    method LoadAndStop(permit: Permit, reason: StopReason) returns (ending: Ending)
      requires WellDriven(permit, trace) && InLoop()
      requires StopDue(trace, reason) && phase == PhaseOf(trace)
      modifies this`clock, this`trace
      ensures clock == old(clock) + 1
      ensures WellDriven(permit, trace) && EndsWith(permit, trace, ending) && Left(ending, clock)
    {
      ghost var before := trace;
      var state := LoadState();
      if state.Err? {
        if state.error != Died { RaiseEnds(permit, before, AtLoad); }
        return state.error;
      }
      StopEnds(permit, before, state.value, reason);
      return StopOrFault(state.value, reason);
    }

    /** The post-barrier check, and the stop when a control is pending. */
    method PassControls(permit: Permit) returns (stopped: Option<Ending>)
      requires WellDriven(permit, trace) && InLoop() && AfterTurn(trace) && phase == POST_BARRIER
      modifies this`clock, this`trace
      ensures WellDriven(permit, trace) && clock > old(clock)
      ensures stopped == None ==> InLoop() && trace == old(trace) + [Controls(None)] && old(clock) < env.lifetime
      ensures stopped.Some? ==> EndsWith(permit, trace, stopped.value) && Left(stopped.value, clock)
    {
      ghost var before := trace;
      var pending := ApplyPostBarrierControls();
      if pending.Err? {
        if pending.error != Died { RaiseEnds(permit, before, AtControls); }
        return Some(pending.error);
      }
      Extended(permit, before, Controls(pending.value));
      if pending.value == None { return None; }
      var ending := LoadAndStop(permit, StopReasonFor(pending.value.value));
      return Some(ending);
    }

    /** The boundary within a trace, and the stop when the run time is used up. */
    method PassBoundary(permit: Permit) returns (stopped: Option<Ending>)
      requires WellDriven(permit, trace) && InLoop() && BoundaryDue(permit, trace) && phase == PhaseOf(trace)
      modifies this`clock, this`trace
      ensures WellDriven(permit, trace) && clock > old(clock)
      ensures stopped == None ==> InLoop() && trace == old(trace) + [Boundary(true)] && PhaseOf(trace) == phase
      ensures stopped.Some? ==> EndsWith(permit, trace, stopped.value) && Left(stopped.value, clock)
    {
      ghost var before := trace;
      var goesOn := EvaluateBoundary();
      if goesOn.Err? {
        if goesOn.error != Died { RaiseEnds(permit, before, AtBoundary); }
        return Some(goesOn.error);
      }
      Extended(permit, before, Boundary(goesOn.value));
      if goesOn.value { return None; }
      var ending := LoadAndStop(permit, BUDGET_STOP);
      return Some(ending);
    }

    /** The state after clear controls, if the permit allows it. */
    method PassPhase(permit: Permit, draftInitialized: bool, privateRefInitialized: bool, ghost before: Trace)
      returns (r: Result<RunState, Ending>)
      requires trace == before + [Controls(None)] && WellDriven(permit, trace) && InLoop()
      requires phase == PhaseOf(trace) == POST_BARRIER
      requires (draftInitialized, privateRefInitialized) == Reports(before)
      modifies this`clock, this`trace
      ensures WellDriven(permit, trace) && clock > old(clock)
      ensures r.Ok? ==>
        InLoop() && trace == before + [Controls(None)] + [Loaded(r.value)] && Allowed(permit, before, r.value)
      ensures r.Ok? ==> BoundaryDue(permit, trace) && phase == PhaseOf(trace)
      ensures r.Err? ==> EndsWith(permit, trace, r.error) && Left(r.error, clock)
    {
      ghost var checked := trace;
      var state := LoadState();
      if state.Err? {
        if state.error != Died { RaiseEnds(permit, checked, AtLoad); }
        return state;
      }
      PhaseIsChecked(permit, before, state.value);
      if !AllowedBy(permit, state.value, draftInitialized, privateRefInitialized) {
        return Err(StopOrFault(state.value, PAUSED));
      }
      return state;
    }

    /** The checks before a driver call: the state it is for, or how the delivery ends. */
    method PassGate(permit: Permit, draftInitialized: bool, privateRefInitialized: bool)
        returns (r: Result<RunState, Ending>)
      requires WellDriven(permit, trace) && InLoop() && AfterTurn(trace)
      requires (draftInitialized, privateRefInitialized) == Reports(trace)
      modifies this`clock, this`trace, this`phase
      ensures WellDriven(permit, trace) && clock > old(clock)
      ensures r.Ok? ==> InLoop() && trace == old(trace) + Gate(r.value) && Allowed(permit, old(trace), r.value)
      ensures r.Ok? ==> old(clock) < env.lifetime
      ensures r.Err? ==> EndsWith(permit, trace, r.error) && Left(r.error, clock)
    {
      ghost var before := trace;
      phase := POST_BARRIER;
      var stopped := PassControls(permit);
      if stopped.Some? { return Err(stopped.value); }
      var state := PassPhase(permit, draftInitialized, privateRefInitialized, before);
      if state.Err? { return state; }
      var overdue := PassBoundary(permit);
      if overdue.Some? { return Err(overdue.value); }
      assert trace == before + Gate(state.value);
      return Ok(state.value);
    }

    /** The call of the driver for a state, and the boundary after it. */
    method DriveTurn(permit: Permit, state: RunState) returns (r: Result<Decision, Ending>)
      requires DriverFor(state).Some? && WellDriven(permit, trace) && MayDrive(permit, trace, DriverFor(state).value)
      requires InLoop()
      modifies this`clock, this`trace, this`phase
      ensures WellDriven(permit, trace) && clock >= old(clock)
      ensures r.Ok? ==>
        InLoop() && trace == old(trace) + [Drove(DriverFor(state).value, Some(r.value))] + [Boundary(true)]
      ensures r.Ok? ==> GoesOn(r.value)
      ensures r.Err? ==> EndsWith(permit, trace, r.error) && Left(r.error, clock)
    {
      var driver := DriverFor(state).value;
      phase := PhaseOfDriver(driver);
      ghost var before := trace;
      var decision := Drive(driver);
      Extended(permit, before, Drove(driver, if decision.Ok? then Some(decision.value) else None));
      if decision.Err? { return decision; }
      r := SettleTurn(permit, decision.value);
    }

    /** The boundary after a driver call, and the stop if the decision does not go on. */
    method SettleTurn(permit: Permit, decision: Decision) returns (r: Result<Decision, Ending>)
      requires WellDriven(permit, trace) && InLoop() && phase == PhaseOf(trace)
      requires trace != [] && Final(trace).Drove? && Final(trace).decision == Some(decision)
      modifies this`clock, this`trace
      ensures WellDriven(permit, trace) && clock >= old(clock)
      ensures r.Ok? ==> InLoop() && trace == old(trace) + [Boundary(true)] && r.value == decision && GoesOn(decision)
      ensures r.Err? ==> EndsWith(permit, trace, r.error) && Left(r.error, clock)
    {
      var overdue := PassBoundary(permit);
      if overdue.Some? { return Err(overdue.value); }
      if !GoesOn(decision) {
        var ending := LoadAndStop(permit, StopReasonFor(decision.stated));
        return Err(ending);
      }
      return Ok(decision);
    }

    /**
      `_drive_permitted_phase`: the trace is what the ports that were due have replied, and the ending is the one
      that it asks for.
    */
    method DrivePermittedPhase(permit: Permit) returns (ending: Ending)
      requires trace == []
      modifies this`clock, this`trace, this`began, this`phase
      ensures WellDriven(permit, trace) && EndsWith(permit, trace, ending)
      ensures began == old(clock) && Left(ending, clock)
    {
      var draftInitialized, privateRefInitialized := false, false;
      began := clock;
      if !permit.owned {
        phase := POST_BARRIER;
        return Faulted(phase);
      }
      var finished: Option<Ending> := None;
      while finished == None
        invariant began == old(clock)
        invariant finished == None ==> WellDriven(permit, trace) && AfterTurn(trace) && InLoop()
        invariant finished == None ==> (draftInitialized, privateRefInitialized) == Reports(trace)
        invariant finished.Some? ==>
          WellDriven(permit, trace) && EndsWith(permit, trace, finished.value) && Left(finished.value, clock)
        decreases finished == None, env.lifetime - clock
      {
        finished, draftInitialized, privateRefInitialized := TakeTurn(permit, draftInitialized, privateRefInitialized);
      }
      return finished.value;
    }

    /** One turn of the loop. */
    method TakeTurn(permit: Permit, draftInitialized: bool, privateRefInitialized: bool)
      returns (finished: Option<Ending>, draftInitialized': bool, privateRefInitialized': bool)
      requires WellDriven(permit, trace) && AfterTurn(trace) && InLoop()
      requires (draftInitialized, privateRefInitialized) == Reports(trace)
      modifies this`clock, this`trace, this`phase
      ensures WellDriven(permit, trace)
      ensures finished == None ==> AfterTurn(trace) && (draftInitialized', privateRefInitialized') == Reports(trace)
      ensures finished == None ==> InLoop() && old(clock) < env.lifetime && clock > old(clock)
      ensures finished.Some? ==> EndsWith(permit, trace, finished.value) && Left(finished.value, clock)
    {
      draftInitialized', privateRefInitialized' := draftInitialized, privateRefInitialized;
      ghost var before := trace;
      var gate := PassGate(permit, draftInitialized, privateRefInitialized);
      if gate.Err? { return Some(gate.error), draftInitialized', privateRefInitialized'; }
      var state := gate.value;
      GateOpens(permit, before, state);
      var decision := DriveTurn(permit, state);
      if decision.Err? { return Some(decision.error), draftInitialized', privateRefInitialized'; }
      TurnReports(before, state, DriverFor(state).value, decision.value);
      draftInitialized', privateRefInitialized' := AfterDecision(state, decision.value, draftInitialized,
        privateRefInitialized);
      finished := None;
    }

    /** The flags after a driver call: each is set by its own driver and left alone by the others. */
    static method AfterDecision(state: RunState, decision: Decision, draftInitialized: bool,
        privateRefInitialized: bool)
      returns (draftInitialized': bool, privateRefInitialized': bool)
      requires DriverFor(state).Some?
      ensures var d := DriverFor(state).value;
        (draftInitialized', privateRefInitialized') == (
          if d == InitializeTargetReservation then decision.transition == Some(TargetReservationInitialized)
            else draftInitialized,
          if d == InitializePrivateRef then decision.transition == Some(PrivateRefInitialized)
            else privateRefInitialized)
    {
      draftInitialized', privateRefInitialized' := draftInitialized, privateRefInitialized;
      if state == Draft {
        draftInitialized' := decision.transition == Some(TargetReservationInitialized);
      } else if state == ReadyToStart {
        privateRefInitialized' := decision.transition == Some(PrivateRefInitialized);
      }
    }

    // ---------- The whole delivery ----------

    /** Every call of the recovery is in its log, and each was due; the phase is that of the log. */
    ghost predicate InRecovery()
      reads this
    {
      Recovered(env, recovery, start) && clock == start + |recovery| && phase == RecoveryPhase(recovery) && trace == []
    }

    /** The call that was due has failed. */
    ghost predicate Failed(ending: Ending, now: nat)
      reads this
    {
      && Recovered(env, recovery, start) && trace == [] && Due(recovery).Some?
      && (|| (ending == Died && now == start + |recovery| + 1 > env.lifetime)
          || (&& ending == Faulted(RecoveryPhase(recovery)) && now == start + |recovery| + 1 <= env.lifetime
              && AnswerOf(env, Due(recovery).value, start + |recovery|) == Raises))
    }

    /** The recovery was done, and the loop has ended like this. */
    ghost predicate LoopEnded(permit: Permit, ending: Ending, now: nat)
      reads this
    {
      && Recovered(env, recovery, start) && RecoveryDone(recovery) && began == start + |recovery|
      && WellDriven(permit, trace) && EndsWith(permit, trace, ending) && Left(ending, now)
    }

    /** The recovery has asked for this stop, or for one that cannot be built. */
    ghost predicate StopAsked(ending: Ending, now: nat)
      reads this
    {
      && Recovered(env, recovery, start) && trace == [] && RecoveryAsks(recovery).Some?
      && ending == EndingFor(RecoveryAsks(recovery).value, RecoveryPhase(recovery))
      && now == start + |recovery|
    }

    /**
      How and when a consumed permit ends: in a failed call, in the stop that the recovery asks for, or as the
      loop ends.
    */
    ghost predicate Concluded(permit: Permit, ending: Ending, now: nat)
      reads this
    {
      Failed(ending, now) || StopAsked(ending, now) || LoopEnded(permit, ending, now)
    }

    static function EndingFor(asked: (RunState, StopReason), phase: FaultPhase): Ending {
      match StopForState(asked.0, asked.1)
      case Some(stop) => Stopped(stop)
      case None => Faulted(phase)
    }

    /** The loop, after a recovery that is done. */
    method EnterLoop(permit: Permit) returns (ending: Ending)
      requires Recovered(env, recovery, start) && clock == start + |recovery| && RecoveryDone(recovery) && trace == []
      modifies this`clock, this`trace, this`began, this`phase
      ensures LoopEnded(permit, ending, clock)
    {
      ending := DrivePermittedPhase(permit);
    }

    /** One event has been added to the log. */
    ghost predicate After(before: RecoveryLog, e: RecoveryEvent)
      reads this
    {
      && recovery == before + [e] && Recovered(env, recovery, start) && clock == start + |recovery| && trace == []
      && RecoveryPhase(recovery) == PhaseAfter(RecoveryPhase(before), e)
      && (e.call !in {CheckBoundary, LoadForStop} ==> Due(recovery) == Next(e))
      && (e.call != CheckBoundary ==> (RecoveryDone(recovery) <==> Enters(e)))
    }

    /** The event that was due goes into the log. */
    ghost method Note(e: RecoveryEvent)
      requires Recovered(env, recovery, start) && Due(recovery) == Some(e.call) && trace == []
      requires Answered(env, e, start + |recovery|) && clock == start + |recovery| + 1
      modifies this`recovery
      ensures After(old(recovery), e)
    {
      RecoveredMore(env, recovery, start, e);
      OneMoreEvent(recovery, e);
      recovery := recovery + [e];
    }

    /** One call of the recovery: no reply when the process dies in it. */
    method Reach(call: RecoveryCall) returns (reply: Option<Reply<Answer>>)
      modifies this`clock
      ensures clock == old(clock) + 1
      ensures reply == if old(clock) >= env.lifetime then None else Some(AnswerOf(env, call, old(clock)))
    {
      reply := Call(now => AnswerOf(env, call, now));
    }

    /** The answer to the call that is due. */
    method Ask(call: RecoveryCall) returns (r: Result<Answer, Ending>)
      requires InRecovery() && Due(recovery) == Some(call)
      modifies this`clock, this`recovery
      ensures r.Ok? ==>
        After(old(recovery), RecoveryEvent(call, r.value)) && AnswerOf(env, call, old(clock)) == Returns(r.value)
      ensures r.Err? ==> Failed(r.error, clock) && recovery == old(recovery)
    {
      var reply := Reach(call);
      if reply == None { return Err(Died); }
      if reply.value == Raises { return Err(Faulted(phase)); }
      r := Ok(reply.value.value);
      Note(RecoveryEvent(call, r.value));
    }

    /** Whether the journal finds something, or whether recovery needs a human. */
    method Find(call: RecoveryCall) returns (r: Result<bool, Ending>)
      requires InRecovery() && Due(recovery) == Some(call)
      requires call in {FindAction, FindGrant, Reconcile, FindTurn, RecoverTurn, RecordIntent, CheckBoundary}
      modifies this`clock, this`recovery
      ensures r.Ok? ==> After(old(recovery), RecoveryEvent(call, Flag(r.value)))
      ensures r.Err? ==> Failed(r.error, clock) && recovery == old(recovery)
    {
      var answer := Ask(call);
      r := if answer.Ok? then Ok(answer.value.value) else Err(answer.error);
    }

    method Load(call: RecoveryCall) returns (r: Result<RunState, Ending>)
      requires InRecovery() && Due(recovery) == Some(call) && call in {LoadFirst, LoadTurn, LoadForStop}
      modifies this`clock, this`recovery
      ensures r.Ok? ==> After(old(recovery), RecoveryEvent(call, State(r.value)))
      ensures r.Err? ==> Failed(r.error, clock) && recovery == old(recovery)
    {
      var answer := Ask(call);
      r := if answer.Ok? then Ok(answer.value.state) else Err(answer.error);
    }

    /** A stop outside the loop, for a state that has to be loaded first. */
    method StopAfterLoad(permit: Permit, reason: StopReason) returns (ending: Ending)
      requires InRecovery() && Due(recovery) == Some(LoadForStop) && reason == ReasonDue(recovery)
      requires !ToBeOverruled(recovery)
      modifies this`clock, this`recovery
      ensures Concluded(permit, ending, clock)
    {
      ghost var before := recovery;
      var state := Load(LoadForStop);
      if state.Err? { return state.error; }
      StopIsAsked(before, state.value);
      return StopOrFault(state.value, reason);
    }

    /**
      The boundary and the decision of a recovery driver: None to go on to the loop. A granted action without a
      sequence is interrupted even if the run time is used up.
    */
    method SettleRecovery(permit: Permit, d: Decision, granted: bool) returns (stopped: Option<Ending>)
      requires InRecovery() && Due(recovery) == Some(CheckBoundary)
      requires recovery[|recovery| - 1] == RecoveryEvent(if granted then ExecuteGrant else Resume, Decided(d))
      modifies this`clock, this`recovery
      ensures stopped == None ==> InRecovery() && DroveOn(recovery)
      ensures stopped.Some? ==> Concluded(permit, stopped.value, clock)
    {
      ghost var before := recovery;
      var goesOn := Find(CheckBoundary);
      if goesOn.Err? { return Some(goesOn.error); }
      BoundaryEvent(before, goesOn.value);
      var unsequenced := granted && !d.sequenced;
      if !goesOn.value && !unsequenced {
        var ending := StopAfterLoad(permit, BUDGET_STOP);
        return Some(ending);
      }
      if !goesOn.value {
        ghost var checked := recovery;
        var state := Load(LoadForStop);
        if state.Err? { return Some(state.error); }
        OverruledEvent(checked, state.value);
      }
      if unsequenced {
        var ending := StopAfterLoad(permit, INTERRUPTED);
        return Some(ending);
      }
      if GoesOn(d) { return None; }
      var ending := StopAfterLoad(permit, StopReasonFor(d.stated));
      return Some(ending);
    }

    /** `_resume_recovered` and `_drive_granted_action`: one driver call, and the loop if it goes on. */
    method DriveRecovery(permit: Permit, granted: bool) returns (ending: Ending)
      requires InRecovery() && Due(recovery) == Some(if granted then ExecuteGrant else Resume)
      requires granted ==> phase == GRANTED_ACTION_RECOVERY
      modifies this`clock, this`trace, this`began, this`phase, this`recovery
      ensures Concluded(permit, ending, clock)
    {
      if granted { phase := GRANTED_ACTION_RECOVERY; }
      var answer := Ask(if granted then ExecuteGrant else Resume);
      if answer.Err? { return answer.error; }
      var stopped := SettleRecovery(permit, answer.value.decision, granted);
      if stopped.Some? { return stopped.value; }
      ending := EnterLoop(permit);
    }

    /**
      `_run_consumed_permit`: the calls of the recovery are the ones that were due, what it asks for is what
      happens, and the loop is entered exactly when it is done.
    */
    method RunConsumedPermit(permit: Permit) returns (ending: Ending)
      requires trace == [] && recovery == [] && phase == PERMIT_CONSUMPTION
      modifies this`clock, this`trace, this`began, this`phase, this`recovery, this`start
      ensures start == old(clock) && Concluded(permit, ending, clock)
    {
      start := clock;
      ending := LoadAndRecover(permit);
    }

    /** A draft has nothing to recover. */
    method LoadAndRecover(permit: Permit) returns (ending: Ending)
      requires InRecovery() && Due(recovery) == Some(LoadFirst)
      modifies this`clock, this`trace, this`began, this`phase, this`recovery
      ensures Concluded(permit, ending, clock)
    {
      var state := Load(LoadFirst);
      if state.Err? { return state.error; }
      if state.value == Draft {
        ending := EnterLoop(permit);
        return;
      }
      phase := RECOVERED_ACTION;
      ending := RecoverActions(permit);
    }

    /** The first half: an action that a model turn has recorded, and a granted action that is not settled. */
    method RecoverActions(permit: Permit) returns (ending: Ending)
      requires InRecovery() && Due(recovery) == Some(FindAction)
      modifies this`clock, this`trace, this`began, this`phase, this`recovery
      ensures Concluded(permit, ending, clock)
    {
      var recovered := Find(FindAction);
      if recovered.Err? { return recovered.error; }
      if recovered.value {
        ending := DriveRecovery(permit, false);
        return;
      }
      phase := GRANTED_ACTION_RECOVERY;
      var granted := Find(FindGrant);
      if granted.Err? { return granted.error; }
      if granted.value {
        ending := DriveRecovery(permit, true);
        return;
      }
      phase := EFFECT_RECOVERY;
      ending := RecoverEffects(permit);
    }

    /** The second half: reconciling effects, and the model turn that was committed but not acted on. */
    method RecoverEffects(permit: Permit) returns (ending: Ending)
      requires InRecovery() && Due(recovery) == Some(Reconcile)
      modifies this`clock, this`trace, this`began, this`phase, this`recovery
      ensures Concluded(permit, ending, clock)
    {
      var human := Find(Reconcile);
      if human.Err? { return human.error; }
      if human.value {
        ending := StopAfterLoad(permit, INDETERMINATE);
        return;
      }
      var committed := Find(FindTurn);
      if committed.Err? { return committed.error; }
      if !committed.value {
        ending := EnterLoop(permit);
        return;
      }
      phase := MODEL_RECOVERY;
      ending := RecoverTurnAction(permit);
    }

    /** A committed model turn that was not acted on: its action is recorded and resumed. */
    method RecoverTurnAction(permit: Permit) returns (ending: Ending)
      requires InRecovery() && Due(recovery) == Some(LoadTurn)
      modifies this`clock, this`trace, this`began, this`phase, this`recovery
      ensures Concluded(permit, ending, clock)
    {
      ghost var before := recovery;
      var current := Load(LoadTurn);
      if current.Err? { return current.error; }
      var acts := Find(RecoverTurn);
      if acts.Err? { return acts.error; }
      if !acts.value {
        TurnEvent(before, current.value);
        return StopOrFault(current.value, PAUSED);
      }
      var recorded := Find(RecordIntent);
      if recorded.Err? { return recorded.error; }
      ending := DriveRecovery(permit, false);
    }

    /** The permit of this delivery, or how it ends without one. */
    ghost function PermitAt(now: nat): Result<Permit, Option<StopReason>> {
      if now >= env.lifetime || env.load(now) == Raises then Err(None)
      else if !env.owner then Err(Some(ALREADY_RUNNING))
      else if now + 1 >= env.lifetime || env.permit(now + 1) == Raises then Err(None)
      else if env.permit(now + 1) == Returns(None) then Err(Some(NO_RUNTIME_PERMIT))
      else Ok(env.permit(now + 1).value.value)
    }

    /** The reason that the fault handler offers, called at that moment. */
    ghost function FaultReason(now: nat): Option<StopReason> {
      if now + 1 >= env.lifetime || env.barrierIndeterminate(now) == Raises || env.load(now + 1) == Raises then None
      else Some(if env.barrierIndeterminate(now) == Returns(true) then INDETERMINATE else PAUSED)
    }

    /** The reason that an ending offers; a fault is handled right after it. */
    ghost function Offered(ending: Ending, now: nat): Option<StopReason> {
      match ending
      case Died => None
      case Stopped(stop) => Some(stop.reason)
      case Faulted(_) => FaultReason(now)
    }

    /**
      `run_until_blocked`: the reason of the stop that is offered to the store. Without a permit nothing is driven;
      with one, the reason is that of the stop which the delivery asks for, or the fault handler's.
    */
    method RunUntilBlocked() returns (reason: Option<StopReason>, ghost ending: Option<Ending>, ghost endedAt: nat)
      requires trace == [] && recovery == []
      modifies this
      ensures match PermitAt(old(clock))
        case Err(offered) => reason == offered && ending == None && trace == [] && recovery == []
        case Ok(permit) =>
          && start == old(clock) + 2 && ending.Some? && Concluded(permit, ending.value, endedAt)
          && reason == Offered(ending.value, endedAt)
    {
      ending, endedAt := None, 0;
      var state := Call(env.load);
      if state == None || state.value == Raises { return None, None, 0; }
      if !env.owner { return Some(ALREADY_RUNNING), None, 0; }
      var consumed := Call(env.permit);
      if consumed == None || consumed.value == Raises { return None, None, 0; }
      if consumed.value.value == None { return Some(NO_RUNTIME_PERMIT), None, 0; }
      ghost var ended;
      reason, ended, endedAt := Deliver(consumed.value.value.value);
      ending := Some(ended);
    }

    /** A consumed permit, with the fault handler around it. */
    method Deliver(permit: Permit) returns (reason: Option<StopReason>, ghost ended: Ending, ghost endedAt: nat)
      requires trace == [] && recovery == []
      modifies this
      ensures start == old(clock) && Concluded(permit, ended, endedAt) && reason == Offered(ended, endedAt)
    {
      phase := PERMIT_CONSUMPTION;
      var ending := RunConsumedPermit(permit);
      ended, endedAt := ending, clock;
      match ending {
        case Died => reason := None;
        case Stopped(stop) => reason := Some(stop.reason);
        case Faulted(_) => reason := ReportFault();
      }
    }

    /** The fault handler: what the barrier's state makes of the fault. */
    method ReportFault() returns (reason: Option<StopReason>)
      modifies this`clock
      ensures reason == FaultReason(old(clock))
    {
      var indeterminate := Call(env.barrierIndeterminate);
      if indeterminate == None || indeterminate.value == Raises { return None; }
      var state := Call(env.load);
      if state == None || state.value == Raises { return None; }
      var stop := StopOrFault(state.value.value, if indeterminate.value.value then INDETERMINATE else PAUSED);
      reason := Some(stop.stop.reason);
    }
  }

  /** Whatever a delivery concludes with, it never is a stop that awaits an approval. */
  lemma {:induction false} NoStopAwaits(service: RuntimeService, permit: Permit, ending: Ending, now: nat)
    requires service.Concluded(permit, ending, now) && ending.Stopped?
    ensures !Awaiting(ending.stop.reason)
  {
    if service.StopAsked(ending, now) {
      var asked := RecoveryAsks(service.recovery).value;
      AwaitingStopsCannotBeBuilt(asked.0, asked.1);
    } else {
      var asked := AsksToStop(permit, service.trace).value;
      AwaitingStopsCannotBeBuilt(asked.0, asked.1);
    }
  }
}
