/**
  What comes before the loop in a delivery (src/apexcrew/application/runtime.py, lines 620-714): the calls that
  look for something to recover, the one driver that recovers it, and the stop or fault that this leads to.
*/
module RuntimeRecovery {
  import opened Wrappers
  import opened PhaseLoop

  // ---------- Recovery before the loop ----------

  /** The calls before the loop, by what they are for. */
  datatype RecoveryCall =
    | LoadFirst | FindAction | FindGrant | Reconcile | FindTurn | LoadTurn | RecoverTurn | RecordIntent
    | Resume | ExecuteGrant | CheckBoundary | LoadForStop

  datatype Answer = State(state: RunState) | Flag(value: bool) | Decided(decision: Decision)

  datatype RecoveryEvent = RecoveryEvent(call: RecoveryCall, answer: Answer)

  type RecoveryLog = seq<RecoveryEvent>

  /**
    A driver was called, its decision goes on, and so does the boundary after it; a granted action has its sequence.
  */
  predicate DroveOn(log: RecoveryLog) {
    var n := |log|;
    && n >= 2 && log[n - 1] == RecoveryEvent(CheckBoundary, Flag(true))
    && log[n - 2].answer.Decided? && GoesOn(log[n - 2].answer.decision) && !Unsequenced(log[n - 2])
  }

  predicate Unsequenced(e: RecoveryEvent) {
    e.call == ExecuteGrant && e.answer.Decided? && !e.answer.decision.sequenced
  }

  /** The budget stop has been prepared, but the granted action before it has no sequence. */
  predicate Overruled(log: RecoveryLog) {
    var n := |log|;
    && n >= 3 && log[n - 1].call == LoadForStop && log[n - 2] == RecoveryEvent(CheckBoundary, Flag(false))
    && Unsequenced(log[n - 3])
  }

  /** The budget stop is about to be prepared in vain. */
  predicate ToBeOverruled(log: RecoveryLog) {
    var n := |log|;
    n >= 2 && log[n - 1] == RecoveryEvent(CheckBoundary, Flag(false)) && Unsequenced(log[n - 2])
  }

  /** The call that is due after an event, where the event alone decides. */
  function Next(e: RecoveryEvent): Option<RecoveryCall> {
    match e.call
    case LoadFirst => if e.answer == State(Draft) then None else Some(FindAction)
    case FindAction => Some(if e.answer == Flag(true) then Resume else FindGrant)
    case FindGrant => Some(if e.answer == Flag(true) then ExecuteGrant else Reconcile)
    case Reconcile => Some(if e.answer == Flag(true) then LoadForStop else FindTurn)
    case FindTurn => if e.answer == Flag(true) then Some(LoadTurn) else None
    case LoadTurn => Some(RecoverTurn)
    case RecoverTurn => if e.answer == Flag(true) then Some(RecordIntent) else None
    case RecordIntent => Some(Resume)
    case _ => Some(CheckBoundary)
  }

  /** The call that is due after a log, if any. */
  function Due(log: RecoveryLog): Option<RecoveryCall> {
    if log == [] then Some(LoadFirst)
    else
      match log[|log| - 1].call
      case CheckBoundary => if DroveOn(log) then None else Some(LoadForStop)
      case LoadForStop => if Overruled(log) then Some(LoadForStop) else None
      case _ => Next(log[|log| - 1])
  }

  /** The loop is entered: on a draft, when nothing was found, or when the one thing found was driven on. */
  predicate RecoveryDone(log: RecoveryLog) {
    && log != []
    && (Enters(log[|log| - 1]) || DroveOn(log))
  }

  predicate Enters(e: RecoveryEvent) {
    e == RecoveryEvent(LoadFirst, State(Draft)) || e == RecoveryEvent(FindTurn, Flag(false))
  }

  /** Why the state is loaded for a stop. */
  function ReasonDue(log: RecoveryLog): StopReason {
    var n := |log|;
    if n < 2 then PAUSED
    else
      match log[n - 1].call
      case Reconcile => INDETERMINATE
      case LoadForStop => INTERRUPTED
      case _ =>
        if log[n - 1].answer == Flag(false) then BUDGET_STOP
        else if Unsequenced(log[n - 2]) then INTERRUPTED
        else if log[n - 2].answer.Decided? then StopReasonFor(log[n - 2].answer.decision.stated)
        else PAUSED
  }

  /** The stop that a finished recovery asks for. */
  function RecoveryAsks(log: RecoveryLog): Option<(RunState, StopReason)> {
    var n := |log|;
    if n < 2 || Due(log).Some? then None
    else if log[n - 1].call == LoadForStop && log[n - 1].answer.State? then
      Some((log[n - 1].answer.state, ReasonDue(log[..n - 1])))
    else if log[n - 1].call == RecoverTurn && log[n - 2].answer.State? then Some((log[n - 2].answer.state, PAUSED))
    else None
  }

  function PhaseAfter(phase: FaultPhase, e: RecoveryEvent): FaultPhase {
    match e.call
    case LoadFirst => if e.answer == State(Draft) then phase else RECOVERED_ACTION
    case FindAction => if e.answer == Flag(true) then phase else GRANTED_ACTION_RECOVERY
    case FindGrant => if e.answer == Flag(true) then phase else EFFECT_RECOVERY
    case FindTurn => if e.answer == Flag(true) then MODEL_RECOVERY else phase
    case _ => phase
  }

  /** The phase that a fault after this recovery is recorded under. */
  function RecoveryPhase(log: RecoveryLog): FaultPhase
    decreases |log|
  {
    if log == [] then PERMIT_CONSUMPTION else PhaseAfter(RecoveryPhase(log[..|log| - 1]), log[|log| - 1])
  }

  function StateReply(reply: Reply<RunState>): Reply<Answer> {
    match reply case Returns(s) => Returns(State(s)) case Raises => Raises
  }

  function FlagReply(reply: Reply<bool>): Reply<Answer> {
    match reply case Returns(b) => Returns(Flag(b)) case Raises => Raises
  }

  function DecisionReply(reply: Reply<Decision>): Reply<Answer> {
    match reply case Returns(d) => Returns(Decided(d)) case Raises => Raises
  }

  function AnswerOf(env: Environment, call: RecoveryCall, now: nat): Reply<Answer> {
    match call
    case LoadFirst => StateReply(env.load(now))
    case LoadTurn => StateReply(env.load(now))
    case LoadForStop => StateReply(env.load(now))
    case CheckBoundary => FlagReply(env.boundary(now))
    case Resume => DecisionReply(env.drive(now))
    case ExecuteGrant => DecisionReply(env.drive(now))
    case _ => FlagReply(env.found(now))
  }

  /** The log is what the calls that were due have answered, one at each moment from `start` on. */
  ghost predicate Recovered(env: Environment, log: RecoveryLog, start: nat) {
    forall i | 0 <= i < |log| :: Stepped(env, log, start, i)
  }

  predicate Stepped(env: Environment, log: RecoveryLog, start: nat, i: nat)
    requires i < |log|
  {
    Due(log[..i]) == Some(log[i].call) && Answered(env, log[i], start + i)
  }

  predicate Answered(env: Environment, e: RecoveryEvent, now: nat) {
    now < env.lifetime && AnswerOf(env, e.call, now) == Returns(e.answer)
  }

  lemma {:induction false} RecoveredMore(env: Environment, log: RecoveryLog, start: nat, e: RecoveryEvent)
    requires Recovered(env, log, start) && Due(log) == Some(e.call) && Answered(env, e, start + |log|)
    ensures Recovered(env, log + [e], start)
  {
    var longer := log + [e];
    forall i | 0 <= i < |longer| ensures Stepped(env, longer, start, i) {
      if i < |log| {
        assert longer[..i] == log[..i] && Stepped(env, log, start, i);
      } else {
        assert longer[..i] == log;
      }
    }
  }

  /** An event stands where it was due, after the one before it. */
  lemma {:induction false} WasDue(env: Environment, log: RecoveryLog, start: nat, i: nat)
    requires Recovered(env, log, start) && i < |log|
    ensures Due(log[..i]) == Some(log[i].call) && Answered(env, log[i], start + i)
    ensures i > 0 ==> log[..i][i - 1] == log[i - 1]
  {
    assert Stepped(env, log, start, i);
  }

  // ---------- What recovery promises ----------

  predicate IsDriverCall(e: RecoveryEvent) { e.call == Resume || e.call == ExecuteGrant }

  /** How far recovery has come; the calls of a recovery stand in this order. */
  function Rank(call: RecoveryCall): nat {
    match call
    case LoadFirst => 0
    case FindAction => 1
    case FindGrant => 2
    case Reconcile => 3
    case FindTurn => 4
    case LoadTurn => 5
    case RecoverTurn => 6
    case RecordIntent => 7
    case Resume => 8
    case ExecuteGrant => 8
    case CheckBoundary => 9
    case LoadForStop => 10
  }

  lemma {:induction false} RankRises(log: RecoveryLog)
    requires log != [] && Due(log).Some?
    ensures Rank(log[|log| - 1].call) < Rank(Due(log).value) || log[|log| - 1].call == Due(log).value == LoadForStop
  {}

  lemma {:induction false} RanksRise(env: Environment, log: RecoveryLog, start: nat, i: nat, j: nat)
    requires Recovered(env, log, start) && i < j < |log|
    ensures Rank(log[i].call) < Rank(log[j].call) || log[i].call == log[j].call == LoadForStop
    decreases j
  {
    WasDue(env, log, start, j);
    RankRises(log[..j]);
    if i < j - 1 { RanksRise(env, log, start, i, j - 1); }
  }

  /** At most one recovery driver answers, and none has when one is due. */
  lemma {:induction false} OneRecoveryDriver(env: Environment, log: RecoveryLog, start: nat)
    requires Recovered(env, log, start)
    ensures forall i, j | 0 <= i < j < |log| :: !(IsDriverCall(log[i]) && IsDriverCall(log[j]))
    ensures Due(log) in {Some(Resume), Some(ExecuteGrant)} ==> forall i | 0 <= i < |log| :: !IsDriverCall(log[i])
  {
    forall i, j | 0 <= i < j < |log| ensures !(IsDriverCall(log[i]) && IsDriverCall(log[j])) {
      RanksRise(env, log, start, i, j);
    }
    if Due(log) in {Some(Resume), Some(ExecuteGrant)} && log != [] {
      RankRises(log);
      forall i | 0 <= i < |log| ensures !IsDriverCall(log[i]) {
        if i < |log| - 1 { RanksRise(env, log, start, i, |log| - 1); }
      }
    }
  }

  lemma {:induction false} FirstIsLoaded(env: Environment, log: RecoveryLog, start: nat, i: nat)
    requires Recovered(env, log, start) && i < |log|
    ensures log[i].call == LoadFirst <==> i == 0
    ensures i > 0 ==> log[0].answer != State(Draft)
  {
    WasDue(env, log, start, i);
    if i > 0 {
      RankRises(log[..i]);
      WasDue(env, log, start, 0);
      WasDue(env, log, start, 1);
    }
  }

  /** The journal is asked for one thing after the other, as long as it finds nothing. */
  lemma {:induction false} FoundNothing(env: Environment, log: RecoveryLog, start: nat, i: nat)
    requires Recovered(env, log, start) && i < |log| && log[i].call in {FindAction, FindGrant, Reconcile, FindTurn}
    ensures i == Rank(log[i].call)
    ensures forall k | 1 <= k < i :: log[k].answer != Flag(true)
    decreases i
  {
    WasDue(env, log, start, i);
    if log[i].call == FindAction {
      FirstIsLoaded(env, log, start, i - 1);
    } else {
      FoundNothing(env, log, start, i - 1);
    }
  }

  lemma {:induction false} DriverBeforeBoundary(env: Environment, log: RecoveryLog, start: nat, i: nat)
    requires Recovered(env, log, start) && i < |log| && log[i].call == CheckBoundary
    ensures i > 0 && IsDriverCall(log[i - 1])
  {
    WasDue(env, log, start, i);
  }

  /** The loop is never entered after a granted action without a sequence. */
  lemma {:induction false} UnsequencedDoesNotGoOn(env: Environment, log: RecoveryLog, start: nat, i: nat)
    requires Recovered(env, log, start) && RecoveryDone(log) && i < |log|
    ensures !Unsequenced(log[i])
  {
    var n := |log|;
    if Unsequenced(log[i]) {
      if DroveOn(log) {
        DriverBeforeBoundary(env, log, start, n - 1);
        OneRecoveryDriver(env, log, start);
      } else if i < n - 1 {
        RanksRise(env, log, start, i, n - 1);
      }
    }
  }

  /**
    The loop is entered on a draft, or when nothing was found to recover, or when the one driver that was called
    went on; then nothing else is due or asked for.
  */
  lemma {:induction false} LoopComesAfterRecovery(env: Environment, log: RecoveryLog, start: nat)
    requires Recovered(env, log, start) && RecoveryDone(log)
    ensures Due(log) == None && RecoveryAsks(log) == None
    ensures log[0].answer == State(Draft) <==> |log| == 1
    ensures log[|log| - 1].call == FindTurn ==> |log| == 5 && forall k | 1 <= k < 5 :: log[k].answer != Flag(true)
    ensures |log| > 1 && log[|log| - 1].call != FindTurn ==> DroveOn(log) && IsDriverCall(log[|log| - 2])
  {
    var n := |log|;
    FirstIsLoaded(env, log, start, n - 1);
    if log[n - 1].call == FindTurn { FoundNothing(env, log, start, n - 1); }
    if log[n - 1].call == CheckBoundary { DriverBeforeBoundary(env, log, start, n - 1); }
  }

  lemma {:induction false} UnsequencedLog(env: Environment, log: RecoveryLog, start: nat, i: nat)
    requires Recovered(env, log, start) && i < |log| && Unsequenced(log[i])
    ensures i + 1 < |log| ==> log[i + 1].call == CheckBoundary && log[i + 1].answer.Flag?
    ensures i + 2 < |log| ==> log[i + 2].call == LoadForStop && log[i + 2].answer.State?
  {
    if i + 1 < |log| { WasDue(env, log, start, i + 1); }
    if i + 2 < |log| {
      WasDue(env, log, start, i + 2);
      assert log[..i + 2][i] == log[i];
    }
  }

  lemma {:induction false} UnsequencedSecondLoad(env: Environment, log: RecoveryLog, start: nat, i: nat)
    requires Recovered(env, log, start) && i + 3 < |log| && Unsequenced(log[i])
    requires log[i + 1].call == CheckBoundary && log[i + 2].call == LoadForStop
    ensures |log| == i + 4 && log[i + 3].call == LoadForStop && log[i + 3].answer.State?
  {
    WasDue(env, log, start, i + 3);
    if i + 4 < |log| {
      NothingAfterTwoLoads(log[..i + 4]);
      WasDue(env, log, start, i + 4);
    }
  }

  lemma {:induction false} NothingAfterTwoLoads(log: RecoveryLog)
    requires |log| >= 2 && log[|log| - 1].call == log[|log| - 2].call == LoadForStop
    ensures Due(log) == None
  {}

  /** A granted action without a sequence is interrupted, budget or not, unless the process dies or a port raises. */
  lemma {:induction false} UnsequencedIsInterrupted(env: Environment, log: RecoveryLog, start: nat, i: nat)
    requires Recovered(env, log, start) && i < |log| && Unsequenced(log[i]) && Due(log) == None
    ensures RecoveryAsks(log).Some? && RecoveryAsks(log).value.1 == INTERRUPTED
  {
    UnsequencedLog(env, log, start, i);
    if |log| > i + 3 { UnsequencedSecondLoad(env, log, start, i); }
    var before := log[..|log| - 1];
    assert |log| >= i + 3;
    assert before[|before| - 1] == log[|log| - 2] && before[|before| - 2] == log[|log| - 3];
  }

  lemma {:induction false} StopIsAsked(log: RecoveryLog, s: RunState)
    requires Due(log) == Some(LoadForStop) && !ToBeOverruled(log)
    ensures var longer := log + [RecoveryEvent(LoadForStop, State(s))];
      RecoveryAsks(longer) == Some((s, ReasonDue(log))) && RecoveryPhase(longer) == RecoveryPhase(log)
  {
    var longer := log + [RecoveryEvent(LoadForStop, State(s))];
    assert longer[..|log|] == log;
    assert !Overruled(longer);
  }

  /** What an event adds to a log, where the event alone decides. */
  lemma {:induction false} OneMoreEvent(log: RecoveryLog, e: RecoveryEvent)
    ensures RecoveryPhase(log + [e]) == PhaseAfter(RecoveryPhase(log), e)
    ensures e.call !in {CheckBoundary, LoadForStop} ==> Due(log + [e]) == Next(e)
    ensures e.call != CheckBoundary ==> (RecoveryDone(log + [e]) <==> Enters(e))
  {
    assert (log + [e])[..|log|] == log;
  }

  lemma {:induction false} BoundaryEvent(log: RecoveryLog, goesOn: bool)
    requires log != [] && log[|log| - 1].answer.Decided?
    ensures var longer, drove := log + [RecoveryEvent(CheckBoundary, Flag(goesOn))], log[|log| - 1];
      && (RecoveryDone(longer) <==> goesOn && GoesOn(drove.answer.decision) && !Unsequenced(drove))
      && (DroveOn(longer) <==> RecoveryDone(longer))
      && Due(longer) == (if RecoveryDone(longer) then None else Some(LoadForStop))
      && (ToBeOverruled(longer) <==> !goesOn && Unsequenced(drove))
      && ReasonDue(longer) == (if !goesOn then BUDGET_STOP else if Unsequenced(drove) then INTERRUPTED
          else StopReasonFor(drove.answer.decision.stated))
  {}

  lemma {:induction false} OverruledEvent(log: RecoveryLog, s: RunState)
    requires ToBeOverruled(log)
    ensures var longer := log + [RecoveryEvent(LoadForStop, State(s))];
      Due(longer) == Some(LoadForStop) && !ToBeOverruled(longer) && !RecoveryDone(longer)
        && ReasonDue(longer) == INTERRUPTED
  {}

  lemma {:induction false} TurnEvent(log: RecoveryLog, s: RunState)
    ensures var longer := log + [RecoveryEvent(LoadTurn, State(s))] + [RecoveryEvent(RecoverTurn, Flag(false))];
      RecoveryAsks(longer) == Some((s, PAUSED))
  {}
}
