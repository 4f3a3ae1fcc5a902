/**
  Creating the worktree that reserves the target branch (src/apexcrew/domain/admission.py, lines 450-499 and
  581-661; src/apexcrew/domain/effects.py, lines 96-155). The journal and the worktree persist; what a delivery
  has observed is lost in a crash, which may come between any two steps. Git operations may fail before or
  after they take effect.
*/
module Reservations {

  // ---------- The worktree and what is seen of it ----------

  datatype World = World(registered: bool, present: bool, locked: bool, exact: bool, gitfileOnly: bool)

  const ABSENT := World(false, false, false, false, false)
  const REGISTERED := World(true, true, false, true, true)
  const LOCKED := World(true, true, true, true, true)

  datatype Observation = Observation(
    registrationPresent: bool,
    pathPresent: bool,
    locked: bool,
    exactIdentity: bool,
    gitfileOnly: bool,
    observable: bool)

  const BLIND := Observation(false, false, false, false, false, false)

  function Seen(w: World): Observation {
    Observation(w.registered, w.present, w.locked, w.exact, w.gitfileOnly, true)
  }

  datatype Next = ADD | LOCK | SETTLE | CONFLICT | UNOBSERVABLE

  function Classify(o: Observation): Next {
    if !o.observable then UNOBSERVABLE
    else if !o.registrationPresent && !o.pathPresent then ADD
    else if o.registrationPresent && o.pathPresent && o.exactIdentity && o.gitfileOnly && !o.locked then LOCK
    else if o.registrationPresent && o.pathPresent && o.exactIdentity && o.gitfileOnly && o.locked then SETTLE
    else CONFLICT
  }

  /**
    The three states of a worktree that nobody else touches, and only those, lead to a next operation or to success.
  */
  lemma {:induction false} ClassifyMeaning(w: World)
    ensures Classify(Seen(w)) == ADD <==> !w.registered && !w.present
    ensures Classify(Seen(w)) == LOCK <==> w == REGISTERED
    ensures Classify(Seen(w)) == SETTLE <==> w == LOCKED
    ensures Classify(Seen(w)) != UNOBSERVABLE
  {}

  // ---------- The protocol ----------

  datatype Journal = Allocated | IntentRecorded | RegisteredLocked | Indeterminate

  datatype Outcome = Created | Conflicting | Unobservable

  function OutcomeOf(next: Next): Outcome {
    match next
    case SETTLE => Created
    case CONFLICT => Conflicting
    case _ => Unobservable
  }

  function Settlement(outcome: Outcome): Journal {
    match outcome
    case Created => RegisteredLocked
    case Conflicting => Allocated
    case Unobservable => Indeterminate
  }

  /** How far the current delivery has come; `stage` tells which operations are already behind it. */
  datatype Position =
    | Idle
    | Checked(first: Observation)
    | Looking(stage: nat)
    | Decided(stage: nat, observed: Observation)
    | Rescuing
    | Ended(outcome: Outcome, last: Observation)

  datatype State = State(journal: Journal, world: World, at: Position)

  datatype Label =
    | Check
    | StopBeforeIntent
    | Reuse
    | RecordIntent
    | LoadIntent
    | Look
    | LookFails
    | Add
    | Lock
    | Conclude
    | Rescue
    | RescueFails
    | Settle
    | Crash
    | Environment

  predicate MayAdd(at: Position) { at.Decided? && at.stage == 0 && Classify(at.observed) == ADD }

  predicate MayLock(at: Position) { at.Decided? && at.stage <= 1 && Classify(at.observed) == LOCK }

  /** A Git operation that needs `pre` and leads to `post`: refused, done, or failed on either side of its effect. */
  predicate Operation(pre: bool, post: World, w: World, w': World, applied: bool) {
    if !pre then !applied && w' == w
    else if applied then w' == post
    else w' == w || w' == post
  }

  predicate IsAbsent(w: World) { !w.registered && !w.present }

  predicate Step(s: State, step: Label, t: State) {
    match step
    case Check =>
      && s.at == Idle && s.journal != Indeterminate && t.journal == s.journal && t.world == s.world
      && t.at.Checked? && t.at.first in {Seen(s.world), BLIND}
    case StopBeforeIntent =>
      && s.at.Checked? && t.world == s.world && t.at == Idle
      && ((s.journal == RegisteredLocked && Classify(s.at.first) != SETTLE)
        || (s.journal == Allocated && Classify(s.at.first) != ADD))
      && t.journal == (if s.at.first.observable then s.journal else Indeterminate)
    case Reuse =>
      s.at.Checked? && s.journal == RegisteredLocked && Classify(s.at.first) == SETTLE && t == s.(at := Idle)
    case RecordIntent =>
      s.at.Checked? && s.journal == Allocated && Classify(s.at.first) == ADD
        && t == State(IntentRecorded, s.world, Looking(0))
    case LoadIntent =>
      s.at.Checked? && s.journal == IntentRecorded && t == s.(at := Looking(0))
    case Look =>
      && s.at.Looking? && t.journal == s.journal && t.world == s.world && t.at.Decided?
      && t.at.stage == s.at.stage && t.at.observed in {Seen(s.world), BLIND}
    case LookFails => s.at.Looking? && t == s.(at := Rescuing)
    case Add =>
      && MayAdd(s.at) && t.journal == s.journal && t.at in {Looking(1), Rescuing}
      && Operation(IsAbsent(s.world), REGISTERED, s.world, t.world, t.at == Looking(1))
    case Lock =>
      && MayLock(s.at) && t.journal == s.journal && t.at in {Looking(2), Rescuing}
      && Operation(s.world == REGISTERED, LOCKED, s.world, t.world, t.at == Looking(2))
    case Conclude =>
      && s.at.Decided? && !MayAdd(s.at) && !MayLock(s.at)
      && t == s.(at := Ended(OutcomeOf(Classify(s.at.observed)), s.at.observed))
    case Rescue =>
      && s.at == Rescuing && t.journal == s.journal && t.world == s.world && t.at.Ended?
      && t.at.last in {Seen(s.world), BLIND} && t.at.outcome == OutcomeOf(Classify(t.at.last))
    case RescueFails => s.at == Rescuing && t == s.(at := Ended(Unobservable, BLIND))
    case Settle => s.at.Ended? && t == State(Settlement(s.at.outcome), s.world, Idle)
    case Crash => t == s.(at := Idle)
    case Environment => t.journal == s.journal && t.at == s.at
  }

  // ---------- Runs ----------

  datatype Move = Move(step: Label, to: State)

  function Last(s: State, moves: seq<Move>): State {
    if moves == [] then s else moves[|moves| - 1].to
  }

  function Front(moves: seq<Move>): seq<Move>
    requires moves != []
  {
    moves[..|moves| - 1]
  }

  predicate IsRun(s: State, moves: seq<Move>)
    decreases |moves|
  {
    moves == [] ||
    (IsRun(s, Front(moves)) && Step(Last(s, Front(moves)), moves[|moves| - 1].step, moves[|moves| - 1].to))
  }

  /** How often a step was taken, or was taken and changed the worktree. */
  function Count(s: State, moves: seq<Move>, step: Label, effective: bool): nat
    decreases |moves|
  {
    if moves == [] then 0
    else
      var (before, last) := (Last(s, Front(moves)), moves[|moves| - 1]);
      Count(s, Front(moves), step, effective) +
      if last.step == step && (effective ==> last.to.world != before.world) then 1 else 0
  }

  /** Nobody else touches the worktree. */
  predicate Undisturbed(s: State, moves: seq<Move>)
    decreases |moves|
  {
    moves == [] ||
    (Undisturbed(s, Front(moves)) &&
     (moves[|moves| - 1].step == Environment ==> moves[|moves| - 1].to.world == Last(s, Front(moves)).world))
  }

  // ---------- What every run keeps ----------

  /** An operation is under way only for a recorded intent, and an outcome is the one its last observation has. */
  predicate Sound(s: State) {
    && (s.at.Looking? || s.at.Decided? || s.at.Rescuing? || s.at.Ended? ==> s.journal == IntentRecorded)
    && (s.at.Checked? ==> s.journal != Indeterminate)
    && (s.at.Ended? ==> s.at.outcome == OutcomeOf(Classify(s.at.last)))
  }

  lemma {:induction false} RunIsSound(s: State, moves: seq<Move>)
    requires IsRun(s, moves) && Sound(s)
    ensures Sound(Last(s, moves))
    decreases |moves|
  {
    if moves != [] { RunIsSound(s, Front(moves)); }
  }

  /** Deliveries of the intent: each of them recorded it or loaded it. */
  function Deliveries(s: State, moves: seq<Move>): nat {
    Count(s, moves, RecordIntent, false) + Count(s, moves, LoadIntent, false)
  }

  /** Operations still ahead in the current delivery. */
  function AddsAhead(at: Position): nat {
    match at
    case Looking(stage) => if stage == 0 then 1 else 0
    case Decided(stage, _) => if stage == 0 then 1 else 0
    case _ => 0
  }

  function LocksAhead(at: Position): nat {
    match at
    case Looking(stage) => if stage <= 1 then 1 else 0
    case Decided(stage, _) => if stage <= 1 then 1 else 0
    case _ => 0
  }

  /** Every delivery asks for either operation at most once, whatever fails and whoever meddles. */
  lemma {:induction false} OnceEachPerDelivery(s: State, moves: seq<Move>)
    requires IsRun(s, moves) && s.at == Idle
    ensures Count(s, moves, Add, false) + AddsAhead(Last(s, moves).at) <= Deliveries(s, moves)
    ensures Count(s, moves, Lock, false) + LocksAhead(Last(s, moves).at) <= Deliveries(s, moves)
    decreases |moves|
  {
    if moves != [] { OnceEachPerDelivery(s, Front(moves)); }
  }

  /** How far the worktree has come, when only this protocol changes it. */
  function Progress(w: World): nat {
    if w == LOCKED then 2 else if w == REGISTERED then 1 else 0
  }

  predicate Ours(w: World) { w in {ABSENT, REGISTERED, LOCKED} }

  /** The invariant of undisturbed runs. */
  predicate Tracked(s: State) {
    && Sound(s) && Ours(s.world)
    && (s.journal == Allocated ==> s.world == ABSENT)
    && (s.journal == RegisteredLocked ==> s.world == LOCKED)
    && (s.at.Checked? ==> s.at.first in {BLIND, Seen(s.world)})
    && (s.at.Looking? && s.at.stage == 1 ==> s.world == REGISTERED)
    && (s.at.Looking? && s.at.stage >= 2 ==> s.world == LOCKED)
    && (s.at.Decided? ==> s.at.observed in {BLIND, Seen(s.world)})
    && (s.at.Ended? ==> s.at.last in {BLIND, Seen(s.world)})
  }

  lemma {:induction false} StepIsTracked(s: State, step: Label, t: State)
    requires Tracked(s) && Step(s, step, t) && (step == Environment ==> t.world == s.world)
    ensures Tracked(t)
    ensures Progress(t.world) == Progress(s.world) +
      (if (step == Add || step == Lock) && t.world != s.world then 1 else 0)
    ensures step == Add && t.world != s.world ==> s.world == ABSENT && t.world == REGISTERED
    ensures step == Lock && t.world != s.world ==> s.world == REGISTERED && t.world == LOCKED
  {
    ClassifyMeaning(s.world);
  }

  /**
    Over any number of deliveries, failures and crashes, an undisturbed worktree is added at most once and
    locked at most once, the lock only after the add, and a journaled success means that it is locked.
  */
  lemma {:induction false} OnceEachForever(s: State, moves: seq<Move>)
    requires s == State(Allocated, ABSENT, Idle) && IsRun(s, moves) && Undisturbed(s, moves)
    ensures Tracked(Last(s, moves))
    ensures var w := Last(s, moves).world;
      && Count(s, moves, Add, true) == (if w == ABSENT then 0 else 1)
      && Count(s, moves, Lock, true) == (if w == LOCKED then 1 else 0)
    decreases |moves|
  {
    if moves != [] {
      OnceEachForever(s, Front(moves));
      var last := moves[|moves| - 1];
      StepIsTracked(Last(s, Front(moves)), last.step, last.to);
    }
  }

  /** Once the journal is indeterminate, nothing is ever asked of Git again. */
  lemma {:induction false} IndeterminateIsClosed(s: State, moves: seq<Move>)
    requires IsRun(s, moves) && s.journal == Indeterminate && s.at == Idle
    ensures Last(s, moves).journal == Indeterminate && Last(s, moves).at == Idle
    ensures Count(s, moves, Add, false) == 0 && Count(s, moves, Lock, false) == 0
    decreases |moves|
  {
    if moves != [] { IndeterminateIsClosed(s, Front(moves)); }
  }

  /** At some moment of the run the worktree was registered and locked. */
  predicate EverLocked(s: State, moves: seq<Move>)
    decreases |moves|
  {
    Last(s, moves).world == LOCKED || (moves != [] && EverLocked(s, Front(moves)))
  }

  predicate Succeeding(s: State) {
    || s.journal == RegisteredLocked
    || (s.at.Decided? && Classify(s.at.observed) == SETTLE)
    || (s.at.Ended? && s.at.outcome == Created)
  }

  /** Success is journaled only if the worktree really was registered and locked, whoever meddles and whatever fails. */
  lemma {:induction false} SuccessWasReal(s: State, moves: seq<Move>)
    requires IsRun(s, moves) && s.journal != RegisteredLocked && s.at == Idle
    ensures Sound(Last(s, moves))
    ensures Succeeding(Last(s, moves)) ==> EverLocked(s, moves)
    decreases |moves|
  {
    if moves != [] {
      SuccessWasReal(s, Front(moves));
      ClassifyMeaning(Last(s, Front(moves)).world);
    }
  }

  // ---------- A delivery in which nothing fails ----------

  /** What an undisturbed delivery without faults makes of a state. */
  function Delivered(s: State): State {
    match s.journal
    case Indeterminate => s
    case RegisteredLocked => s
    case Allocated =>
      if Classify(Seen(s.world)) == ADD then State(RegisteredLocked, LOCKED, Idle) else s
    case IntentRecorded =>
      if Classify(Seen(s.world)) == CONFLICT then State(Allocated, s.world, Idle)
        else State(RegisteredLocked, LOCKED, Idle)
  }

  /** Whether it reports that the reservation is in place. */
  predicate Continues(s: State) {
    match s.journal
    case Indeterminate => false
    case RegisteredLocked => s.world == LOCKED
    case Allocated => IsAbsent(s.world)
    case IntentRecorded => Classify(Seen(s.world)) != CONFLICT
  }

  /** What the operations make of a worktree when nothing fails. */
  function Furthest(w: World): World {
    if Classify(Seen(w)) == CONFLICT then w else LOCKED
  }

  /** A good delivery reports success exactly when it leaves a journaled success and a locked worktree. */
  lemma {:induction false} ContinuesMeansLocked(s: State)
    requires Sound(s) && s.at == Idle && s.journal != Indeterminate
    ensures Continues(s) <==> Delivered(s) == State(RegisteredLocked, LOCKED, Idle)
  {
    ClassifyMeaning(s.world);
  }

  /** After any faults and crashes that left the intent open, one good delivery locks the worktree. */
  lemma {:induction false} RecoversUnlessClosed(s: State, moves: seq<Move>)
    requires s == State(Allocated, ABSENT, Idle) && IsRun(s, moves) && Undisturbed(s, moves)
    ensures Last(s, moves).at == Idle && Last(s, moves).journal != Indeterminate ==>
      Delivered(Last(s, moves)) == State(RegisteredLocked, LOCKED, Idle)
  {
    OnceEachForever(s, moves);
    ClassifyMeaning(Last(s, moves).world);
  }

  // ---------- The services ----------

  /** What happens to one call of a port. */
  datatype Fault = Works | FailsBefore | FailsAfter | Blinded

  /** What happens to each call of one delivery, and how many calls the process survives. */
  datatype Script = Script(fault: nat -> Fault, survives: nat)

  ghost predicate FaultFree(script: Script) {
    script.survives >= 6 && forall k: nat :: script.fault(k) == Works
  }

  datatype Decision = Continue | Pause | PauseIndeterminate | Died

  /** How a try block ends: with its last observation, with an effect error, or with the death of the process. */
  datatype Attempt = Complete(observed: Observation) | EffectError | Death

  /** The journal of a delivery that pauses. */
  function PausedIn(before: Journal, blindAtFirst: bool): Journal {
    if before != IntentRecorded && blindAtFirst then Indeterminate
    else if before == RegisteredLocked then RegisteredLocked
    else Allocated
  }

  class TargetReservationService {
    const script: Script
    var journal: Journal
    var world: World
    var calls: nat
    ghost const start: State
    ghost var moves: seq<Move>

    constructor (journal: Journal, world: World, script: Script)
      ensures this.journal == journal && this.world == world && this.script == script && calls == 0
      ensures start == State(journal, world, Idle) && moves == []
    {
      this.script := script;
      this.journal := journal;
      this.world := world;
      calls := 0;
      start := State(journal, world, Idle);
      moves := [];
    }

    /** The moves so far are a run of the protocol that has come to `at`. */
    ghost predicate Stands(at: Position)
      reads this
    {
      IsRun(start, moves) && Last(start, moves) == State(journal, world, at)
    }

    ghost method Record(step: Label, from: State, at: Position)
      requires IsRun(start, moves) && Last(start, moves) == from && Step(from, step, State(journal, world, at))
      modifies this`moves
      ensures Stands(at)
    {
      var longer := moves + [Move(step, State(journal, world, at))];
      assert Front(longer) == moves;
      moves := longer;
    }

    /** What a call gets to see of the world, or why it does not. */
    function ReplyTo(call: nat, w: World): Attempt {
      if script.survives <= call then Death
      else
        match script.fault(call)
        case Works => Complete(Seen(w))
        case Blinded => Complete(BLIND)
        case _ => EffectError
    }

    predicate Failed(call: nat) { call < script.survives && script.fault(call) !in {Works, Blinded} }

    /** All calls in between have returned. */
    ghost predicate AllReturned(from: nat, to: int) {
      forall k | from <= k < to :: k < script.survives && script.fault(k) in {Works, Blinded}
    }

    /** The observer: what the worktree looks like, or a refusal. */
    method Observe() returns (r: Attempt)
      modifies this`calls
      ensures calls == old(calls) + 1
      ensures r == ReplyTo(old(calls), world)
    {
      var fault := script.fault(calls);
      var alive := calls < script.survives;
      calls := calls + 1;
      if !alive { return Death; }
      match fault {
        case Works => return Complete(Seen(world));
        case Blinded => return Complete(BLIND);
        case _ => return EffectError;
      }
    }

    /** The Git port: the operation from `pre` to `post`. A process that dies may have changed the worktree first. */
    method Apply(pre: bool, post: World) returns (applied: bool, died: bool)
      modifies this`calls, this`world
      ensures Operation(pre, post, old(world), world, applied && !died)
      ensures calls == old(calls) + 1
      ensures died <==> script.survives <= old(calls)
      ensures applied <==> pre && script.fault(old(calls)) in {Works, Blinded}
    {
      var fault := script.fault(calls);
      died := calls >= script.survives;
      calls := calls + 1;
      if !pre || fault == FailsBefore { return false, died; }
      world := post;
      return fault != FailsAfter, died;
    }

    method LookAround(ghost stage: nat) returns (r: Attempt)
      requires Stands(Looking(stage))
      modifies this`calls, this`moves
      ensures calls == old(calls) + 1
      ensures r == Death ==> Stands(Idle)
      ensures r == EffectError ==> Stands(Rescuing)
      ensures r.Complete? ==> Stands(Decided(stage, r.observed))
      ensures r == ReplyTo(old(calls), world) && (r.Complete? ==> AllReturned(old(calls), calls))
    {
      ghost var here := State(journal, world, Looking(stage));
      r := Observe();
      match r {
        case Death => Record(Crash, here, Idle);
        case EffectError => Record(LookFails, here, Rescuing);
        case Complete(observed) => Record(Look, here, Decided(stage, observed));
      }
    }

    method AddWorktree(observed: Observation) returns (r: Attempt)
      requires Stands(Decided(0, observed)) && Classify(observed) == ADD
      modifies this`calls, this`moves, this`world
      ensures calls == old(calls) + 1
      ensures r == Death ==> Stands(Idle)
      ensures r == EffectError ==> Stands(Rescuing)
      ensures r.Complete? ==> Stands(Looking(1))
      ensures r == Death <==> script.survives <= old(calls)
      ensures IsAbsent(old(world)) ==> (r == EffectError <==> Failed(old(calls)))
      ensures r.Complete? ==> world == REGISTERED
    {
      ghost var here := State(journal, world, Decided(0, observed));
      var applied, died := Apply(IsAbsent(world), REGISTERED);
      r := if died then Death else if applied then Complete(observed) else EffectError;
      Record(Add, here, if r.Complete? then Looking(1) else Rescuing);
      if died { Record(Crash, State(journal, world, Rescuing), Idle); }
    }

    method LockWorktree(ghost stage: nat, observed: Observation) returns (r: Attempt)
      requires Stands(Decided(stage, observed)) && stage <= 1 && Classify(observed) == LOCK
      modifies this`calls, this`moves, this`world
      ensures calls == old(calls) + 1
      ensures r == Death ==> Stands(Idle)
      ensures r == EffectError ==> Stands(Rescuing)
      ensures r.Complete? ==> Stands(Looking(2))
      ensures r == Death <==> script.survives <= old(calls)
      ensures old(world) == REGISTERED ==> (r == EffectError <==> Failed(old(calls)))
      ensures r.Complete? ==> world == LOCKED
    {
      ghost var here := State(journal, world, Decided(stage, observed));
      var applied, died := Apply(world == REGISTERED, LOCKED);
      r := if died then Death else if applied then Complete(observed) else EffectError;
      Record(Lock, here, if r.Complete? then Looking(2) else Rescuing);
      if died { Record(Crash, State(journal, world, Rescuing), Idle); }
    }

    /** The body of the try block: each call but the last has returned, and the last decides how it ends. */
    method TryCreation() returns (r: Attempt)
      requires Stands(Looking(0))
      modifies this`calls, this`moves, this`world
      ensures r == Death ==> Stands(Idle)
      ensures r == EffectError ==> Stands(Rescuing)
      ensures r.Complete? ==> Stands(Ended(OutcomeOf(Classify(r.observed)), r.observed))
      ensures old(calls) < calls <= old(calls) + 5
      ensures r == ReplyTo(calls - 1, world) && AllReturned(old(calls), calls - 1)
      ensures FaultFree(script) && old(calls) <= 1 ==> r == Complete(Seen(world)) && world == Furthest(old(world))
    {
      ClassifyMeaning(world);
      ghost var stage, before := 0, calls;
      r := LookAround(0);
      if !r.Complete? { return; }
      if Classify(r.observed) == ADD {
        r := AddAndLook(r.observed);
        if !r.Complete? { return; }
        stage := 1;
      }
      r := FinishCreation(stage, r.observed, before);
    }

    /** The second half: lock the worktree if it is registered now, and conclude. */
    method FinishCreation(ghost stage: nat, observed: Observation, ghost before: nat) returns (r: Attempt)
      requires Stands(Decided(stage, observed)) && (if stage == 0 then Classify(observed) != ADD else stage == 1)
      requires before < calls && AllReturned(before, calls) && Complete(observed) == ReplyTo(calls - 1, world)
      modifies this`calls, this`moves, this`world
      ensures r == Death ==> Stands(Idle)
      ensures r == EffectError ==> Stands(Rescuing)
      ensures r.Complete? ==> Stands(Ended(OutcomeOf(Classify(r.observed)), r.observed))
      ensures old(calls) <= calls <= old(calls) + 2
      ensures r == ReplyTo(calls - 1, world) && AllReturned(before, calls - 1)
      ensures FaultFree(script) && old(calls) <= 4 ==>
        r == Complete(Seen(world)) && world == if old(world) == REGISTERED then LOCKED else old(world)
    {
      ClassifyMeaning(world);
      if Classify(observed) != LOCK {
        Record(Conclude, State(journal, world, Decided(stage, observed)),
          Ended(OutcomeOf(Classify(observed)), observed));
        return Complete(observed);
      }
      r := LockAndLook(stage, observed);
      if !r.Complete? { return; }
      Record(Conclude, State(journal, world, Decided(2, r.observed)),
        Ended(OutcomeOf(Classify(r.observed)), r.observed));
    }

    /** Add the worktree, and look again. */
    method AddAndLook(observed: Observation) returns (r: Attempt)
      requires Stands(Decided(0, observed)) && Classify(observed) == ADD && IsAbsent(world)
      modifies this`calls, this`moves, this`world
      ensures r == Death ==> Stands(Idle)
      ensures r == EffectError ==> Stands(Rescuing)
      ensures r.Complete? ==> Stands(Decided(1, r.observed)) && world == REGISTERED
      ensures old(calls) < calls <= old(calls) + 2
      ensures r == ReplyTo(calls - 1, world) && AllReturned(old(calls), if r.Complete? then calls else calls - 1)
    {
      r := AddWorktree(observed);
      if !r.Complete? { return; }
      r := LookAround(1);
    }

    /** Lock it, and look again. */
    method LockAndLook(ghost stage: nat, observed: Observation) returns (r: Attempt)
      requires Stands(Decided(stage, observed)) && stage <= 1 && Classify(observed) == LOCK && world == REGISTERED
      modifies this`calls, this`moves, this`world
      ensures r == Death ==> Stands(Idle)
      ensures r == EffectError ==> Stands(Rescuing)
      ensures r.Complete? ==> Stands(Decided(2, r.observed)) && world == LOCKED
      ensures old(calls) < calls <= old(calls) + 2
      ensures r == ReplyTo(calls - 1, world) && AllReturned(old(calls), if r.Complete? then calls else calls - 1)
    {
      r := LockWorktree(stage, observed);
      if !r.Complete? { return; }
      r := LookAround(2);
    }

    /**
      `execute_creation`: the outcome and the observation it rests on, or the death of the process. The outcome is
      blind only if the last observation was, or if it failed after a failure.
    */
    method ExecuteCreation() returns (r: Attempt)
      requires Stands(Looking(0))
      modifies this`calls, this`moves, this`world
      ensures r != EffectError
      ensures r == Death ==> Stands(Idle)
      ensures r.Complete? ==> Stands(Ended(OutcomeOf(Classify(r.observed)), r.observed))
      ensures old(calls) < calls <= old(calls) + 6
      ensures r == if Failed(calls - 1) then Complete(BLIND) else ReplyTo(calls - 1, world)
      ensures Failed(calls - 1) ==> calls >= old(calls) + 2 && Failed(calls - 2)
      ensures AllReturned(old(calls), calls - 2)
      ensures FaultFree(script) && old(calls) <= 1 ==> r == Complete(Seen(world)) && world == Furthest(old(world))
    {
      r := TryCreation();
      if r == EffectError {
        ghost var here := State(journal, world, Rescuing);
        r := Observe();
        match r {
          case Death => Record(Crash, here, Idle);
          case EffectError =>
            Record(RescueFails, here, Ended(Unobservable, BLIND));
            r := Complete(BLIND);
          case Complete(observed) =>
            Record(Rescue, here, Ended(OutcomeOf(Classify(observed)), observed));
        }
      }
    }

    /** Execute the recorded intent and settle it. */
    method DeliverIntent() returns (decision: Decision)
      requires Stands(Looking(0)) && journal == IntentRecorded
      modifies this
      ensures Stands(Idle) && calls > old(calls)
      ensures decision == Continue <==> journal == RegisteredLocked
      ensures decision == PauseIndeterminate <==> journal == Indeterminate
      ensures decision == Pause <==> journal == Allocated
      ensures decision == Died <==> journal == IntentRecorded
      ensures decision == Died <==> script.survives < calls
      ensures FaultFree(script) && old(calls) <= 1 ==>
        if Classify(Seen(old(world))) == CONFLICT then journal == Allocated && world == old(world) && decision == Pause
        else journal == RegisteredLocked && world == LOCKED && decision == Continue
    {
      var ended := ExecuteCreation();
      if ended == Death { return Died; }
      ClassifyMeaning(world);
      var outcome := OutcomeOf(Classify(ended.observed));
      ghost var here := State(journal, world, Ended(outcome, ended.observed));
      journal := Settlement(outcome);
      Record(Settle, here, Idle);
      decision := match outcome case Created => Continue case Conflicting => Pause case Unobservable =>
        PauseIndeterminate;
    }

    /** `initialize_target_reservation`: one delivery, a run of the protocol, and the good outcome if nothing fails. */
    method InitializeTargetReservation() returns (decision: Decision)
      requires Stands(Idle) && journal != Indeterminate
      modifies this
      ensures Stands(Idle) && calls > old(calls)
      ensures decision == Continue ==> journal == RegisteredLocked
      ensures decision == PauseIndeterminate ==> journal == Indeterminate
      ensures decision == Pause ==>
        journal == PausedIn(old(journal), calls == old(calls) + 1 && script.fault(old(calls)) == Blinded)
      ensures decision == Died ==> journal == if calls == old(calls) + 1 then old(journal) else IntentRecorded
      ensures decision == Died <==> script.survives < calls || (calls == old(calls) + 1 && Failed(old(calls)))
      ensures FaultFree(script) && old(calls) == 0 ==>
        State(journal, world, Idle) == Delivered(old(State(journal, world, Idle)))
      ensures FaultFree(script) && old(calls) == 0 ==> (decision == Continue <==>
        Continues(old(State(journal, world, Idle))))
    {
      ghost var idle := State(journal, world, Idle);
      var first := Observe();
      if !first.Complete? {
        Record(Crash, idle, Idle);
        return Died;
      }
      var o := first.observed;
      Record(Check, idle, Checked(o));
      ghost var checked := State(journal, world, Checked(o));
      if journal == RegisteredLocked && Classify(o) == SETTLE {
        Record(Reuse, checked, Idle);
        return Continue;
      }
      if journal == RegisteredLocked || (journal == Allocated && Classify(o) != ADD) {
        if !o.observable { journal := Indeterminate; }
        Record(StopBeforeIntent, checked, Idle);
        return Pause;
      }
      if journal == Allocated {
        journal := IntentRecorded;
        Record(RecordIntent, checked, Looking(0));
      } else {
        Record(LoadIntent, checked, Looking(0));
      }
      decision := DeliverIntent();
    }
  }
}
