/**
  Delivering one granted action (src/apexcrew/application/runtime.py, GrantedActionRuntime.execute).
  The journal and the world persist; what a delivery has loaded or observed is lost in a crash, which
  may come between any two steps. Deliveries of one run do not overlap: the run is owned while one is
  under way.
*/
module GrantedActions {
  import opened Wrappers
  import opened UnifiedDiff
  import opened GrantedWorkspace

  /** The intent's durable state. */
  datatype Journal = IntentRecorded | Dispatched | Settled | Indeterminate

  /** A determinate handler result, or an uncertain one (an INDETERMINATE result or a raised uncertainty). */
  datatype Reply = Success | Uncertain

  /** How far the current delivery has come, and what it knows. */
  datatype Delivery =
    | Idle
    | Loaded(intent: Journal)
    | Observed(intent: Journal, observation: Observation)
    | Cleared
    | Returned(reply: Reply)

  datatype State = State(journal: Journal, world: World, delivery: Delivery)

  datatype Label =
    | Load
    | ObserveAction
    | SettleObserved
    | MarkDispatched
    | ReuseDispatch
    | EnterHandler
    | SettleReturned
    | MarkIndeterminate
    | Crash
    | Environment

  /** The grant being delivered. */
  datatype Grant = Grant(action: Action, expected: PreState)

  predicate Unsettled(j: Journal) { j in {IntentRecorded, Dispatched} }

  /** What the handler may have done when it returns or raises. */
  predicate HandlerStep(g: Grant, w: World, w': World, reply: Reply) {
    var effect := Effect(g.action, g.expected, w);
    match reply
    case Success => effect == Some(w')
    case Uncertain => w' == w || effect == Some(w')
  }

  predicate Step(g: Grant, s: State, step: Label, t: State) {
    match step
    case Load =>
      s.delivery == Idle && Unsettled(s.journal) && t == s.(delivery := Loaded(s.journal))
    case ObserveAction =>
      && s.delivery.Loaded? && t.journal == s.journal && t.world == s.world
      && t.delivery.Observed? && t.delivery.intent == s.delivery.intent
      && t.delivery.observation in {Observe(g.action, g.expected, s.world), Unavailable}
    case SettleObserved =>
      && s.delivery.Observed? && s.delivery.observation == ExactPost
      && t == State(Settled, s.world, Idle)
    case MarkDispatched =>
      && s.delivery.Observed? && s.delivery.observation == ExactPre && s.delivery.intent == IntentRecorded
      && s.journal == IntentRecorded
      && t == State(Dispatched, s.world, Cleared)
    case ReuseDispatch =>
      && s.delivery.Observed? && s.delivery.observation == ExactPre && s.delivery.intent == Dispatched
      && t == s.(delivery := Cleared)
    case EnterHandler =>
      && s.delivery == Cleared && t.journal == s.journal && t.delivery.Returned?
      && HandlerStep(g, s.world, t.world, t.delivery.reply)
    case SettleReturned =>
      s.delivery == Returned(Success) && t == State(Settled, s.world, Idle)
    case MarkIndeterminate =>
      && (s.delivery == Returned(Uncertain) || (s.delivery.Observed? && s.delivery.observation in {Third, Unavailable}))
      && t == State(Indeterminate, s.world, Idle)
    case Crash => t == s.(delivery := Idle)
    case Environment => t.journal == s.journal && t.delivery == s.delivery
  }

  /** A run: `states[i]` becomes `states[i + 1]` by `labels[i]`. */
  datatype Run = Run(states: seq<State>, labels: seq<Label>)

  predicate IsRun(g: Grant, r: Run) {
    && |r.states| == |r.labels| + 1
    && (forall i | 0 <= i < |r.labels| :: Step(g, r.states[i], r.labels[i], r.states[i + 1]))
  }

  predicate StartsFresh(r: Run) {
    r.states != [] && r.states[0].journal == IntentRecorded && r.states[0].delivery == Idle
  }

  function Last(r: Run): State
    requires r.states != []
  {
    r.states[|r.states| - 1]
  }

  function WithoutLast(r: Run): Run
    requires r.labels != [] && |r.states| == |r.labels| + 1
  {
    Run(r.states[..|r.states| - 1], r.labels[..|r.labels| - 1])
  }

  /** How often the handler changed the world. */
  function Changes(r: Run): nat
    requires |r.states| == |r.labels| + 1
    decreases |r.labels|
  {
    if r.labels == [] then 0
    else
      var n := |r.labels|;
      Changes(WithoutLast(r)) + if r.labels[n - 1] == EnterHandler && r.states[n].world != r.states[n - 1].world then 1
        else 0
  }

  // ---------- What others may do to the workspace ----------

  /** Nobody else brings the pre-state back. */
  ghost predicate NobodyRestores(g: Grant, r: Run) {
    forall i | 0 <= i < |r.labels| && i + 1 < |r.states| :: r.labels[i] == Environment ==>
      (Observe(g.action, g.expected, r.states[i + 1].world) == ExactPre ==>
        Observe(g.action, g.expected, r.states[i].world) == ExactPre)
  }

  /** Nobody else undoes what the grant was for. */
  ghost predicate NobodyUndoes(g: Grant, r: Run) {
    forall i | 0 <= i < |r.labels| && i + 1 < |r.states| :: r.labels[i] == Environment ==>
      (Intended(g.action, g.expected, r.states[i].world) ==> Intended(g.action, g.expected, r.states[i + 1].world))
  }

  /** Nobody else touches the workspace at all. */
  ghost predicate NobodyInterferes(r: Run) {
    forall i | 0 <= i < |r.labels| && i + 1 < |r.states| :: r.labels[i] == Environment ==>
      r.states[i + 1].world == r.states[i].world
  }

  // ---------- Invariants ----------

  /** The dispatch is journaled before the handler is entered, and a closed intent has no delivery. */
  predicate JournalFirst(s: State) {
    && (s.delivery == Cleared || s.delivery.Returned? ==> s.journal == Dispatched)
    && (s.delivery.Loaded? || s.delivery.Observed? ==> s.delivery.intent == s.journal && Unsettled(s.journal))
  }

  lemma {:induction false} StepKeepsJournalFirst(g: Grant, s: State, step: Label, t: State)
    requires JournalFirst(s) && Step(g, s, step, t)
    ensures JournalFirst(t)
    ensures step == EnterHandler ==> s.journal == Dispatched
    ensures !Unsettled(s.journal) ==> t.journal == s.journal && (step == Crash || step == Environment)
  {}

  lemma {:induction false} RunKeepsJournalFirst(g: Grant, r: Run, i: nat)
    requires IsRun(g, r) && StartsFresh(r) && i < |r.states|
    ensures JournalFirst(r.states[i])
  {
    if i > 0 {
      RunKeepsJournalFirst(g, r, i - 1);
      StepKeepsJournalFirst(g, r.states[i - 1], r.labels[i - 1], r.states[i]);
    }
  }

  /** In every run, the handler is entered only under a journaled dispatch. */
  lemma {:induction false} DispatchIsJournaledFirst(g: Grant, r: Run, i: nat)
    requires IsRun(g, r) && StartsFresh(r) && i < |r.labels| && r.labels[i] == EnterHandler
    ensures r.states[i].journal == Dispatched
  {
    RunKeepsJournalFirst(g, r, i);
    StepKeepsJournalFirst(g, r.states[i], r.labels[i], r.states[i + 1]);
  }

  /** Once settled or indeterminate, an intent stays so, and no delivery of it does anything any more. */
  lemma {:induction false} ClosedIntentStaysClosed(g: Grant, r: Run, i: nat, j: nat)
    requires IsRun(g, r) && StartsFresh(r) && i <= j < |r.states|
    requires !Unsettled(r.states[i].journal)
    ensures r.states[j].journal == r.states[i].journal
    ensures j < |r.labels| ==> r.labels[j] == Crash || r.labels[j] == Environment
    decreases j - i
  {
    if i < j {
      ClosedIntentStaysClosed(g, r, i, j - 1);
      RunKeepsJournalFirst(g, r, j - 1);
      StepKeepsJournalFirst(g, r.states[j - 1], r.labels[j - 1], r.states[j]);
    }
    RunKeepsJournalFirst(g, r, j);
    if j < |r.labels| { StepKeepsJournalFirst(g, r.states[j], r.labels[j], r.states[j + 1]); }
  }

  // ---------- At most one change ----------

  /** After a change the world is not EXACT_PRE, and no delivery believes it is. */
  predicate NoSecondChance(g: Grant, s: State) {
    && Observe(g.action, g.expected, s.world) != ExactPre
    && s.delivery != Cleared
    && !(s.delivery.Observed? && s.delivery.observation == ExactPre)
  }

  lemma {:induction false} StepKeepsNoSecondChance(g: Grant, s: State, step: Label, t: State)
    requires NoSecondChance(g, s) && Step(g, s, step, t)
    requires step == Environment && Observe(g.action, g.expected, t.world) == ExactPre ==>
      Observe(g.action, g.expected, s.world) == ExactPre
    ensures NoSecondChance(g, t) && step != EnterHandler
  {}

  lemma {:induction false} ChangeEndsChances(g: Grant, s: State, t: State)
    requires Step(g, s, EnterHandler, t) && t.world != s.world
    ensures NoSecondChance(g, t)
  {
    ChangeLeavesPre(g.action, g.expected, s.world);
  }

  lemma {:induction false} PrefixIsRun(g: Grant, r: Run)
    requires IsRun(g, r) && r.labels != []
    ensures IsRun(g, WithoutLast(r)) && Last(WithoutLast(r)) == r.states[|r.labels| - 1]
    ensures StartsFresh(r) ==> StartsFresh(WithoutLast(r))
    ensures NobodyRestores(g, r) ==> NobodyRestores(g, WithoutLast(r))
    ensures NobodyUndoes(g, r) ==> NobodyUndoes(g, WithoutLast(r))
    ensures NobodyInterferes(r) ==> NobodyInterferes(WithoutLast(r))
  {}

  lemma {:induction false} ChangesAndChances(g: Grant, r: Run)
    requires IsRun(g, r) && NobodyRestores(g, r)
    ensures Changes(r) <= 1
    ensures Changes(r) == 1 ==> NoSecondChance(g, Last(r))
    decreases |r.labels|
  {
    if r.labels != [] {
      var n := |r.labels|;
      PrefixIsRun(g, r);
      ChangesAndChances(g, WithoutLast(r));
      var s, step, t := r.states[n - 1], r.labels[n - 1], r.states[n];
      assert Step(g, s, step, t);
      if Changes(WithoutLast(r)) == 1 {
        StepKeepsNoSecondChance(g, s, step, t);
      } else if step == EnterHandler && t.world != s.world {
        ChangeEndsChances(g, s, t);
      }
    }
  }

  /**
    Over all interleavings of deliveries, crashes and harmless interference the handler changes the world at most once.
  */
  lemma {:induction false} AtMostOneChange(g: Grant, r: Run)
    requires IsRun(g, r) && NobodyRestores(g, r)
    ensures Changes(r) <= 1
  {
    ChangesAndChances(g, r);
  }

  /** Nobody else makes the world changeable by the handler again. */
  ghost predicate NobodyRearms(g: Grant, worlds: seq<World>, byHandler: seq<bool>)
    requires |worlds| == |byHandler| + 1
  {
    forall i | 0 <= i < |byHandler| && !byHandler[i] ::
      CouldChange(g.action, g.expected, worlds[i + 1]) ==> CouldChange(g.action, g.expected, worlds[i])
  }

  /** A handler may do this to the world, whatever it replies. */
  predicate HandlerMay(g: Grant, w: World, w': World) {
    HandlerStep(g, w, w', Success) || HandlerStep(g, w, w', Uncertain)
  }

  /** Handler calls in any number, interleaved with what others do; of deliveries nothing is assumed. */
  ghost predicate IsHistory(g: Grant, worlds: seq<World>, byHandler: seq<bool>) {
    && |worlds| == |byHandler| + 1
    && forall i | 0 <= i < |byHandler| && byHandler[i] :: HandlerMay(g, worlds[i], worlds[i + 1])
  }

  lemma {:induction false} HandlerChanges(g: Grant, w: World, w': World)
    requires HandlerMay(g, w, w') && w' != w
    ensures CouldChange(g.action, g.expected, w) && Effect(g.action, g.expected, w) == Some(w')
  {}

  lemma {:induction false} StaysUnchangeable(g: Grant, worlds: seq<World>, byHandler: seq<bool>, i: nat, j: nat)
    requires IsHistory(g, worlds, byHandler) && NobodyRearms(g, worlds, byHandler) && i <= j < |worlds|
    requires !CouldChange(g.action, g.expected, worlds[i])
    ensures !CouldChange(g.action, g.expected, worlds[j])
    decreases j - i
  {
    if i < j {
      StaysUnchangeable(g, worlds, byHandler, i, j - 1);
      if byHandler[j - 1] && worlds[j] != worlds[j - 1] { HandlerChanges(g, worlds[j - 1], worlds[j]); }
    }
  }

  /** Even if deliveries overlap, and whatever they observed: handlers change the world at most once. */
  lemma {:induction false} OverlappingHandlersChangeOnce(g: Grant, worlds: seq<World>, byHandler: seq<bool>, i: nat,
      j: nat)
    requires IsHistory(g, worlds, byHandler) && NobodyRearms(g, worlds, byHandler)
    requires i < j < |byHandler| && byHandler[i] && byHandler[j] && worlds[i + 1] != worlds[i]
    ensures worlds[j + 1] == worlds[j]
  {
    HandlerChanges(g, worlds[i], worlds[i + 1]);
    ChangeIsFinal(g.action, g.expected, worlds[i]);
    StaysUnchangeable(g, worlds, byHandler, i + 1, j);
    if worlds[j + 1] != worlds[j] { HandlerChanges(g, worlds[j], worlds[j + 1]); }
  }

  // ---------- A success settlement is true ----------

  /** Wherever a success is known or recorded, the intended state holds. */
  predicate SuccessIsTrue(g: Grant, s: State) {
    (s.journal == Settled || s.delivery == Returned(Success)
      || (s.delivery.Observed? && s.delivery.observation == ExactPost))
      ==> Intended(g.action, g.expected, s.world)
  }

  lemma {:induction false} StepKeepsSuccessTrue(g: Grant, s: State, step: Label, t: State)
    requires JournalFirst(s) && SuccessIsTrue(g, s) && Step(g, s, step, t) && PostIsReliable(g.action)
    requires step == Environment && Intended(g.action, g.expected, s.world) ==> Intended(g.action, g.expected, t.world)
    ensures SuccessIsTrue(g, t)
  {
    if step == ObserveAction && t.delivery.observation == ExactPost {
      PostVerdictIsIntended(g.action, g.expected, s.world);
    }
    if step == EnterHandler && t.delivery.reply == Success { EffectIsIntended(g.action, g.expected, s.world); }
  }

  /** A settled intent has its intended state in the world, then and ever after. */
  lemma {:induction false} SettledIsIntended(g: Grant, r: Run, i: nat)
    requires IsRun(g, r) && StartsFresh(r) && NobodyUndoes(g, r) && PostIsReliable(g.action) && i < |r.states|
    ensures SuccessIsTrue(g, r.states[i])
    ensures r.states[i].journal == Settled ==> Intended(g.action, g.expected, r.states[i].world)
  {
    if i > 0 {
      SettledIsIntended(g, r, i - 1);
      RunKeepsJournalFirst(g, r, i - 1);
      StepKeepsSuccessTrue(g, r.states[i - 1], r.labels[i - 1], r.states[i]);
    }
  }

  ghost predicate SettlementsAreTrue(action: Action) {
    forall expected, r | IsRun(Grant(action, expected), r) && StartsFresh(r)
      && NobodyUndoes(Grant(action, expected), r) ::
      Last(r).journal == Settled ==> Intended(action, expected, Last(r).world)
  }

  /** A world observed as EXACT_POST is settled by the first delivery. */
  lemma {:induction false} PostIsSettled(g: Grant, w: World) returns (r: Run)
    requires Observe(g.action, g.expected, w) == ExactPost
    ensures IsRun(g, r) && StartsFresh(r) && NobodyInterferes(r) && Last(r) == State(Settled, w, Idle)
  {
    var start := State(IntentRecorded, w, Idle);
    var loaded, observed := start.(delivery := Loaded(IntentRecorded)),
      start.(delivery := Observed(IntentRecorded, ExactPost));
    r := Run([start, loaded, observed, State(Settled, w, Idle)], [Load, ObserveAction, SettleObserved]);
  }

  /**
    Success settlements of an action are true in every run in which nobody undoes it, if and only if it is
    not a patch, or a patch that changes back whatever its reversal yields.
  */
  lemma {:induction false} SettlementsAreTrueExactly(action: Action)
    ensures SettlementsAreTrue(action) <==> PostIsReliable(action)
  {
    if PostIsReliable(action) {
      forall expected, r | IsRun(Grant(action, expected), r) && StartsFresh(r)
        && NobodyUndoes(Grant(action, expected), r)
        ensures Last(r).journal == Settled ==> Intended(action, expected, Last(r).world)
      {
        SettledIsIntended(Grant(action, expected), r, |r.states| - 1);
      }
    } else {
      PostVerdictsAreRightExactly(action);
      var expected, w :| Observe(action, expected, w) == ExactPost && !Intended(action, expected, w);
      var r := PostIsSettled(Grant(action, expected), w);
      QuietRun(Grant(action, expected), r);
    }
  }

  // ---------- Exactly once ----------

  lemma {:induction false} ChangedByEffectOnly(g: Grant, r: Run)
    requires IsRun(g, r) && NobodyInterferes(r)
    ensures Changes(r) == 0 ==> Last(r).world == r.states[0].world
    ensures Changes(r) == 1 ==> Effect(g.action, g.expected, r.states[0].world) == Some(Last(r).world)
    decreases |r.labels|
  {
    if r.labels != [] {
      var n := |r.labels|;
      PrefixIsRun(g, r);
      ChangedByEffectOnly(g, WithoutLast(r));
      assert Step(g, r.states[n - 1], r.labels[n - 1], r.states[n]);
    }
  }

  /**
    With nobody else in the workspace, however often the delivery crashed: a settled intent whose goal
    was not reached already has changed the world exactly once, into the handler's effect on the
    world it started from.
  */
  lemma {:induction false} SettledOnceExactly(g: Grant, r: Run)
    requires IsRun(g, r) && StartsFresh(r) && NobodyInterferes(r) && PostIsReliable(g.action)
    requires Last(r).journal == Settled && !Intended(g.action, g.expected, r.states[0].world)
    ensures Changes(r) == 1
    ensures Effect(g.action, g.expected, r.states[0].world) == Some(Last(r).world)
  {
    QuietRun(g, r);
    SettledIsIntended(g, r, |r.states| - 1);
    AtMostOneChange(g, r);
    ChangedByEffectOnly(g, r);
  }

  lemma {:induction false} QuietRun(g: Grant, r: Run)
    requires NobodyInterferes(r)
    ensures NobodyRestores(g, r) && NobodyUndoes(g, r)
  {}

  // ---------- Recovery makes progress ----------

  /** A delivery without crash or fault, from the idle state. */
  function FaultFree(g: Grant, s: State): State
    requires s.delivery == Idle && Unsettled(s.journal)
  {
    match Observe(g.action, g.expected, s.world)
    case ExactPost => State(Settled, s.world, Idle)
    case ExactPre =>
      (match Effect(g.action, g.expected, s.world)
       case Some(w) => State(Settled, w, Idle)
       case None => State(Indeterminate, s.world, Idle))
    case _ => State(Indeterminate, s.world, Idle)
  }

  lemma {:induction false} ExecutedDelivery(g: Grant, s: State) returns (r: Run)
    requires s.delivery == Idle && Unsettled(s.journal) && Observe(g.action, g.expected, s.world) == ExactPre
    ensures IsRun(g, r) && r.states[0] == s && Last(r) == FaultFree(g, s)
  {
    var end := FaultFree(g, s);
    var loaded := s.(delivery := Loaded(s.journal));
    var observed := s.(delivery := Observed(s.journal, ExactPre));
    var cleared := State(Dispatched, s.world, Cleared);
    var clear := if s.journal == IntentRecorded then MarkDispatched else ReuseDispatch;
    var (reply, close) := if end.journal == Settled then (Success, SettleReturned) else (Uncertain, MarkIndeterminate);
    var returned := State(Dispatched, end.world, Returned(reply));
    assert Step(g, s, Load, loaded) && Step(g, loaded, ObserveAction, observed);
    assert Step(g, observed, clear, cleared) && Step(g, cleared, EnterHandler, returned);
    assert Step(g, returned, close, end);
    r := Run([s, loaded, observed, cleared, returned, end], [Load, ObserveAction, clear, EnterHandler, close]);
  }

  /** It is a run of the protocol. */
  lemma {:induction false} FaultFreeIsRun(g: Grant, s: State) returns (r: Run)
    requires s.delivery == Idle && Unsettled(s.journal)
    ensures IsRun(g, r) && r.states[0] == s && Last(r) == FaultFree(g, s)
  {
    var o := Observe(g.action, g.expected, s.world);
    if o == ExactPre {
      r := ExecutedDelivery(g, s);
    } else {
      var loaded := s.(delivery := Loaded(s.journal));
      var observed := s.(delivery := Observed(s.journal, o));
      var close := if o == ExactPost then SettleObserved else MarkIndeterminate;
      r := Run([s, loaded, observed, FaultFree(g, s)], [Load, ObserveAction, close]);
    }
  }

  /**
    A fault-free delivery settles the intent exactly if the world is post, or is pre and neither the bits have
    their granted value already nor is the grant for a patch that does not apply.
  */
  lemma {:induction false} FaultFreeSettlesExactly(g: Grant, s: State)
    requires s.delivery == Idle && Unsettled(s.journal)
    ensures FaultFree(g, s).journal == Settled <==>
      if IsPre(g.action, g.expected, s.world) then
        && !IsNoOp(g.action, g.expected, s.world)
        && !(g.action.operation.ProtectedPatch? && Apply(s.world[g.action.path].content, g.action.operation.diff).Err?)
      else IsPost(g.action, g.expected, s.world)
    ensures FaultFree(g, s).journal != Settled ==> FaultFree(g, s) == State(Indeterminate, s.world, Idle)
  {
    UnavailableExactly(g.action, g.expected, s.world);
  }

  // Granting a script the executable bits that it has: the first delivery ends the intent as INDETERMINATE.
  lemma {:induction false} NoOpGrantEndsIndeterminate()
    ensures var w := map["run.sh" := Entry(["true"], 0x1ED)];
      var g := Grant(Action("run.sh", SetExecutable(true)), PreState(Some(Digest(["true"])), Some(0x1ED), false));
      && Observe(g.action, g.expected, w) == Unavailable && Intended(g.action, g.expected, w)
      && FaultFree(g, State(IntentRecorded, w, Idle)) == State(Indeterminate, w, Idle)
  {
    var mode: Mode := 0x1ED;
    assert mode & EXECUTABLE_BITS != 0;
  }

  /**
    The delivery crashed after the handler had changed the world: the next one settles it without
    touching the world again, unless the change is one that recovery cannot recognise.
  */
  lemma {:induction false} CrashedChangeIsSettledExactly(g: Grant, w: World)
    requires Observe(g.action, g.expected, w) == ExactPre && EffectIsUndone(g.action)
    requires Effect(g.action, g.expected, w).Some? && Effect(g.action, g.expected, w).value != w
    ensures var after := Effect(g.action, g.expected, w).value;
      FaultFree(g, State(Dispatched, after, Idle)) ==
        State(if g.action.operation.SetExecutable? && g.expected.sourceMode.None? then Indeterminate
          else Settled, after, Idle)
  {
    EffectIsRecognisedExactly(g.action, g.expected, w);
    ChangeLeavesPre(g.action, g.expected, w);
  }

  // ---------- The runtime that does it ----------

  function Extend(r: Run, step: Label, t: State): Run {
    Run(r.states + [t], r.labels + [step])
  }

  lemma {:induction false} ExtendIsRun(g: Grant, r: Run, step: Label, t: State)
    requires IsRun(g, r) && Step(g, Last(r), step, t)
    ensures IsRun(g, Extend(r, step, t)) && Last(Extend(r, step, t)) == t
    ensures Extend(r, step, t).states[0] == r.states[0]
  {
    var e := Extend(r, step, t);
    forall i | 0 <= i < |e.labels| ensures Step(g, e.states[i], e.labels[i], e.states[i + 1]) {
      if i < |r.labels| { assert Step(g, r.states[i], r.labels[i], r.states[i + 1]); }
    }
  }

  /** What the handler's call to the operating system does. */
  datatype HandlerFault = TakesEffect | FailsBefore | FailsAfter

  /** Everything that may go wrong in one delivery; the process dies after `steps` steps. */
  datatype Faults = Faults(steps: nat, unobservable: bool, handler: HandlerFault)

  /** Nothing goes wrong before the intent is closed. */
  predicate Untroubled(faults: Faults) { faults.steps >= 4 && !faults.unobservable && faults.handler == TakesEffect }

  datatype Decision = ActionRecorded | StopIndeterminate | StateConflict | Died

  class GrantedActionRuntime {
    const grant: Grant
    var journal: Journal
    var world: World

    constructor (grant: Grant, world: World)
      ensures this.grant == grant && this.world == world && journal == IntentRecorded
    {
      this.grant := grant;
      this.world := world;
      this.journal := IntentRecorded;
    }

    function At(delivery: Delivery): State
      reads this
    {
      State(journal, world, delivery)
    }

    /** The call of the granted handler, as the operating system lets it happen. */
    method ExecuteGranted(fault: HandlerFault) returns (reply: Reply)
      modifies this`world
      ensures HandlerStep(grant, old(world), world, reply)
      ensures fault == TakesEffect ==>
        var effect := Effect(grant.action, grant.expected, old(world));
        if effect.Some? then reply == Success && world == effect.value else reply == Uncertain && world == old(world)
    {
      var effect := Effect(grant.action, grant.expected, world);
      if effect.None? || fault == FailsBefore { return Uncertain; }
      world := effect.value;
      reply := if fault == TakesEffect then Success else Uncertain;
    }

    /**
      `execute`: one delivery, a run of the protocol whatever goes wrong, and the fault-free outcome if nothing does.
    */
    method Execute(faults: Faults) returns (decision: Decision, ghost run: Run)
      modifies this
      ensures IsRun(grant, run) && run.states[0] == old(At(Idle)) && Last(run) == At(Idle)
      ensures decision == StateConflict <==> !Unsettled(old(journal))
      ensures decision == StateConflict ==> At(Idle) == old(At(Idle))
      ensures Unsettled(old(journal)) ==> (decision == ActionRecorded <==> journal == Settled)
      ensures Unsettled(old(journal)) ==> (decision == StopIndeterminate <==> journal == Indeterminate)
      ensures decision == Died ==> faults.steps < 4
      ensures Untroubled(faults) && Unsettled(old(journal)) ==> At(Idle) == FaultFree(grant, old(At(Idle)))
    {
      run := Run([At(Idle)], []);
      if !Unsettled(journal) { return StateConflict, run; }
      var intent := journal;
      run := Record(run, Load, Loaded(intent));
      if faults.steps < 1 { return Died, Record(run, Crash, Idle); }
      var observation := if faults.unobservable then Unavailable else Observe(grant.action, grant.expected, world);
      run := Record(run, ObserveAction, Observed(intent, observation));
      if faults.steps < 2 { return Died, Record(run, Crash, Idle); }
      if observation == ExactPost {
        journal := Settled;
        return ActionRecorded, Record(run, SettleObserved, Idle);
      }
      if observation != ExactPre {
        journal := Indeterminate;
        return StopIndeterminate, Record(run, MarkIndeterminate, Idle);
      }
      decision, run := Dispatch(intent, faults, run);
    }

    /** From an observed pre-state on: journal the dispatch, enter the handler, and close the intent. */
    method Dispatch(intent: Journal, faults: Faults, ghost before: Run) returns (decision: Decision, ghost run: Run)
      requires IsRun(grant, before) && Last(before) == At(Observed(intent, ExactPre))
      requires journal == intent && Unsettled(intent)
      modifies this
      ensures IsRun(grant, run) && run.states[0] == before.states[0] && Last(run) == At(Idle)
      ensures decision != StateConflict
      ensures decision == ActionRecorded <==> journal == Settled
      ensures decision == StopIndeterminate <==> journal == Indeterminate
      ensures decision == Died ==> faults.steps < 4
      ensures Untroubled(faults) && Observe(grant.action, grant.expected, old(world)) == ExactPre ==>
        At(Idle) == FaultFree(grant, old(At(Idle)))
    {
      run := before;
      if intent == IntentRecorded {
        journal := Dispatched;
        run := Record(run, MarkDispatched, Cleared);
      } else {
        run := Record(run, ReuseDispatch, Cleared);
      }
      if faults.steps < 3 { return Died, Record(run, Crash, Idle); }
      var reply := ExecuteGranted(faults.handler);
      run := Record(run, EnterHandler, Returned(reply));
      if faults.steps < 4 { return Died, Record(run, Crash, Idle); }
      if reply == Uncertain {
        journal := Indeterminate;
        return StopIndeterminate, Record(run, MarkIndeterminate, Idle);
      }
      journal := Settled;
      return ActionRecorded, Record(run, SettleReturned, Idle);
    }

    /** Add the present state to the run. */
    ghost function Record(run: Run, step: Label, delivery: Delivery): (longer: Run)
      requires IsRun(grant, run) && Step(grant, Last(run), step, At(delivery))
      reads this
      ensures IsRun(grant, longer) && Last(longer) == At(delivery) && longer.states[0] == run.states[0]
    {
      ExtendIsRun(grant, run, step, At(delivery));
      Extend(run, step, At(delivery))
    }
  }
}
