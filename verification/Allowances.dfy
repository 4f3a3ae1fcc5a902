/**
  How many model calls a task may be given (src/apexcrew/domain/authority.py, lines 1149-1165, 1656-1706,
  1745-1850 and 2266-2298). A journal adds the calls of a tranche to the allocated ones; whether it adds those of
  a resume as well is a parameter, and neither journal of the repository does
  (src/apexcrew/adapters/state/memory.py, lines 1724-1743, and src/apexcrew/adapters/state/sqlite.py, lines
  3153-3180).
*/
module Allowances {
  import opened Wrappers

  const TASK_CALL_CEILING := 48
  const TASK_ATTEMPT_CEILING := 5
  const STALE_REFRESH_CEILING := 3
  const MANUAL_RESUME_CEILING := 2
  const BOOTSTRAP_TRANCHE_CALLS := 8
  const BOOTSTRAP_TRANCHE_COUNT := 2
  const RENEWAL_TRANCHE_CALLS := 8

  function Min(a: int, b: int): int { if a <= b then a else b }

  // ---------- Progress ----------

  type Check = string

  datatype CheckSet = CheckSet(freshPasses: set<Check>, failures: set<Check>)

  datatype Lifecycle = ACTIVE | VERIFYING | CANDIDATE_READY | Elsewhere

  datatype Evidence = Evidence(previous: CheckSet, current: CheckSet, previousLifecycle: Lifecycle,
      currentLifecycle: Lifecycle)

  predicate CheckProgress(previous: CheckSet, current: CheckSet) {
    || (previous.freshPasses < current.freshPasses && current.failures <= previous.failures)
    || (current.failures < previous.failures && previous.freshPasses <= current.freshPasses)
  }

  predicate Progressed(e: Evidence) {
    CheckProgress(e.previous, e.current)
    || (e.previousLifecycle, e.currentLifecycle) in {(ACTIVE, VERIFYING), (VERIFYING, CANDIDATE_READY)}
  }

  /** Each observation progresses over the one before it, in one lifecycle state. */
  predicate IsChain(chain: seq<CheckSet>, lifecycle: Lifecycle) {
    forall i | 0 <= i < |chain| - 1 :: Progressed(Evidence(chain[i], chain[i + 1], lifecycle, lifecycle))
  }

  predicate Over(chain: seq<CheckSet>, checks: set<Check>) {
    forall c | c in chain :: c.freshPasses <= checks && c.failures <= checks
  }

  function Measure(c: CheckSet, checks: set<Check>): int { |c.freshPasses| + (|checks| - |c.failures|) }

  lemma {:induction false} SubsetSize<T>(a: set<T>, b: set<T>)
    requires a <= b
    ensures |a| <= |b| && (|a| == |b| <==> a == b)
  {
    assert b == a + (b - a);
    if a != b {
      var x :| x in b - a;
      assert |b - a| > 0;
    }
  }

  lemma {:induction false} ProgressRaisesMeasure(a: CheckSet, b: CheckSet, checks: set<Check>)
    requires CheckProgress(a, b)
    ensures Measure(a, checks) < Measure(b, checks)
  {
    SubsetSize(a.freshPasses, b.freshPasses);
    SubsetSize(b.failures, a.failures);
  }

  lemma {:induction false} ChainRaisesMeasure(chain: seq<CheckSet>, lifecycle: Lifecycle, checks: set<Check>)
    requires IsChain(chain, lifecycle) && chain != []
    ensures Measure(chain[0], checks) + |chain| - 1 <= Measure(chain[|chain| - 1], checks)
  {
    if |chain| > 1 {
      var n := |chain| - 1;
      assert Progressed(Evidence(chain[n - 1], chain[n], lifecycle, lifecycle));
      ProgressRaisesMeasure(chain[n - 1], chain[n], checks);
      ChainRaisesMeasure(chain[..n], lifecycle, checks);
    }
  }

  /** Checks alone show progress at most twice for each check of the set. */
  lemma {:induction false} ProgressChainsEnd(chain: seq<CheckSet>, lifecycle: Lifecycle, checks: set<Check>)
    requires IsChain(chain, lifecycle) && Over(chain, checks) && chain != []
    ensures |chain| - 1 <= 2 * |checks|
  {
    ChainRaisesMeasure(chain, lifecycle, checks);
    var first, last := chain[0], chain[|chain| - 1];
    assert first in chain && last in chain;
    SubsetSize(first.failures, checks);
    SubsetSize(last.freshPasses, checks);
  }

  /** And the bound is met: failures vanish one by one, then passes appear one by one. */
  lemma {:induction false} LongestProgressChain(checks: set<Check>, lifecycle: Lifecycle) returns (chain: seq<CheckSet>)
    ensures IsChain(chain, lifecycle) && Over(chain, checks) && |chain| == 2 * |checks| + 1
    ensures chain[0] == CheckSet({}, checks) && chain[|chain| - 1] == CheckSet(checks, {})
    decreases |checks|
  {
    if checks == {} {
      chain := [CheckSet({}, {})];
    } else {
      var c :| c in checks;
      var rest := checks - {c};
      var inner := LongestProgressChain(rest, lifecycle);
      chain := [CheckSet({}, checks)] + inner + [CheckSet(checks, {})];
      forall i | 0 <= i < |chain| - 1 ensures Progressed(Evidence(chain[i], chain[i + 1], lifecycle, lifecycle)) {
        if 0 < i < |chain| - 2 { assert Progressed(Evidence(inner[i - 1], inner[i], lifecycle, lifecycle)); }
      }
      assert forall k | k in inner :: k.freshPasses <= rest && k.failures <= rest;
    }
  }

  // ---------- Tranches ----------

  datatype TaskBudget = TaskBudget(
    allocatedCalls: nat,
    trancheCount: nat,
    bootstrapTranches: nat,
    consecutiveNoProgress: nat,
    attempts: nat,
    staleRefreshes: nat,
    manualResumes: nat,
    activeTrancheCalls: nat,
    consumedCalls: nat)

  const FRESH_TASK := TaskBudget(0, 0, 0, 0, 0, 0, 0, 0, 0)

  datatype TrancheReason = TaskCallCeiling | Bootstrap | NoProgress | ObjectiveProgress

  datatype Tranche = Tranche(calls: nat, reason: TrancheReason)

  function TrancheFor(state: TaskBudget, progressed: bool): Tranche {
    var remaining := TASK_CALL_CEILING - state.allocatedCalls;
    if remaining <= 0 then Tranche(0, TaskCallCeiling)
    else if state.bootstrapTranches < BOOTSTRAP_TRANCHE_COUNT
      then Tranche(Min(BOOTSTRAP_TRANCHE_CALLS, remaining), Bootstrap)
    else if !progressed then Tranche(0, NoProgress)
    else Tranche(Min(RENEWAL_TRANCHE_CALLS, remaining), ObjectiveProgress)
  }

  /** What the journal makes of a tranche. */
  function AfterTranche(state: TaskBudget, t: Tranche): TaskBudget {
    if t.calls == 0 then
      state.(consecutiveNoProgress := state.consecutiveNoProgress + if t.reason == NoProgress then 1 else 0)
    else
      state.(allocatedCalls := state.allocatedCalls + t.calls,
             trancheCount := state.trancheCount + 1,
             bootstrapTranches := state.bootstrapTranches + (if t.reason == Bootstrap then 1 else 0),
             consecutiveNoProgress := if t.reason == ObjectiveProgress then 0 else state.consecutiveNoProgress,
             activeTrancheCalls := t.calls)
  }

  // ---------- Capacity ----------

  datatype Metric = ActiveRunSeconds | Tasks | PlanningRequests | ModelCalls | InputTokens | OutputTokens
      | CostReserveUsd | ConcurrentWorkers

  const METRICS := [ActiveRunSeconds, Tasks, PlanningRequests, ModelCalls, InputTokens, OutputTokens, CostReserveUsd,
    ConcurrentWorkers]

  function Maximum(m: Metric): real {
    match m
    case ActiveRunSeconds => 28_800.0
    case Tasks => 12.0
    case PlanningRequests => 8.0
    case ModelCalls => 240.0
    case InputTokens => 2_000_000.0
    case OutputTokens => 200_000.0
    case CostReserveUsd => 10.0
    case ConcurrentWorkers => 3.0
  }

  /** What has been used, or the ceilings of a budget revision. */
  type Table = Metric -> real

  predicate TaskCapReached(state: TaskBudget) {
    state.allocatedCalls >= TASK_CALL_CEILING || state.attempts >= TASK_ATTEMPT_CEILING
    || state.staleRefreshes >= STALE_REFRESH_CEILING || state.manualResumes >= MANUAL_RESUME_CEILING
  }

  predicate AtMaximum(usage: Table, m: Metric) { usage(m) >= Maximum(m) }

  predicate AtCeiling(usage: Table, ceilings: Table, m: Metric) { !AtMaximum(usage, m) && usage(m) >= ceilings(m) }

  function MaximumTest(usage: Table): Metric -> bool { m => AtMaximum(usage, m) }

  function CeilingTest(usage: Table, ceilings: Table): Metric -> bool { m => AtCeiling(usage, ceilings, m) }

  datatype Capacity = Available | CurrentRevisionCeiling(metrics: seq<Metric>) | FixedMaximum(metrics: seq<Metric>)

  /** Which metrics have no room, in the order of the metrics. */
  predicate Lists(listed: seq<Metric>, all: seq<Metric>, keep: Metric -> bool) {
    if all == [] then listed == []
    else if keep(all[|all| - 1]) then
      listed != [] && listed[|listed| - 1] == all[|all| - 1] && Lists(listed[..|listed| - 1], all[..|all| - 1], keep)
    else Lists(listed, all[..|all| - 1], keep)
  }

  lemma {:induction false} ListsExactly(listed: seq<Metric>, all: seq<Metric>, keep: Metric -> bool, m: Metric)
    requires Lists(listed, all, keep)
    ensures m in listed <==> m in all && keep(m)
  {
    if all != [] {
      var n := |all| - 1;
      var before := all[..n];
      assert all == before + [all[n]];
      if keep(all[n]) {
        ListsExactly(listed[..|listed| - 1], before, keep, m);
        assert listed == listed[..|listed| - 1] + [all[n]];
      } else {
        ListsExactly(listed, before, keep, m);
      }
    }
  }

  /** The loop: which metrics have reached their fixed maximum, and which of the others the ceiling of the revision. */
  method CollectMetrics(usage: Table, ceilings: Table)
    returns (fixedMetrics: seq<Metric>, revisionMetrics: seq<Metric>)
    ensures Lists(fixedMetrics, METRICS, MaximumTest(usage))
    ensures Lists(revisionMetrics, METRICS, CeilingTest(usage, ceilings))
  {
    fixedMetrics, revisionMetrics := [], [];
    for i := 0 to |METRICS|
      invariant Lists(fixedMetrics, METRICS[..i], MaximumTest(usage))
      invariant Lists(revisionMetrics, METRICS[..i], CeilingTest(usage, ceilings))
    {
      var metric := METRICS[i];
      assert METRICS[..i + 1][..i] == METRICS[..i];
      if usage(metric) >= Maximum(metric) {
        fixedMetrics := fixedMetrics + [metric];
      } else if usage(metric) >= ceilings(metric) {
        revisionMetrics := revisionMetrics + [metric];
      }
    }
    assert METRICS[..|METRICS|] == METRICS;
  }

  method AssessCapacity(state: TaskBudget, usage: Table, ceilings: Table) returns (capacity: Capacity)
    ensures TaskCapReached(state) ==> capacity == FixedMaximum([])
    ensures !TaskCapReached(state) && capacity.FixedMaximum? ==>
      capacity.metrics != [] && Lists(capacity.metrics, METRICS, MaximumTest(usage))
    ensures capacity.CurrentRevisionCeiling? ==>
      capacity.metrics != [] && Lists(capacity.metrics, METRICS, CeilingTest(usage, ceilings))
    ensures capacity.FixedMaximum? <==> TaskCapReached(state) || exists m :: AtMaximum(usage, m)
    ensures capacity == Available <==> !TaskCapReached(state) && forall m ::
      usage(m) < Maximum(m) && usage(m) < ceilings(m)
  {
    if TaskCapReached(state) { return FixedMaximum([]); }
    var fixedMetrics, revisionMetrics := CollectMetrics(usage, ceilings);
    ListedMeaning(fixedMetrics, MaximumTest(usage));
    ListedMeaning(revisionMetrics, CeilingTest(usage, ceilings));
    if fixedMetrics != [] {
      assert AtMaximum(usage, fixedMetrics[0]);
      return FixedMaximum(fixedMetrics);
    }
    if revisionMetrics != [] {
      assert AtCeiling(usage, ceilings, revisionMetrics[0]);
      assert forall m :: !MaximumTest(usage)(m) ==> !AtMaximum(usage, m);
      return CurrentRevisionCeiling(revisionMetrics);
    }
    forall m ensures usage(m) < Maximum(m) && usage(m) < ceilings(m) {
      assert !MaximumTest(usage)(m) && !CeilingTest(usage, ceilings)(m);
    }
    return Available;
  }

  lemma {:induction false} ListedMeaning(listed: seq<Metric>, keep: Metric -> bool)
    requires Lists(listed, METRICS, keep)
    ensures listed == [] ==> forall m :: !keep(m)
    ensures listed != [] ==> keep(listed[0])
  {
    forall m ensures m in listed <==> keep(m) {
      EveryMetric(m);
      ListsExactly(listed, METRICS, keep, m);
    }
    if listed != [] { assert listed[0] in listed; }
  }

  lemma {:induction false} EveryMetric(m: Metric)
    ensures m in METRICS
  {
    match m {
      case ActiveRunSeconds => assert METRICS[0] == m;
      case Tasks => assert METRICS[1] == m;
      case PlanningRequests => assert METRICS[2] == m;
      case ModelCalls => assert METRICS[3] == m;
      case InputTokens => assert METRICS[4] == m;
      case OutputTokens => assert METRICS[5] == m;
      case CostReserveUsd => assert METRICS[6] == m;
      case ConcurrentWorkers => assert METRICS[7] == m;
    }
  }

  // ---------- Resuming by hand ----------

  datatype PauseReason =
    | NO_PROGRESS | REPEATED_CHECKPOINT | REPEATED_INVALID_ACTION
    | CONTEXT_OVERFLOW | SCOPE_EXPANSION_REQUIRED | RUN_CHECK_FAILED | FROZEN_BINDING_MISMATCH
    | LOWERED_BUDGET_CEILING | CHECK_INFRASTRUCTURE_UNCERTAINTY | OTHER

  datatype Exhaustion = Exhaustion(metric: Metric, ceiling: real)

  datatype Pause = Pause(reason: PauseReason, budgetDigest: string, exhaustions: seq<Exhaustion>)

  datatype Denial =
    | ManualResumeCapReached | NonRaiseableCapReached | HigherApprovedBudgetRequired | TaskPauseNotResumable
    | InfrastructureCauseNotRepaired | UnknownTaskPauseReason

  predicate DirectlyResumable(r: PauseReason) { r in {NO_PROGRESS, REPEATED_CHECKPOINT, REPEATED_INVALID_ACTION} }

  predicate NonResumable(r: PauseReason) {
    r in {CONTEXT_OVERFLOW, SCOPE_EXPANSION_REQUIRED, RUN_CHECK_FAILED, FROZEN_BINDING_MISMATCH}
  }

  /** What the service knows when it decides: the approved budget, what has been used, and whether a repair was seen. */
  datatype Situation = Situation(budgetDigest: string, ceilings: Table, usage: Table, repaired: bool)

  predicate HigherBudgetRestores(pause: Pause, s: Situation) {
    && s.budgetDigest != pause.budgetDigest && pause.exhaustions != []
    && forall e | e in pause.exhaustions :: s.ceilings(e.metric) > e.ceiling && s.usage(e.metric) < s.ceilings(e.metric)
  }

  ghost predicate SomeAtMaximum(s: Situation) { exists m :: AtMaximum(s.usage, m) }

  ghost predicate SomeAtCeiling(s: Situation) { exists m :: AtCeiling(s.usage, s.ceilings, m) }

  /** When a paused task may be resumed. */
  ghost predicate MayResume(pause: Pause, state: TaskBudget, s: Situation) {
    && !TaskCapReached(state) && !SomeAtMaximum(s)
    && if SomeAtCeiling(s) || pause.reason == LOWERED_BUDGET_CEILING then HigherBudgetRestores(pause, s)
       else DirectlyResumable(pause.reason) || (pause.reason == CHECK_INFRASTRUCTURE_UNCERTAINTY && s.repaired)
  }

  method ResumeDenial(pause: Pause, state: TaskBudget, s: Situation) returns (denial: Option<Denial>)
    ensures denial == None <==> MayResume(pause, state, s)
    ensures denial == Some(ManualResumeCapReached) <==>
      (TaskCapReached(state) || SomeAtMaximum(s)) && state.manualResumes >= MANUAL_RESUME_CEILING
    ensures denial == Some(NonRaiseableCapReached) <==>
      (TaskCapReached(state) || SomeAtMaximum(s)) && state.manualResumes < MANUAL_RESUME_CEILING
    ensures denial == Some(TaskPauseNotResumable) ==> NonResumable(pause.reason)
  {
    var capacity := AssessCapacity(state, s.usage, s.ceilings);
    if capacity.FixedMaximum? {
      return Some(if state.manualResumes >= MANUAL_RESUME_CEILING then ManualResumeCapReached
        else NonRaiseableCapReached);
    }
    CeilingMeansListed(capacity, s);
    if capacity.CurrentRevisionCeiling? || pause.reason == LOWERED_BUDGET_CEILING {
      return if HigherBudgetRestores(pause, s) then None else Some(HigherApprovedBudgetRequired);
    }
    if NonResumable(pause.reason) { return Some(TaskPauseNotResumable); }
    if pause.reason == CHECK_INFRASTRUCTURE_UNCERTAINTY {
      return if s.repaired then None else Some(InfrastructureCauseNotRepaired);
    }
    if !DirectlyResumable(pause.reason) { return Some(UnknownTaskPauseReason); }
    return None;
  }

  lemma {:induction false} CeilingMeansListed(capacity: Capacity, s: Situation)
    requires capacity == Available ==> forall m :: s.usage(m) < Maximum(m) && s.usage(m) < s.ceilings(m)
    requires capacity.CurrentRevisionCeiling? ==>
      capacity.metrics != [] && Lists(capacity.metrics, METRICS, CeilingTest(s.usage, s.ceilings))
    requires !capacity.FixedMaximum?
    ensures capacity.CurrentRevisionCeiling? <==> SomeAtCeiling(s)
  {
    if capacity.CurrentRevisionCeiling? {
      var m := capacity.metrics[0];
      assert m in capacity.metrics;
      ListsExactly(capacity.metrics, METRICS, CeilingTest(s.usage, s.ceilings), m);
      assert AtCeiling(s.usage, s.ceilings, m);
    }
  }

  predicate WasExhausted(pause: Pause, m: Metric) { exists e | e in pause.exhaustions :: e.metric == m }

  /**
    A resumed task has room in every metric exactly if no metric other than those that ran out when it was
    paused is at its ceiling: only the latter are looked at when a higher budget is approved.
  */
  lemma {:induction false} ResumedHasCapacityExactly(pause: Pause, state: TaskBudget, s: Situation)
    requires MayResume(pause, state, s)
    ensures (forall m :: s.usage(m) < Maximum(m) && s.usage(m) < s.ceilings(m)) <==>
      (forall m :: AtCeiling(s.usage, s.ceilings, m) ==> WasExhausted(pause, m))
  {
    forall m | AtCeiling(s.usage, s.ceilings, m) ensures !WasExhausted(pause, m) {
      assert SomeAtCeiling(s);
    }
    forall m ensures (s.usage(m) < Maximum(m) && s.usage(m) < s.ceilings(m)) == !AtCeiling(s.usage, s.ceilings, m) {
      assert !AtMaximum(s.usage, m);
    }
  }

  /** And it need not have: calls ran out and were raised, but the tokens have run out since. */
  lemma {:induction false} ResumedWithoutCapacity()
    ensures var pause := Pause(NO_PROGRESS, "old", [Exhaustion(ModelCalls, 1.0)]);
      var s := Situation("new", m => 2.0, m => if m == InputTokens then 2.0 else 0.0, false);
      MayResume(pause, FRESH_TASK, s) && AtCeiling(s.usage, s.ceilings, InputTokens)
  {
    var pause := Pause(NO_PROGRESS, "old", [Exhaustion(ModelCalls, 1.0)]);
    var s := Situation("new", m => 2.0, m => if m == InputTokens then 2.0 else 0.0, false);
    assert "old" != "new" by { assert "old"[0] != "new"[0]; }
    assert AtCeiling(s.usage, s.ceilings, InputTokens);
    assert HigherBudgetRestores(pause, s);
  }

  function ResumeCalls(state: TaskBudget): nat {
    var remaining := TASK_CALL_CEILING - state.allocatedCalls;
    if remaining <= 0 then 0 else Min(RENEWAL_TRANCHE_CALLS, remaining)
  }

  /** What a journal makes of an accepted resume. */
  function AfterResume(state: TaskBudget, countsResumes: bool): TaskBudget {
    state.(manualResumes := state.manualResumes + 1,
           allocatedCalls := state.allocatedCalls + if countsResumes then ResumeCalls(state) else 0)
  }

  // ---------- A task's whole life ----------

  datatype Event =
    | AllocateTranche(evidence: Evidence)
    | ResumeTask(pause: Pause, situation: Situation)
    | StartCall
    | StartAttempt
    | RefreshStale

  /** What an event grants: nothing, or some calls. */
  ghost function Grant(state: TaskBudget, e: Event): nat {
    match e
    case AllocateTranche(evidence) => TrancheFor(state, Progressed(evidence)).calls
    case ResumeTask(pause, situation) => if MayResume(pause, state, situation) then ResumeCalls(state) else 0
    case _ => 0
  }

  /** A call is made only from the active tranche. */
  ghost function After(state: TaskBudget, e: Event, countsResumes: bool): TaskBudget {
    match e
    case AllocateTranche(evidence) => AfterTranche(state, TrancheFor(state, Progressed(evidence)))
    case ResumeTask(pause, situation) =>
      if MayResume(pause, state, situation) then AfterResume(state, countsResumes) else state
    case StartCall =>
      if state.activeTrancheCalls == 0 then state
      else state.(activeTrancheCalls := state.activeTrancheCalls - 1, consumedCalls := state.consumedCalls + 1)
    case StartAttempt => state.(attempts := state.attempts + 1)
    case RefreshStale => state.(staleRefreshes := state.staleRefreshes + 1)
  }

  ghost function Life(events: seq<Event>, countsResumes: bool): TaskBudget {
    if events == [] then FRESH_TASK
    else After(Life(events[..|events| - 1], countsResumes), events[|events| - 1], countsResumes)
  }

  /** What the last event has granted. */
  ghost function LastGrant(events: seq<Event>, countsResumes: bool): nat
    requires events != []
  {
    Grant(Life(events[..|events| - 1], countsResumes), events[|events| - 1])
  }

  /** The grants that gave at least one call. */
  ghost function Grants(events: seq<Event>, countsResumes: bool): nat {
    if events == [] then 0
    else Grants(events[..|events| - 1], countsResumes) + if LastGrant(events, countsResumes) > 0 then 1 else 0
  }

  ghost function GrantedCalls(events: seq<Event>, countsResumes: bool): nat {
    if events == [] then 0
    else GrantedCalls(events[..|events| - 1], countsResumes) + LastGrant(events, countsResumes)
  }

  /** Tranches and resumes come in eights, and the allocated calls are those that the journal counts. */
  ghost predicate WithinAllowance(state: TaskBudget, calls: nat, grants: nat, countsResumes: bool) {
    && calls == 8 * grants
    && calls == state.allocatedCalls + (if countsResumes then 0 else 8 * state.manualResumes)
    && state.allocatedCalls <= TASK_CALL_CEILING
    && state.bootstrapTranches <= BOOTSTRAP_TRANCHE_COUNT && state.manualResumes <= MANUAL_RESUME_CEILING
  }

  lemma {:induction false} EventKeepsAllowance(state: TaskBudget, calls: nat, grants: nat, e: Event,
      countsResumes: bool)
    requires WithinAllowance(state, calls, grants, countsResumes)
    ensures var granted := Grant(state, e);
      WithinAllowance(After(state, e, countsResumes), calls + granted, grants + if granted > 0 then 1
        else 0, countsResumes)
  {
    if e.AllocateTranche? || e.ResumeTask? { assert state.allocatedCalls % 8 == 0; }
  }

  /**
    Whatever tranches and resumes are asked for, each grant is of eight calls, at most two are for bootstrapping
    and two by hand. With a journal that counts resumed calls they are at most six, of 48 calls in all; with one
    that does not, at most eight, of 64.
  */
  lemma {:induction false} AllowanceIsBounded(events: seq<Event>, countsResumes: bool)
    ensures var calls, grants := GrantedCalls(events, countsResumes), Grants(events, countsResumes);
      && WithinAllowance(Life(events, countsResumes), calls, grants, countsResumes)
      && (if countsResumes then calls <= 48 && grants <= 6 else calls <= 64 && grants <= 8)
  {
    if events != [] {
      var before := events[..|events| - 1];
      AllowanceIsBounded(before, countsResumes);
      EventKeepsAllowance(Life(before, countsResumes), GrantedCalls(before, countsResumes),
        Grants(before, countsResumes),
        events[|events| - 1], countsResumes);
    }
  }

  /** The calls that a task makes stay within the ceiling with either journal: they come out of its tranches. */
  lemma {:induction false} CallsMadeAreBounded(events: seq<Event>, countsResumes: bool)
    ensures var state := Life(events, countsResumes);
      state.consumedCalls + state.activeTrancheCalls <= state.allocatedCalls <= TASK_CALL_CEILING
  {
    AllowanceIsBounded(events, countsResumes);
    if events != [] { CallsMadeAreBounded(events[..|events| - 1], countsResumes); }
  }

  // ---------- The bound of a journal that does not count resumes is met ----------

  lemma {:induction false} OneMore(events: seq<Event>, e: Event)
    ensures Life(events + [e], false) == After(Life(events, false), e, false)
    ensures GrantedCalls(events + [e], false) == GrantedCalls(events, false) + Grant(Life(events, false), e)
  {
    assert (events + [e])[..|events|] == events;
  }

  const VERIFYING_STARTED := Evidence(CheckSet({}, {}), CheckSet({}, {}), ACTIVE, VERIFYING)

  /** A tranche is granted on progress, and its eight calls are made. */
  lemma {:induction false} UsedTranche(events: seq<Event>) returns (longer: seq<Event>)
    requires Life(events, false).allocatedCalls <= 40
    ensures Life(longer, false).allocatedCalls == Life(events, false).allocatedCalls + 8
    ensures Life(longer, false).activeTrancheCalls == 0
    ensures GrantedCalls(longer, false) == GrantedCalls(events, false) + 8
    ensures TaskCapReached(Life(longer, false)) ==>
      Life(longer, false).allocatedCalls >= TASK_CALL_CEILING || TaskCapReached(Life(events, false))
    ensures Life(longer, false).manualResumes == Life(events, false).manualResumes
  {
    OneMore(events, AllocateTranche(VERIFYING_STARTED));
    longer := events + [AllocateTranche(VERIFYING_STARTED)];
    var granted := Life(longer, false);
    for made := 0 to 8
      invariant Life(longer, false) ==
        granted.(activeTrancheCalls := 8 - made, consumedCalls := granted.consumedCalls + made)
      invariant GrantedCalls(longer, false) == GrantedCalls(events, false) + 8
    {
      OneMore(longer, StartCall);
      longer := longer + [StartCall];
    }
  }

  lemma {:induction false} AcceptedResume(events: seq<Event>) returns (longer: seq<Event>)
    requires Life(events, false).allocatedCalls <= 40 && !TaskCapReached(Life(events, false))
    ensures Life(longer, false) == AfterResume(Life(events, false), false)
    ensures GrantedCalls(longer, false) == GrantedCalls(events, false) + 8
  {
    var e := ResumeTask(Pause(NO_PROGRESS, "", []), Situation("", _ => 1.0, _ => 0.0, false));
    assert MayResume(e.pause, Life(events, false), e.situation);
    OneMore(events, e);
    longer := events + [e];
  }

  /** Five tranches that are used up, two resumes, and one more tranche: 64 calls in eight grants. */
  lemma {:induction false} SixtyFourCallsAreGranted() returns (events: seq<Event>)
    ensures GrantedCalls(events, false) == 64 && Grants(events, false) == 8
  {
    events := [];
    for used := 0 to 5
      invariant Life(events, false).allocatedCalls == 8 * used && GrantedCalls(events, false) == 8 * used
      invariant !TaskCapReached(Life(events, false)) && Life(events, false).manualResumes == 0
    {
      events := UsedTranche(events);
    }
    events := AcceptedResume(events);
    events := AcceptedResume(events);
    events := UsedTranche(events);
    AllowanceIsBounded(events, false);
  }

  /** The ceiling bounds what is granted, over every life, if and only if the journal counts resumed calls. */
  lemma {:induction false} CeilingHoldsExactly(countsResumes: bool)
    ensures countsResumes <==> forall events :: GrantedCalls(events, countsResumes) <= TASK_CALL_CEILING
  {
    if countsResumes {
      forall events ensures GrantedCalls(events, countsResumes) <= TASK_CALL_CEILING {
        AllowanceIsBounded(events, countsResumes);
      }
    } else {
      var events := SixtyFourCallsAreGranted();
    }
  }

  // ---------- Grants and progress ----------

  /** Every tranche after the bootstraps was granted on progress. */
  lemma {:induction false} RenewalNeedsProgress(events: seq<Event>, countsResumes: bool, evidence: Evidence)
    requires Life(events, countsResumes).bootstrapTranches >= BOOTSTRAP_TRANCHE_COUNT
    ensures Grant(Life(events, countsResumes), AllocateTranche(evidence)) > 0 <==>
      Progressed(evidence) && Life(events, countsResumes).allocatedCalls < TASK_CALL_CEILING
  {
    AllowanceIsBounded(events, countsResumes);
  }

  /** How many tranches were asked for with progress to show. */
  ghost function ProgressShown(events: seq<Event>): nat {
    if events == [] then 0
    else
      var e := events[|events| - 1];
      ProgressShown(events[..|events| - 1]) + if e.AllocateTranche? && Progressed(e.evidence) then 1 else 0
  }

  /**
    Over a task's whole life, every grant but the two bootstraps and the two resumes was earned by progress: a task
    without any is granted at most 32 calls.
  */
  lemma {:induction false} GrantsAreEarned(events: seq<Event>, countsResumes: bool)
    ensures var state := Life(events, countsResumes);
      Grants(events, countsResumes) <= state.bootstrapTranches + state.manualResumes + ProgressShown(events)
    ensures ProgressShown(events) == 0 ==> GrantedCalls(events, countsResumes) <= 32
  {
    AllowanceIsBounded(events, countsResumes);
    if events != [] {
      var before, e := events[..|events| - 1], events[|events| - 1];
      GrantsAreEarned(before, countsResumes);
      AllowanceIsBounded(before, countsResumes);
      if e.AllocateTranche? && Life(before, countsResumes).bootstrapTranches >= BOOTSTRAP_TRANCHE_COUNT {
        RenewalNeedsProgress(before, countsResumes, e.evidence);
      }
    }
  }

  // ---------- The service ----------

  class TaskAuthorityService {
    /** Whether the journal adds the calls of a resume to the allocated ones. */
    const countsResumes: bool
    var state: TaskBudget

    constructor (countsResumes: bool)
      ensures state == FRESH_TASK && this.countsResumes == countsResumes
    {
      this.countsResumes := countsResumes;
      state := FRESH_TASK;
    }

    method AllocateTranche(evidence: Evidence) returns (calls: nat)
      modifies this
      ensures calls == Grant(old(state), Event.AllocateTranche(evidence))
      ensures state == After(old(state), Event.AllocateTranche(evidence), countsResumes)
    {
      var progressed := Progressed(evidence);
      var remaining := TASK_CALL_CEILING - state.allocatedCalls;
      var tranche: Tranche;
      if remaining <= 0 {
        tranche := Tranche(0, TaskCallCeiling);
      } else if state.bootstrapTranches < BOOTSTRAP_TRANCHE_COUNT {
        tranche := Tranche(Min(BOOTSTRAP_TRANCHE_CALLS, remaining), Bootstrap);
      } else if !progressed {
        tranche := Tranche(0, NoProgress);
      } else {
        tranche := Tranche(Min(RENEWAL_TRANCHE_CALLS, remaining), ObjectiveProgress);
      }
      state := AfterTranche(state, tranche);
      calls := tranche.calls;
    }

    method ResumeTask(pause: Pause, situation: Situation) returns (r: Result<nat, Denial>)
      modifies this
      ensures r.Ok? <==> MayResume(pause, old(state), situation)
      ensures r.Ok? ==> r.value == Grant(old(state), Event.ResumeTask(pause, situation)) && r.value > 0
      ensures state == After(old(state), Event.ResumeTask(pause, situation), countsResumes)
    {
      var denial := ResumeDenial(pause, state, situation);
      if denial.Some? { return Err(denial.value); }
      var calls := Min(RENEWAL_TRANCHE_CALLS, TASK_CALL_CEILING - state.allocatedCalls);
      state := state.(manualResumes := state.manualResumes + 1);
      if countsResumes { state := state.(allocatedCalls := state.allocatedCalls + calls); }
      return Ok(calls);
    }
  }
}
