/**
  Plan validation (src/apexcrew/domain/plan.py) and the plan proposal built on it
  (src/apexcrew/domain/coordination.py): scope coverage, promotion hazards, the proposed order
  and the cycle check.
*/
module Plans {
  import opened Wrappers
  import opened Globs
  import opened Graphs

  type TaskId = Node

  datatype CheckDefinition = CheckDefinition(argv: seq<string>, inputGlobs: seq<Glob>)

  datatype TaskContract = TaskContract(
    id: TaskId,
    dependencies: seq<TaskId>,
    readGlobs: seq<Glob>,
    dependencyGlobs: seq<Glob>,
    writeGlobs: seq<Glob>,
    checks: seq<CheckDefinition>)

  datatype PlanRevision = PlanRevision(tasks: seq<TaskContract>, order: seq<TaskId>)

  datatype PlanError =
    | InvalidTaskSet
    | PromotionOrderRequired
    | WriteNotCoveredByRead
    | MissingCheckInput
    | UnknownDependency
    | PlanGraphCycle
    | PlanningRequestCountInvalid
    | MissingRunCheck
    | DuplicateRunCheck

  const TASK_CEILING := 12
  const PLANNING_REQUEST_CEILING := 8

  // ---------- What is checked, stated on the plan itself ----------

  function Ids(tasks: seq<TaskContract>): set<TaskId> {
    set t | t in tasks :: t.id
  }

  predicate UniqueIds(tasks: seq<TaskContract>) {
    forall i, j | 0 <= i < j < |tasks| :: tasks[i].id != tasks[j].id
  }

  predicate OrderCovers(plan: PlanRevision) {
    |plan.order| == |plan.tasks| && (set id | id in plan.order) == Ids(plan.tasks)
  }

  predicate WritesCovered(task: TaskContract) {
    forall w | w in task.writeGlobs :: exists r | r in task.readGlobs :: ProveIncluded(w, r) == Proven
  }

  predicate ChecksHaveInputs(task: TaskContract) {
    forall c | c in task.checks :: c.inputGlobs != []
  }

  function CheckInputs(checks: seq<CheckDefinition>): seq<Glob> {
    if checks == [] then [] else checks[0].inputGlobs + CheckInputs(checks[1..])
  }

  /** What a task observes: its reads, its dependency globs and the inputs of its checks. */
  function Sensitivity(task: TaskContract): seq<Glob> {
    task.readGlobs + task.dependencyGlobs + CheckInputs(task.checks)
  }

  predicate MayWriteInto(writer: TaskContract, reader: TaskContract) {
    && writer.id != reader.id
    && exists w, o | w in writer.writeGlobs && o in Sensitivity(reader) :: MayOverlap(w, o)
  }

  function HazardsFrom(writers: seq<TaskContract>, readers: seq<TaskContract>): set<Edge> {
    set u, v | u in writers && v in readers && MayWriteInto(u, v) :: (u.id, v.id)
  }

  function Hazards(tasks: seq<TaskContract>): set<Edge> { HazardsFrom(tasks, tasks) }

  function Dependencies(tasks: seq<TaskContract>): set<Edge> {
    set t, d | t in tasks && d in t.dependencies :: (d, t.id)
  }

  /** Position in the proposed order, or -1. */
  function Position(order: seq<TaskId>, id: TaskId): (p: int)
    ensures id in order ==> 0 <= p < |order| && order[p] == id
    ensures id !in order ==> p == -1
  {
    if order == [] then -1
    else if order[|order| - 1] == id then |order| - 1
    else Position(order[..|order| - 1], id)
  }

  predicate Ordered(order: seq<TaskId>, edges: set<Edge>) {
    forall e | e in edges :: Position(order, e.0) < Position(order, e.1)
  }

  /** The first task that fails its own checks decides the error; coverage comes before check inputs. */
  function ScopeError(tasks: seq<TaskContract>): Option<PlanError> {
    if tasks == [] then None
    else if !WritesCovered(tasks[0]) then Some(WriteNotCoveredByRead)
    else if !ChecksHaveInputs(tasks[0]) then Some(MissingCheckInput)
    else ScopeError(tasks[1..])
  }

  ghost function GraphError(tasks: seq<TaskContract>, hazards: set<Edge>): Option<PlanError> {
    if exists t | t in tasks :: exists d | d in t.dependencies :: d !in Ids(tasks) then Some(UnknownDependency)
    else if !Acyclic(Ids(tasks), hazards + Dependencies(tasks)) then Some(PlanGraphCycle)
    else None
  }

  /** What `validate_plan` answers, with the graph check by meaning: some topological rank exists. */
  ghost function Verdict(plan: PlanRevision): Result<set<Edge>, PlanError> {
    var hazards := Hazards(plan.tasks);
    if |plan.tasks| > TASK_CEILING || !UniqueIds(plan.tasks) then Err(InvalidTaskSet)
    else if !OrderCovers(plan) then Err(PromotionOrderRequired)
    else if ScopeError(plan.tasks).Some? then Err(ScopeError(plan.tasks).value)
    else if !Ordered(plan.order, hazards) then Err(PromotionOrderRequired)
    else if GraphError(plan.tasks, hazards).Some? then Err(GraphError(plan.tasks, hazards).value)
    else Ok(hazards)
  }

  // ---------- The loops ----------

  /** `_reject_cycle`: peel the nodes without a pending predecessor until none is left. */
  method RejectCycle(tasks: seq<TaskContract>, hazards: set<Edge>) returns (error: Option<PlanError>)
    ensures error == GraphError(tasks, hazards)
  {
    var known := Ids(tasks);
    if exists t | t in tasks :: exists d | d in t.dependencies :: d !in known {
      return Some(UnknownDependency);
    }
    var edges := hazards + Dependencies(tasks);
    var pending := known;
    ghost var rank: map<TaskId, nat> := map[];
    ghost var round: nat := 0;
    while pending != {}
      invariant pending <= known
      invariant rank.Keys == known - pending
      invariant forall n | n in rank :: rank[n] < round
      invariant forall l, r | (l, r) in edges && l in known && r in rank :: l in rank && rank[l] < rank[r]
    {
      var ready := set n | n in pending && !HasPredecessor(pending, edges, n);
      if ready == {} {
        forall n | n in pending
          ensures HasPredecessor(pending, edges, n)
        {
          assert n !in ready;
        }
        StuckHasNoRank(known, pending, edges);
        return Some(PlanGraphCycle);
      }
      ghost var before := rank;
      rank := map n | n in known - (pending - ready) :: if n in before then before[n] else round;
      round := round + 1;
      var n :| n in ready;
      pending := pending - ready;
    }
    assert Ranks(known, edges, rank);
    return None;
  }

  method FindScopeError(tasks: seq<TaskContract>) returns (error: Option<PlanError>)
    ensures error == ScopeError(tasks)
  {
    for i := 0 to |tasks|
      invariant ScopeError(tasks) == ScopeError(tasks[i..])
    {
      if !WritesCovered(tasks[i]) { return Some(WriteNotCoveredByRead); }
      if !ChecksHaveInputs(tasks[i]) { return Some(MissingCheckInput); }
    }
    return None;
  }

  lemma {:induction false} OneMoreReader(writer: TaskContract, readers: seq<TaskContract>, reader: TaskContract)
    ensures HazardsFrom([writer], readers + [reader]) ==
      HazardsFrom([writer], readers) + (if MayWriteInto(writer, reader) then {(writer.id, reader.id)} else {})
  {
    var more := readers + [reader];
    assert more[|readers|] == reader && [writer][0] == writer;
    forall e | e in HazardsFrom([writer], readers) ensures e in HazardsFrom([writer], more) {
      var v :| v in readers && MayWriteInto(writer, v) && e == (writer.id, v.id);
      assert v in more;
    }
    if MayWriteInto(writer, reader) { assert (writer.id, reader.id) in HazardsFrom([writer], more); }
  }

  lemma {:induction false} OneMoreWriter(writers: seq<TaskContract>, writer: TaskContract, readers: seq<TaskContract>)
    ensures HazardsFrom(writers + [writer], readers) == HazardsFrom(writers, readers) + HazardsFrom([writer], readers)
  {
    var more := writers + [writer];
    forall e | e in HazardsFrom(writers, readers) ensures e in HazardsFrom(more, readers) {
      var u, v :| u in writers && v in readers && MayWriteInto(u, v) && e == (u.id, v.id);
      assert u in more;
    }
    forall e | e in HazardsFrom([writer], readers) ensures e in HazardsFrom(more, readers) {
      var v :| v in readers && MayWriteInto(writer, v) && e == (writer.id, v.id);
      assert more[|writers|] == writer;
    }
  }

  method CollectHazards(tasks: seq<TaskContract>) returns (hazards: set<Edge>)
    ensures hazards == Hazards(tasks)
  {
    hazards := {};
    for i := 0 to |tasks|
      invariant hazards == HazardsFrom(tasks[..i], tasks)
    {
      ghost var before := hazards;
      for j := 0 to |tasks|
        invariant hazards == before + HazardsFrom([tasks[i]], tasks[..j])
      {
        OneMoreReader(tasks[i], tasks[..j], tasks[j]);
        assert tasks[..j + 1] == tasks[..j] + [tasks[j]];
        if MayWriteInto(tasks[i], tasks[j]) {
          hazards := hazards + {(tasks[i].id, tasks[j].id)};
        }
      }
      assert tasks[..|tasks|] == tasks;
      OneMoreWriter(tasks[..i], tasks[i], tasks);
      assert tasks[..i + 1] == tasks[..i] + [tasks[i]];
    }
    assert tasks[..|tasks|] == tasks;
  }

  method ValidatePlan(plan: PlanRevision) returns (verdict: Result<set<Edge>, PlanError>)
    ensures verdict == Verdict(plan)
  {
    if |plan.tasks| > TASK_CEILING || !UniqueIds(plan.tasks) { return Err(InvalidTaskSet); }
    if !OrderCovers(plan) { return Err(PromotionOrderRequired); }
    var scope := FindScopeError(plan.tasks);
    if scope.Some? { return Err(scope.value); }
    var hazards := CollectHazards(plan.tasks);
    if !Ordered(plan.order, hazards) { return Err(PromotionOrderRequired); }
    var graph := RejectCycle(plan.tasks, hazards);
    if graph.Some? { return Err(graph.value); }
    return Ok(hazards);
  }

  // ---------- What acceptance guarantees ----------

  /** All patterns that a task writes or reads by, its dependency patterns and check inputs aside. */
  predicate AnchoredAccess(task: TaskContract) {
    && (forall g | g in task.writeGlobs :: Anchored(g))
    && (forall g | g in task.readGlobs :: Anchored(g))
  }

  predicate Writes(task: TaskContract, path: seq<Segment>) {
    exists g | g in task.writeGlobs :: Matches(g, path)
  }

  predicate Observes(task: TaskContract, path: seq<Segment>) {
    exists g | g in Sensitivity(task) :: Matches(g, path)
  }

  lemma {:induction false} AcceptedTaskIsCovered(tasks: seq<TaskContract>, task: TaskContract)
    requires ScopeError(tasks) == None && task in tasks
    ensures WritesCovered(task) && ChecksHaveInputs(task)
  {
    if tasks[0] != task { AcceptedTaskIsCovered(tasks[1..], task); }
  }

  lemma {:induction false} WritersRead(task: TaskContract, path: seq<Segment>) returns (r: Glob)
    requires WritesCovered(task) && Writes(task, path)
    ensures r in task.readGlobs && r in Sensitivity(task) && Matches(r, path)
  {
    var w :| w in task.writeGlobs && Matches(w, path);
    r :| r in task.readGlobs && ProveIncluded(w, r) == Proven;
    InclusionIsSound(w, r, path);
  }

  /** Whatever a covered task may write, it also observes. */
  lemma {:induction false} WritersObserve(task: TaskContract, path: seq<Segment>)
    requires WritesCovered(task) && Writes(task, path)
    ensures Observes(task, path)
  {
    var r := WritersRead(task, path);
  }

  /**
    In an accepted plan a task that may write what another observes, both by anchored patterns, is promoted
    before it. What else the tasks or the plan contain does not matter.
  */
  lemma {:induction false} ConflictsAreOrdered(plan: PlanRevision, writer: TaskContract, reader: TaskContract, w: Glob,
      o: Glob,
      path: seq<Segment>)
    requires Verdict(plan).Ok?
    requires writer in plan.tasks && reader in plan.tasks && writer.id != reader.id
    requires w in writer.writeGlobs && Anchored(w) && Matches(w, path)
    requires o in Sensitivity(reader) && Anchored(o) && Matches(o, path)
    ensures (writer.id, reader.id) in Verdict(plan).value
    ensures Position(plan.order, writer.id) < Position(plan.order, reader.id)
  {
    if ProveDisjoint(w, o) == Proven { DisjointnessIsSound(w, o, path); }
    assert MayOverlap(w, o);
    assert (writer.id, reader.id) in Hazards(plan.tasks);
  }

  /** A path that two tasks may write, by anchored patterns, orders them. */
  lemma {:induction false} SharedWritesAreOrdered(plan: PlanRevision, a: TaskContract, b: TaskContract,
      path: seq<Segment>)
    requires Verdict(plan).Ok? && a in plan.tasks && b in plan.tasks && a.id != b.id
    requires AnchoredAccess(a) && AnchoredAccess(b) && Writes(a, path) && Writes(b, path)
    ensures Position(plan.order, a.id) < Position(plan.order, b.id)
  {
    var w :| w in a.writeGlobs && Matches(w, path);
    AcceptedTaskIsCovered(plan.tasks, b);
    var r := WritersRead(b, path);
    ConflictsAreOrdered(plan, a, b, w, r, path);
  }

  /**
    No path is matched by write patterns of two tasks of an accepted plan whose write and read patterns are anchored.
  */
  lemma {:induction false} AcceptedWritesAreDisjoint(plan: PlanRevision, a: TaskContract, b: TaskContract,
      path: seq<Segment>)
    requires Verdict(plan).Ok? && a in plan.tasks && b in plan.tasks && a.id != b.id
    requires AnchoredAccess(a) && AnchoredAccess(b)
    ensures !(Writes(a, path) && Writes(b, path))
  {
    if Writes(a, path) && Writes(b, path) {
      SharedWritesAreOrdered(plan, a, b, path);
      SharedWritesAreOrdered(plan, b, a, path);
    }
  }

  function OneGlobTask(id: TaskId, glob: Glob): TaskContract {
    TaskContract(id, [], [glob], [], [glob], [])
  }

  /** A plan without any edge only has to pass the task-set, order and scope checks. */
  lemma {:induction false} EdgelessPlanIsAccepted(plan: PlanRevision)
    requires |plan.tasks| <= TASK_CEILING && UniqueIds(plan.tasks) && OrderCovers(plan)
    requires ScopeError(plan.tasks) == None
    requires forall t | t in plan.tasks :: t.dependencies == []
    requires forall u, v | u in plan.tasks && v in plan.tasks :: !MayWriteInto(u, v)
    ensures Verdict(plan) == Ok({})
  {
    assert Hazards(plan.tasks) == {} && Dependencies(plan.tasks) == {};
    assert Hazards(plan.tasks) + Dependencies(plan.tasks) == {};
    assert Ranks(Ids(plan.tasks), {}, map id | id in Ids(plan.tasks) :: 0);
    assert GraphError(plan.tasks, {}) == None;
  }

  lemma {:induction false} OneGlobTaskScope(id: TaskId, glob: Glob)
    ensures Sensitivity(OneGlobTask(id, glob)) == [glob]
    ensures WritesCovered(OneGlobTask(id, glob)) && ChecksHaveInputs(OneGlobTask(id, glob))
  {
    assert ProveIncluded(glob, glob) == Proven;
    assert OneGlobTask(id, glob).readGlobs[0] == glob;
  }

  lemma {:induction false} TwoTaskScope(a: TaskContract, b: TaskContract)
    requires a.id != b.id && WritesCovered(a) && ChecksHaveInputs(a) && WritesCovered(b) && ChecksHaveInputs(b)
    ensures ScopeError([a, b]) == None && OrderCovers(PlanRevision([a, b], [a.id, b.id])) && UniqueIds([a, b])
  {
    var tasks, order := [a, b], [a.id, b.id];
    assert tasks[1..] == [b] && ScopeError([b][1..]) == None;
    assert order[0] == a.id && order[1] == b.id && tasks[0] == a && tasks[1] == b;
    assert (set id | id in order) == {a.id, b.id} == Ids(tasks);
  }

  lemma {:induction false} TwoTaskPlanIsAccepted(a: TaskContract, b: TaskContract, left: Glob, right: Glob)
    requires a.id != b.id && a.dependencies == b.dependencies == []
    requires WritesCovered(a) && ChecksHaveInputs(a) && WritesCovered(b) && ChecksHaveInputs(b)
    requires a.writeGlobs == Sensitivity(a) == [left] && b.writeGlobs == Sensitivity(b) == [right]
    requires !MayOverlap(left, right) && !MayOverlap(right, left)
    ensures Verdict(PlanRevision([a, b], [a.id, b.id])) == Ok({})
  {
    TwoTaskScope(a, b);
    EdgelessPlanIsAccepted(PlanRevision([a, b], [a.id, b.id]));
  }

  lemma {:induction false} DisjointLookingTasksAreAccepted(left: Glob, right: Glob)
    requires !MayOverlap(left, right) && !MayOverlap(right, left)
    ensures Verdict(PlanRevision([OneGlobTask("a", left), OneGlobTask("b", right)], ["a", "b"])) == Ok({})
  {
    OneGlobTaskScope("a", left);
    OneGlobTaskScope("b", right);
    TwoTaskPlanIsAccepted(OneGlobTask("a", left), OneGlobTask("b", right), left, right);
  }

  // Without anchoring the guarantee fails: `**/a` and `x/b/**` are accepted side by side, and both
  // tasks may write x/b/a.
  lemma {:induction false} UnanchoredPlanIsAcceptedWithSharedWrite()
    ensures
      var a, b := OneGlobTask("a", Glob([DOUBLE_STAR, "a"])), OneGlobTask("b", Glob(["x", "b", DOUBLE_STAR]));
      var plan := PlanRevision([a, b], ["a", "b"]);
      Verdict(plan) == Ok({}) && Writes(a, ["x", "b", "a"]) && Writes(b, ["x", "b", "a"])
  {
    var left, right := Glob([DOUBLE_STAR, "a"]), Glob(["x", "b", DOUBLE_STAR]);
    assert !IsLiteralSegment(left.segments[0]) && !IsLiteralSegment(right.segments[2]);
    assert SegmentsClash(left.segments[1], right.segments[1]) && SegmentsClash(right.segments[1], left.segments[1]);
    DisjointLookingTasksAreAccepted(left, right);
    SharedPath(left, right);
    assert left in OneGlobTask("a", left).writeGlobs && right in OneGlobTask("b", right).writeGlobs;
  }

  lemma {:induction false} SharedPath(left: Glob, right: Glob)
    requires left == Glob([DOUBLE_STAR, "a"]) && right == Glob(["x", "b", DOUBLE_STAR])
    ensures Matches(left, ["x", "b", "a"]) && Matches(right, ["x", "b", "a"])
  {
    LiteralMatchesItself(Glob(["a"]), ["a"]);
    assert left.segments[1..] == ["a"];
    DoubleStarsAbsorb(left.segments, ["a"], ["x", "b"]);
    assert ["x", "b"] + ["a"] == ["x", "b", "a"];
    LiteralPrefixMatches(["x", "b"], ["x", "b", "a"]);
    assert ["x", "b"] + [DOUBLE_STAR] == right.segments;
  }

  // ---------- Exactly the patterns that keep writes apart ----------

  /** In an accepted plan, a path that task `a` may write by the pattern is one that task `b` may write too. */
  ghost predicate SharesPath(plan: PlanRevision, a: TaskContract, b: TaskContract, g: Glob, path: seq<Segment>) {
    && Verdict(plan).Ok? && a in plan.tasks && b in plan.tasks && a.id != b.id
    && g in a.writeGlobs && ValidPath(path) && Matches(g, path) && Writes(b, path)
  }

  /** The other patterns by which the task writes or reads are anchored. */
  predicate OthersAnchored(task: TaskContract, g: Glob) {
    && (forall h | h in task.writeGlobs && h != g :: Anchored(h))
    && (forall h | h in task.readGlobs && h != g :: Anchored(h))
  }

  lemma {:induction false} ClashIsSymmetric(left: Glob, right: Glob)
    requires !IsLiteral(left) && !IsLiteral(right) && ProveDisjoint(left, right) == Proven
    ensures ProveDisjoint(right, left) == Proven
  {
    var i :| 0 <= i < |left.segments| && i < |right.segments| && SegmentsClash(left.segments[i], right.segments[i]);
    assert SegmentsClash(right.segments[i], left.segments[i]);
  }

  lemma {:induction false} OneGlobAccess(id: TaskId, g: Glob)
    ensures OthersAnchored(OneGlobTask(id, g), g) && (Anchored(g) ==> AnchoredAccess(OneGlobTask(id, g)))
    ensures g in OneGlobTask(id, g).writeGlobs && forall h | h in OneGlobTask(id, g).writeGlobs :: h == g
  {}

  lemma {:induction false} TwoGlobsShare(left: Glob, right: Glob, path: seq<Segment>)
    requires !MayOverlap(left, right) && !MayOverlap(right, left)
    requires ValidPath(path) && Matches(left, path) && Matches(right, path)
    ensures var a, b := OneGlobTask("a", left), OneGlobTask("b", right);
      SharesPath(PlanRevision([a, b], ["a", "b"]), a, b, left, path)
  {
    var a, b := OneGlobTask("a", left), OneGlobTask("b", right);
    DisjointLookingTasksAreAccepted(left, right);
    OneGlobAccess("a", left);
    OneGlobAccess("b", right);
    assert [a, b][0] == a && [a, b][1] == b;
  }

  /** Every valid pattern that is not anchored lets an accepted plan share one of its paths. */
  lemma {:induction false} UnanchoredIsShared(g: Glob)
    returns (plan: PlanRevision, a: TaskContract, b: TaskContract, path: seq<Segment>)
    requires ValidGlob(g) && !Anchored(g)
    ensures SharesPath(plan, a, b, g, path) && OthersAnchored(a, g) && AnchoredAccess(b)
    ensures forall h | h in b.writeGlobs :: ValidGlob(h)
  {
    var partner;
    partner, path := UnanchoredHasFalseProof(g);
    ClashIsSymmetric(g, partner);
    a, b := OneGlobTask("a", g), OneGlobTask("b", partner);
    plan := PlanRevision([a, b], ["a", "b"]);
    TwoGlobsShare(g, partner, path);
    OneGlobAccess("a", g);
    OneGlobAccess("b", partner);
  }

  /**
    A valid pattern is anchored if and only if no accepted plan, with the other write and read patterns of the
    two tasks anchored, lets one task write by this pattern what another may write too.
  */
  lemma {:induction false} WritesAreDisjointExactlyWhenAnchored(g: Glob)
    requires ValidGlob(g)
    ensures Anchored(g) <==>
      forall plan, a, b, path | OthersAnchored(a, g) && OthersAnchored(b, g) :: !SharesPath(plan, a, b, g, path)
  {
    if Anchored(g) {
      forall plan, a, b, path | OthersAnchored(a, g) && OthersAnchored(b, g) ensures !SharesPath(plan, a, b, g, path) {
        if SharesPath(plan, a, b, g, path) { AcceptedWritesAreDisjoint(plan, a, b, path); }
      }
    } else {
      var plan, a, b, path := UnanchoredIsShared(g);
    }
  }

  // ---------- The proposal ----------

  datatype PlanProposal = PlanProposal(
    plan: PlanRevision,
    runChecks: seq<CheckDefinition>,
    dependencyEdges: set<Edge>,
    hazardEdges: set<Edge>,
    planningRequestCount: nat)

  /** Code-point order of identifiers. */
  predicate AtMost(a: string, b: string) {
    a == "" || (b != "" && (a[0] < b[0] || (a[0] == b[0] && AtMost(a[1..], b[1..]))))
  }

  predicate IdsSorted(tasks: seq<TaskContract>) {
    forall i | 0 <= i < |tasks| - 1 :: AtMost(tasks[i].id, tasks[i + 1].id)
  }

  predicate Runnable(check: CheckDefinition) {
    check.argv != [] && check.argv[0] != ""
  }

  predicate CompleteTask(task: TaskContract) {
    task.id != "" && task.checks != [] && forall c | c in task.checks :: Runnable(c)
  }

  predicate DistinctChecks(checks: seq<CheckDefinition>) {
    forall i, j | 0 <= i < j < |checks| :: checks[i] != checks[j]
  }

  /** What `from_validated_plan` finds wrong, in the order it looks. */
  ghost function ProposalError(plan: PlanRevision, runChecks: seq<CheckDefinition>, planningRequestCount: int)
    : Option<PlanError>
  {
    if !(1 <= planningRequestCount <= PLANNING_REQUEST_CEILING) then Some(PlanningRequestCountInvalid)
    else if plan.tasks == [] || !IdsSorted(plan.tasks) || (exists t | t in plan.tasks :: !CompleteTask(t)) then
      Some(InvalidTaskSet)
    else if runChecks == [] || (exists c | c in runChecks :: !Runnable(c) || c.inputGlobs == [])
      then Some(MissingRunCheck)
    else if !DistinctChecks(runChecks) then Some(DuplicateRunCheck)
    else if Verdict(plan).Err? then Some(Verdict(plan).error)
    else if !Ordered(plan.order, Dependencies(plan.tasks)) then Some(PromotionOrderRequired)
    else None
  }

  method FromValidatedPlan(plan: PlanRevision, runChecks: seq<CheckDefinition>, planningRequestCount: int)
    returns (proposal: Result<PlanProposal, PlanError>)
    ensures var error := ProposalError(plan, runChecks, planningRequestCount);
      proposal ==
        if error.Some? then Err(error.value)
        else Ok(PlanProposal(plan, runChecks, Dependencies(plan.tasks), Hazards(plan.tasks), planningRequestCount))
  {
    if !(1 <= planningRequestCount <= PLANNING_REQUEST_CEILING) { return Err(PlanningRequestCountInvalid); }
    if plan.tasks == [] || !IdsSorted(plan.tasks) || exists t | t in plan.tasks :: !CompleteTask(t) {
      return Err(InvalidTaskSet);
    }
    if runChecks == [] || exists c | c in runChecks :: !Runnable(c) || c.inputGlobs == [] {
      return Err(MissingRunCheck);
    }
    if !DistinctChecks(runChecks) { return Err(DuplicateRunCheck); }
    var validation := ValidatePlan(plan);
    if validation.Err? { return Err(validation.error); }
    var dependencies := Dependencies(plan.tasks);
    if !Ordered(plan.order, dependencies) { return Err(PromotionOrderRequired); }
    return Ok(PlanProposal(plan, runChecks, dependencies, validation.value, planningRequestCount));
  }

  lemma {:induction false} CoveringOrderHasNoDuplicates(ids: set<TaskId>, order: seq<TaskId>)
    requires (set id | id in order) == ids && |order| == |ids|
    ensures forall i, j | 0 <= i < j < |order| :: order[i] != order[j]
  {
    if order != [] {
      var rest := order[1..];
      var tail := set id | id in rest;
      assert ids == {order[0]} + tail;
      DistinctCount(rest);
      assert order[0] !in tail;
      CoveringOrderHasNoDuplicates(tail, rest);
    }
  }

  lemma {:induction false} DistinctCount(order: seq<TaskId>)
    ensures |set id | id in order| <= |order|
  {
    if order != [] {
      DistinctCount(order[1..]);
      assert (set id | id in order) == {order[0]} + (set id | id in order[1..]);
    }
  }

  lemma {:induction false} UniqueIdsCount(tasks: seq<TaskContract>)
    requires UniqueIds(tasks)
    ensures |Ids(tasks)| == |tasks|
  {
    if tasks != [] {
      UniqueIdsCount(tasks[1..]);
      assert Ids(tasks) == {tasks[0].id} + Ids(tasks[1..]);
      assert tasks[0].id !in Ids(tasks[1..]);
    }
  }

  /**
    The promotion order of an accepted proposal lists every task once, and every dependency and
    every hazard points forward in it.
  */
  lemma {:induction false} PromotionOrderIsTopological(plan: PlanRevision, runChecks: seq<CheckDefinition>,
      planningRequestCount: int)
    requires ProposalError(plan, runChecks, planningRequestCount) == None
    ensures forall i, j | 0 <= i < j < |plan.order| :: plan.order[i] != plan.order[j]
    ensures (set id | id in plan.order) == Ids(plan.tasks)
    ensures forall e | e in Dependencies(plan.tasks) + Hazards(plan.tasks) ::
      exists i, j | 0 <= i < j < |plan.order| :: plan.order[i] == e.0 && plan.order[j] == e.1
  {
    UniqueIdsCount(plan.tasks);
    CoveringOrderHasNoDuplicates(Ids(plan.tasks), plan.order);
    forall e | e in Dependencies(plan.tasks) + Hazards(plan.tasks)
      ensures exists i, j | 0 <= i < j < |plan.order| :: plan.order[i] == e.0 && plan.order[j] == e.1
    {
      assert e.0 in Ids(plan.tasks) && e.1 in Ids(plan.tasks);
      var i, j := Position(plan.order, e.0), Position(plan.order, e.1);
      assert plan.order[i] == e.0 && plan.order[j] == e.1;
    }
  }
}
