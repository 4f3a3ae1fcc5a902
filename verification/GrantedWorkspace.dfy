/**
  The four granted workspace operations: how a world is classified before and after one of them, and
  what each handler does to it (src/apexcrew/adapters/repository/granted_workspace.py).
*/
module GrantedWorkspace {
  import opened Wrappers
  import opened HunkHeaders
  import opened PatchLines
  import opened UnifiedDiff
  import opened PatchReversal
  import opened PatchExactness

  type Path = string
  type Mode = bv12

  const EXECUTABLE_BITS: Mode := 0x49

  /** A content digest, taken to determine the content. */
  datatype Digest = Digest(content: seq<Line>)

  datatype Entry = Entry(content: seq<Line>, mode: Mode)

  /** The regular files that the operation can see. */
  type World = map<Path, Entry>

  datatype Operation =
    | Delete
    | Rename(destination: Path)
    | SetExecutable(executable: bool)
    | ProtectedPatch(diff: seq<Line>)

  datatype Action = Action(path: Path, operation: Operation)

  datatype PreState = PreState(sourceDigest: Option<Digest>, sourceMode: Option<Mode>, destinationAbsent: bool)

  datatype Observation = ExactPre | ExactPost | Third | Unavailable

  // ---------- Classification ----------

  predicate MatchesSource(e: Entry, expected: PreState) {
    && expected.sourceDigest == Some(Digest(e.content))
    && (expected.sourceMode.Some? ==> e.mode == expected.sourceMode.value)
  }

  predicate IsExecutable(e: Entry) { e.mode & EXECUTABLE_BITS != 0 }

  predicate IsPre(action: Action, expected: PreState, w: World) {
    && action.path in w && MatchesSource(w[action.path], expected)
    && (action.operation.Rename? ==> expected.destinationAbsent && action.operation.destination !in w)
  }

  predicate IsPost(action: Action, expected: PreState, w: World) {
    match action.operation
    case Delete => action.path !in w
    case Rename(destination) =>
      action.path !in w && destination in w && expected.sourceDigest == Some(Digest(w[destination].content))
    case SetExecutable(executable) =>
      && action.path in w && expected.sourceDigest == Some(Digest(w[action.path].content))
      && IsExecutable(w[action.path]) == executable
    case ProtectedPatch(diff) =>
      && action.path in w && expected.sourceDigest.Some? && !IsPre(action, expected, w)
      && Unapply(w[action.path].content, diff) == Ok(expected.sourceDigest.value.content)
  }

  /** A world that is both pre and post contradicts the observation's own validator, and counts as unavailable. */
  function Observe(action: Action, expected: PreState, w: World): Observation {
    var pre, post := IsPre(action, expected, w), IsPost(action, expected, w);
    if pre && post then Unavailable else if pre then ExactPre else if post then ExactPost else Third
  }

  /** `observe`: the flags are set branch by branch, the state is read off them at the end. */
  method ObserveWorld(action: Action, expected: PreState, w: World) returns (state: Observation)
    ensures state == Observe(action, expected, w)
  {
    var sourceExists := action.path in w;
    var destinationExists := action.operation.Rename? && action.operation.destination in w;
    var exactPre := sourceExists && MatchesSource(w[action.path], expected)
      && (!action.operation.Rename? || (expected.destinationAbsent && !destinationExists));
    var exactPost := false;
    if action.operation.Delete? {
      exactPost := !sourceExists;
    } else if action.operation.Rename? {
      exactPost := !sourceExists && expected.sourceDigest.Some? && destinationExists
        && Digest(w[action.operation.destination].content) == expected.sourceDigest.value;
    } else if action.operation.SetExecutable? && sourceExists {
      exactPost := Some(Digest(w[action.path].content)) == expected.sourceDigest
        && (w[action.path].mode & EXECUTABLE_BITS != 0) == action.operation.executable;
    } else if action.operation.ProtectedPatch? && sourceExists {
      if expected.sourceDigest.Some? && !exactPre {
        var previous := ReverseUnifiedDiff(w[action.path].content, action.operation.diff);
        exactPost := previous.Ok? && Digest(previous.value) == expected.sourceDigest.value;
      }
    }
    state := if exactPre then ExactPre else if exactPost then ExactPost else Third;
    if (state == ExactPost) != exactPost { state := Unavailable; }
  }

  // ---------- The handlers ----------

  function WithBits(m: Mode, executable: bool): Mode {
    if executable then m | EXECUTABLE_BITS else m & !EXECUTABLE_BITS
  }

  /** The world after a handler that took effect; none if its own check of the pre-state fails. */
  function Effect(action: Action, expected: PreState, w: World): Option<World> {
    if action.path !in w || !MatchesSource(w[action.path], expected) then None
    else
      var e := w[action.path];
      match action.operation
      case Delete => Some(w - {action.path})
      case Rename(destination) =>
        if !expected.destinationAbsent || destination in w then None
        else Some((w - {action.path})[destination := e])
      case SetExecutable(executable) =>
        Some(w[action.path := e.(mode := WithBits(e.mode, executable))])
      case ProtectedPatch(diff) =>
        match Apply(e.content, diff)
        case Err(_) => None
        case Ok(patched) => Some(w[action.path := e.(content := patched)])
  }

  // ---------- What the grant was for ----------

  /** The state that the granted action promises. */
  predicate Intended(action: Action, expected: PreState, w: World) {
    match action.operation
    case Delete => action.path !in w
    case Rename(destination) =>
      action.path !in w && destination in w && expected.sourceDigest == Some(Digest(w[destination].content))
    case SetExecutable(executable) =>
      && action.path in w && expected.sourceDigest == Some(Digest(w[action.path].content))
      && IsExecutable(w[action.path]) == executable
    case ProtectedPatch(diff) =>
      && action.path in w && expected.sourceDigest.Some?
      && Apply(expected.sourceDigest.value.content, diff) == Ok(w[action.path].content)
  }

  /** What the reversal of the diff yields, if there is a diff, is changed back by it. */
  predicate PostIsReliable(action: Action) {
    action.operation.ProtectedPatch? ==> Redoable(action.operation.diff)
  }

  /** What the diff changes, if there is one, is undone by its reversal. */
  predicate EffectIsUndone(action: Action) {
    action.operation.ProtectedPatch? ==> Undoable(action.operation.diff)
  }

  /** The executable bits are granted the value that they have. */
  predicate IsNoOp(action: Action, expected: PreState, w: World) {
    && action.operation.SetExecutable? && IsPre(action, expected, w)
    && IsExecutable(w[action.path]) == action.operation.executable
  }

  lemma {:induction false} ModeBits(m: Mode, executable: bool)
    ensures (WithBits(m, executable) & EXECUTABLE_BITS != 0) == executable
    ensures WithBits(WithBits(m, executable), executable) == WithBits(m, executable)
  {}

  /** A handler that takes effect brings about the intended state. */
  lemma {:induction false} EffectIsIntended(action: Action, expected: PreState, w: World)
    requires Effect(action, expected, w).Some?
    ensures Intended(action, expected, Effect(action, expected, w).value)
  {
    if action.operation.SetExecutable? { ModeBits(w[action.path].mode, action.operation.executable); }
  }

  /** An EXACT_POST verdict means that the intended state has been reached. */
  lemma {:induction false} PostVerdictIsIntended(action: Action, expected: PreState, w: World)
    requires Observe(action, expected, w) == ExactPost && PostIsReliable(action)
    ensures Intended(action, expected, w)
  {
    if action.operation.ProtectedPatch? { RedoableIsRedone(action.operation.diff, w[action.path].content); }
  }

  lemma {:induction false} WrongPostVerdict(path: Path, diff: seq<Line>, current: seq<Line>)
      returns (expected: PreState, w: World)
    requires !RedoneOn(diff, current)
    ensures Observe(Action(path, ProtectedPatch(diff)), expected, w) == ExactPost
    ensures !Intended(Action(path, ProtectedPatch(diff)), expected, w)
  {
    expected := PreState(Some(Digest(Unapply(current, diff).value)), Some(1), false);
    w := map[path := Entry(current, 0)];
  }

  /**
    The EXACT_POST verdicts on an action are all right, for every pre-state and every world, if and only if
    it is not a patch, or a patch that changes back whatever its reversal yields.
  */
  lemma {:induction false} PostVerdictsAreRightExactly(action: Action)
    ensures PostIsReliable(action) <==>
      forall expected, w :: Observe(action, expected, w) == ExactPost ==> Intended(action, expected, w)
  {
    if PostIsReliable(action) {
      forall expected, w | Observe(action, expected, w) == ExactPost ensures Intended(action, expected, w) {
        PostVerdictIsIntended(action, expected, w);
      }
    } else {
      var diff := action.operation.diff;
      RedoneEverywhereExactly(diff);
      var current :| !RedoneOn(diff, current);
      var expected, w := WrongPostVerdict(action.path, diff, current);
      assert action == Action(action.path, ProtectedPatch(diff));
    }
  }

  /** With a body line that begins `+++` or `---`, an EXACT_POST verdict is always wrong, whatever the headers. */
  lemma {:induction false} UnflippedVerdictIsWrong(action: Action, expected: PreState, w: World)
    requires action.operation.ProtectedPatch? && Observe(action, expected, w) == ExactPost
    requires WellFormedPatch(action.operation.diff) && !NoUnflippedLine(action.operation.diff)
    ensures !Intended(action, expected, w)
  {
    if Intended(action, expected, w) {
      UndoneMeansFlippable(action.operation.diff, expected.sourceDigest.value.content);
    }
  }

  lemma {:induction false} MisreadPatchIsExactPost(action: Action, mode: Mode, source: seq<Line>, meant: seq<Line>)
    requires action.operation.ProtectedPatch? && meant != source
    requires Unapply(meant, action.operation.diff) == Ok(source) && Apply(source, action.operation.diff) != Ok(meant)
    ensures var expected := PreState(Some(Digest(source)), Some(mode), false);
      && Observe(action, expected, map[action.path := Entry(meant, mode)]) == ExactPost
      && !Intended(action, expected, map[action.path := Entry(meant, mode)])
  {
    var w := map[action.path := Entry(meant, mode)];
    assert w[action.path].content == meant;
  }

  // The zero-context insertion after the first line: a world with the line where a reader of the diff
  // expects it is EXACT_POST, although the handler would have put it first.
  lemma {:induction false} MisreadInsertionIsExactPost(action: Action, mode: Mode, first: Line, addition: Line)
    requires addition != "" && addition[0] == '+' && !IsTripled(addition) && addition[1..] != first
    requires action.operation == ProtectedPatch(OneHunkPatch(Header(1, 0, 2, 1), [addition]))
    ensures var expected, x := PreState(Some(Digest([first])), Some(mode), false), addition[1..];
      && Observe(action, expected, map[action.path := Entry([first, x], mode)]) == ExactPost
      && !Intended(action, expected, map[action.path := Entry([first, x], mode)])
      && var effect := Effect(action, expected, map[action.path := Entry([first], mode)]);
         effect.Some? && effect.value[action.path] == Entry([x, first], mode)
  {
    var x := addition[1..];
    ZeroContextInsertionIsMisread(first, addition);
    assert [x, first][0] != [first, x][0] && |[first, x]| != |[first]|;
    MisreadPatchIsExactPost(action, mode, [first], [first, x]);
    assert map[action.path := Entry([first], mode)][action.path] == Entry([first], mode);
  }

  // ---------- Both pre and post ----------

  /** A world is unobservable exactly for executable bits that already have the granted value. */
  lemma {:induction false} UnavailableExactly(action: Action, expected: PreState, w: World)
    ensures Observe(action, expected, w) == Unavailable <==> IsNoOp(action, expected, w)
  {}

  // ---------- What a handler leaves behind ----------

  /** A handler that changed anything leaves a world that is not observed as EXACT_PRE again. */
  lemma {:induction false} ChangeLeavesPre(action: Action, expected: PreState, w: World)
    requires Effect(action, expected, w).Some? && Effect(action, expected, w).value != w
    ensures Observe(action, expected, Effect(action, expected, w).value) != ExactPre
  {
    var e, after := w[action.path], Effect(action, expected, w).value;
    if action.operation.SetExecutable? { ModeBits(e.mode, action.operation.executable); }
    if action.operation.SetExecutable? || action.operation.ProtectedPatch? {
      assert after == w[action.path := after[action.path]] && w == w[action.path := e];
    }
  }

  predicate CouldChange(action: Action, expected: PreState, w: World) {
    Effect(action, expected, w).Some? && Effect(action, expected, w).value != w
  }

  lemma {:induction false} BitChangeIsFinal(action: Action, expected: PreState, w: World)
    requires action.operation.SetExecutable? && CouldChange(action, expected, w)
    ensures !CouldChange(action, expected, Effect(action, expected, w).value)
  {
    ModeBits(w[action.path].mode, action.operation.executable);
    var after := Effect(action, expected, w).value;
    if Effect(action, expected, after).Some? {
      assert Effect(action, expected, after).value[action.path] == after[action.path];
      assert after == after[action.path := after[action.path]];
    }
  }

  lemma {:induction false} PatchChangeIsFinal(action: Action, expected: PreState, w: World)
    requires action.operation.ProtectedPatch? && CouldChange(action, expected, w)
    ensures !CouldChange(action, expected, Effect(action, expected, w).value)
  {
    var after := Effect(action, expected, w).value;
    assert after == w[action.path := after[action.path]] && w == w[action.path := w[action.path]];
  }

  /** A handler that changed anything leaves a world that no handler of the same grant changes again. */
  lemma {:induction false} ChangeIsFinal(action: Action, expected: PreState, w: World)
    requires CouldChange(action, expected, w)
    ensures !CouldChange(action, expected, Effect(action, expected, w).value)
  {
    if action.operation.SetExecutable? { BitChangeIsFinal(action, expected, w); }
    else if action.operation.ProtectedPatch? { PatchChangeIsFinal(action, expected, w); }
  }

  /**
    Recovery recognises the effect of a handler that was started from EXACT_PRE, except for an
    executable-bit change granted without a recorded mode, and a patch that changes nothing.
  */
  lemma {:induction false} EffectIsRecognisedExactly(action: Action, expected: PreState, w: World)
    requires Observe(action, expected, w) == ExactPre && EffectIsUndone(action)
    requires Effect(action, expected, w).Some?
    ensures Observe(action, expected, Effect(action, expected, w).value) == ExactPost <==>
      && (action.operation.SetExecutable? ==> expected.sourceMode.Some?)
      && (action.operation.ProtectedPatch? ==> Effect(action, expected, w).value != w)
  {
    var e, after := w[action.path], Effect(action, expected, w).value;
    match action.operation
    case Delete =>
    case Rename(_) =>
    case SetExecutable(executable) =>
      ModeBits(e.mode, executable);
    case ProtectedPatch(diff) =>
      UndoableIsUndone(diff, e.content);
      if after[action.path] == e { assert after == w; }
  }

  /** From EXACT_PRE only a patch that does not apply keeps the handler from taking effect. */
  lemma {:induction false} EffectFromPre(action: Action, expected: PreState, w: World)
    requires IsPre(action, expected, w)
    ensures Effect(action, expected, w).None? <==>
      action.operation.ProtectedPatch? && Apply(w[action.path].content, action.operation.diff).Err?
  {}
}
