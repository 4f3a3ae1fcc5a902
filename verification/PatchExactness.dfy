/**
  Exactly which unified diffs can be undone by reversing them, and exactly which reversals are changed
  back by the patch: those whose header positions fit and whose body lines never begin `+++` or `---`.
*/
module PatchExactness {
  import opened Wrappers
  import opened HunkHeaders
  import opened PatchLines
  import opened UnifiedDiff
  import opened PatchHunks
  import opened PatchReversal
  import opened PatchConservation
  import opened EmptyHunks

  // ---------- A source that gives every inconsistent header away ----------

  function Fill(n: nat, filler: Line): (lines: seq<Line>)
    ensures |lines| == n && forall i | 0 <= i < n :: lines[i] == filler
  {
    seq(n, _ => filler)
  }

  /** A text made of the old texts, with filler lines in the gaps and `extra` of them at the end. */
  function Before(hs: seq<Hunk>, at: nat, filler: Line, extra: nat): seq<Line>
    requires InOrder(hs, at)
  {
    if hs == [] then Fill(extra, filler)
    else
      var gap, taken := Gap(hs[0], at), OldText(hs[0].body);
      Fill(gap, filler) + taken + Before(hs[1..], at + gap + |taken|, filler, extra)
  }

  function After(hs: seq<Hunk>, at: nat, filler: Line, extra: nat): seq<Line>
    requires InOrder(hs, at)
  {
    if hs == [] then Fill(extra, filler)
    else
      var gap, taken := Gap(hs[0], at), OldText(hs[0].body);
      Fill(gap, filler) + NewText(hs[0].body) + After(hs[1..], at + gap + |taken|, filler, extra)
  }

  lemma {:induction false} BeforeBecomesAfter(hs: seq<Hunk>, at: nat, filler: Line, extra: nat)
    requires InOrder(hs, at)
    ensures ApplyHunks(Before(hs, at, filler, extra), at, hs) == Some(After(hs, at, filler, extra))
  {
    if hs != [] {
      var gap, taken := Gap(hs[0], at), OldText(hs[0].body);
      BeforeBecomesAfter(hs[1..], at + gap + |taken|, filler, extra);
      FirstHunkFits(Fill(gap, filler), taken, Before(hs[1..], at + gap + |taken|, filler, extra), at, hs);
    }
  }

  /** How many lines are not filler. */
  function Known(lines: seq<Line>, filler: Line): nat {
    if lines == [] then 0 else (if lines[0] == filler then 0 else 1) + Known(lines[1..], filler)
  }

  lemma {:induction false} KnownConcat(a: seq<Line>, b: seq<Line>, filler: Line)
    ensures Known(a + b, filler) == Known(a, filler) + Known(b, filler)
  {
    if a == [] { assert a + b == b; } else {
      assert (a + b)[1..] == a[1..] + b;
      KnownConcat(a[1..], b, filler);
    }
  }

  lemma {:induction false} KnownAll(lines: seq<Line>, filler: Line)
    requires filler !in lines
    ensures Known(lines, filler) == |lines|
  {
    if lines != [] { KnownAll(lines[1..], filler); }
  }

  lemma {:induction false} KnownFill(n: nat, filler: Line)
    ensures Known(Fill(n, filler), filler) == 0
  {
    if n > 0 { assert Fill(n, filler)[1..] == Fill(n - 1, filler); KnownFill(n - 1, filler); }
  }

  lemma {:induction false} KnownNone(lines: seq<Line>, filler: Line, i: nat)
    requires Known(lines, filler) == 0 && i < |lines|
    ensures lines[i] == filler
  {
    if i > 0 { KnownNone(lines[1..], filler, i - 1); }
  }

  ghost predicate Foreign(filler: Line, hs: seq<Hunk>) {
    filler !in OldAll(hs) && filler !in NewAll(hs)
  }

  /** Hunks can only rewrite a text that has all the lines they take. */
  lemma {:induction false} KnownLinesSuffice(rest: seq<Line>, at: nat, hs: seq<Hunk>, filler: Line)
    requires ApplyHunks(rest, at, hs).Some? && filler !in OldAll(hs)
    ensures Known(rest, filler) >= |OldAll(hs)|
    decreases |hs|
  {
    if hs != [] {
      FirstHunk(rest, at, hs);
      var gap, taken := Gap(hs[0], at), OldText(hs[0].body);
      KnownLinesSuffice(rest[gap + |taken|..], at + gap + |taken|, hs[1..], filler);
      SplitAround(rest, gap, taken);
      KnownConcat(rest[..gap] + taken, rest[gap + |taken|..], filler);
      KnownConcat(rest[..gap], taken, filler);
      KnownAll(taken, filler);
    }
  }

  lemma {:induction false} KnownAfter(hs: seq<Hunk>, at: nat, filler: Line, extra: nat)
    requires InOrder(hs, at) && filler !in NewAll(hs)
    ensures Known(After(hs, at, filler, extra), filler) == |NewAll(hs)|
  {
    if hs == [] {
      KnownFill(extra, filler);
    } else {
      var gap, taken, given := Gap(hs[0], at), OldText(hs[0].body), NewText(hs[0].body);
      var later := After(hs[1..], at + gap + |taken|, filler, extra);
      KnownAfter(hs[1..], at + gap + |taken|, filler, extra);
      KnownConcat(Fill(gap, filler) + given, later, filler);
      KnownConcat(Fill(gap, filler), given, filler);
      KnownFill(gap, filler);
      KnownAll(given, filler);
    }
  }

  lemma {:induction false} NothingKnownBefore(out: seq<Line>, gap: nat, taken: seq<Line>, filler: Line)
    requires gap <= |out| && taken <= out[gap..] && filler !in taken
    requires Known(out, filler) <= |taken| + Known(out[gap + |taken|..], filler)
    ensures forall i | 0 <= i < gap :: out[i] == filler
  {
    SplitAround(out, gap, taken);
    KnownConcat(out[..gap] + taken, out[gap + |taken|..], filler);
    KnownConcat(out[..gap], taken, filler);
    KnownAll(taken, filler);
    forall i | 0 <= i < gap ensures out[i] == filler { KnownNone(out[..gap], filler, i); }
  }

  /** What opposite hunks copy before their first hunk is all filler: every known line is taken. */
  lemma {:induction false} CopiedIsFiller(hs: seq<Hunk>, gs: seq<Hunk>, at: nat, at': nat, filler: Line, extra: nat)
    requires hs != [] && AllOpposite(hs, gs) && InOrder(hs, at) && Foreign(filler, hs)
    requires ApplyHunks(After(hs, at, filler, extra), at', gs).Some?
    ensures var gap := Gap(gs[0], at');
      0 <= gap <= |After(hs, at, filler, extra)| && forall i | 0 <= i < gap :: After(hs, at, filler, extra)[i] == filler
  {
    var out, gap, taken := After(hs, at, filler, extra), Gap(gs[0], at'), OldText(gs[0].body);
    FirstHunk(out, at', gs);
    OppositeGrowth(hs, gs);
    KnownAfter(hs, at, filler, extra);
    assert OldAll(gs) == taken + OldAll(gs[1..]);
    KnownLinesSuffice(out[gap + |taken|..], at' + gap + |taken|, gs[1..], filler);
    NothingKnownBefore(out, gap, taken, filler);
  }

  /** The first line that is not filler stands at `k`. */
  ghost predicate FirstKnownAt(lines: seq<Line>, k: nat, filler: Line) {
    k < |lines| && lines[k] != filler && forall i | 0 <= i < k :: lines[i] == filler
  }

  lemma {:induction false} FirstKnownIsUnique(lines: seq<Line>, k: nat, l: nat, filler: Line)
    requires FirstKnownAt(lines, k, filler) && FirstKnownAt(lines, l, filler)
    ensures k == l
  {}

  lemma {:induction false} FirstKnownAfterFill(head: seq<Line>, known: seq<Line>, tail: seq<Line>, filler: Line)
    requires (forall i | 0 <= i < |head| :: head[i] == filler) && known != [] && known[0] != filler
    ensures FirstKnownAt(head + known + tail, |head|, filler)
  {}

  /** If the opposite hunks restore this text, the first of them stands where it should. */
  lemma {:induction false} FirstPositionIsRight(hs: seq<Hunk>, gs: seq<Hunk>, at: nat, at': nat, filler: Line,
      extra: nat)
    requires hs != [] && AllOpposite(hs, gs) && InOrder(hs, at) && Foreign(filler, hs) && NoEmptyHunk(hs)
    requires ApplyHunks(After(hs, at, filler, extra), at', gs) == Some(Before(hs, at, filler, extra))
    ensures Gap(gs[0], at') == Gap(hs[0], at)
  {
    CopiedIsFiller(hs, gs, at, at', filler, extra);
    assert !EmptyHunk(hs[0]);
    if NewText(hs[0].body) != [] {
      GivenStandsRight(hs, gs, at, at', filler, extra);
    } else {
      TakenStandsRight(hs, gs, at, at', After(hs, at, filler, extra), filler, extra);
    }
  }

  /** The first line that is not filler in the changed text is the first line given. */
  lemma {:induction false} GivenStandsRight(hs: seq<Hunk>, gs: seq<Hunk>, at: nat, at': nat, filler: Line, extra: nat)
    requires hs != [] && AllOpposite(hs, gs) && InOrder(hs, at) && Foreign(filler, hs) && NewText(hs[0].body) != []
    requires ApplyHunks(After(hs, at, filler, extra), at', gs).Some? && Gap(gs[0], at') >= 0
    requires forall i | 0 <= i < Gap(gs[0], at') && i < |After(hs, at, filler, extra)| ::
      After(hs, at, filler, extra)[i] == filler
    ensures Gap(gs[0], at') == Gap(hs[0], at)
  {
    var k, next := Gap(hs[0], at), at + Gap(hs[0], at) + |OldText(hs[0].body)|;
    FirstHunk(After(hs, at, filler, extra), at', gs);
    FirstGivenIsKnown(hs, filler);
    TakenAtFirstKnown(Fill(k, filler), NewText(hs[0].body), After(hs[1..], next, filler, extra), Gap(gs[0], at'),
      filler);
  }

  /** The first line that is not filler in the original text is the first line taken. */
  lemma {:induction false} TakenStandsRight(hs: seq<Hunk>, gs: seq<Hunk>, at: nat, at': nat, out: seq<Line>,
      filler: Line, extra: nat)
    requires hs != [] && AllOpposite(hs, gs) && InOrder(hs, at) && Foreign(filler, hs) && OldText(hs[0].body) != []
    requires ApplyHunks(out, at', gs) == Some(Before(hs, at, filler, extra))
    requires 0 <= Gap(gs[0], at') <= |out| && forall i | 0 <= i < Gap(gs[0], at') :: out[i] == filler
    ensures Gap(gs[0], at') == Gap(hs[0], at)
  {
    var k, next := Gap(hs[0], at), at + Gap(hs[0], at) + |OldText(hs[0].body)|;
    FirstTakenIsKnown(hs, filler);
    GivenAtGap(out, at', gs, Fill(k, filler), OldText(hs[0].body), Before(hs[1..], next, filler, extra), filler);
  }

  lemma {:induction false} GivenAtGap(out: seq<Line>, at': nat, gs: seq<Hunk>, fill: seq<Line>, known: seq<Line>,
      tail: seq<Line>, filler: Line)
    requires gs != [] && ApplyHunks(out, at', gs) == Some(fill + known + tail) && NewText(gs[0].body) == known
    requires known != [] && known[0] != filler && forall i | 0 <= i < |fill| :: fill[i] == filler
    requires 0 <= Gap(gs[0], at') <= |out| && forall i | 0 <= i < Gap(gs[0], at') :: out[i] == filler
    ensures Gap(gs[0], at') == |fill|
  {
    FirstHunk(out, at', gs);
    GivenAtFirstKnown(fill, known, tail, out[..Gap(gs[0], at')], LaterHunks(out, at', gs).value, filler);
  }

  lemma {:induction false} FirstGivenIsKnown(hs: seq<Hunk>, filler: Line)
    requires hs != [] && Foreign(filler, hs) && NewText(hs[0].body) != []
    ensures NewText(hs[0].body)[0] != filler
  {
    assert NewText(hs[0].body)[0] in NewAll(hs);
  }

  lemma {:induction false} FirstTakenIsKnown(hs: seq<Hunk>, filler: Line)
    requires hs != [] && Foreign(filler, hs) && OldText(hs[0].body) != []
    ensures OldText(hs[0].body)[0] != filler
  {
    assert OldText(hs[0].body)[0] in OldAll(hs);
  }

  lemma {:induction false} TakenAtFirstKnown(fill: seq<Line>, known: seq<Line>, tail: seq<Line>, d: nat, filler: Line)
    requires (forall i | 0 <= i < |fill| :: fill[i] == filler) && known != [] && known[0] != filler
    requires var out := fill + known + tail;
      d <= |out| && known <= out[d..] && forall i | 0 <= i < d :: out[i] == filler
    ensures d == |fill|
  {
    FirstKnownAfterFill(fill, known, tail, filler);
    TakenIsFirstKnown(fill + known + tail, d, known, filler);
    FirstKnownIsUnique(fill + known + tail, |fill|, d, filler);
  }

  lemma {:induction false} GivenAtFirstKnown(fill: seq<Line>, known: seq<Line>, tail: seq<Line>, copied: seq<Line>,
      later: seq<Line>, filler: Line)
    requires (forall i | 0 <= i < |fill| :: fill[i] == filler) && (forall i | 0 <= i < |copied| :: copied[i] == filler)
    requires known != [] && known[0] != filler
    requires copied + known + later == fill + known + tail
    ensures |copied| == |fill|
  {
    FirstKnownAfterFill(fill, known, tail, filler);
    FirstKnownAfterFill(copied, known, later, filler);
    FirstKnownIsUnique(fill + known + tail, |fill|, |copied|, filler);
  }

  lemma {:induction false} TakenIsFirstKnown(out: seq<Line>, gap: nat, taken: seq<Line>, filler: Line)
    requires gap <= |out| && taken <= out[gap..] && taken != [] && taken[0] != filler
    requires forall i | 0 <= i < gap :: out[i] == filler
    ensures FirstKnownAt(out, gap, filler)
  {
    assert out[gap] == out[gap..][0] == taken[0];
  }

  /** If the opposite hunks restore this text, the headers are consistent. */
  lemma {:induction false} RestoredMeansConsistent(hs: seq<Hunk>, gs: seq<Hunk>, at: nat, at': nat, filler: Line,
      extra: nat)
    requires AllOpposite(hs, gs) && InOrder(hs, at) && Foreign(filler, hs) && NoEmptyHunk(hs)
    requires ApplyHunks(After(hs, at, filler, extra), at', gs) == Some(Before(hs, at, filler, extra))
    ensures Consistent(hs, at' - at)
    decreases |hs|, 1
  {
    if hs != [] {
      FirstPositionIsRight(hs, gs, at, at', filler, extra);
      var next := at + Gap(hs[0], at) + |OldText(hs[0].body)|;
      var next' := at' + Gap(hs[0], at) + |NewText(hs[0].body)|;
      LaterAreRestored(hs, gs, at, at', next, next', filler, extra);
      LaterFromRestored(hs, gs, next, next', filler, extra);
      ConsistentFromFirst(hs, gs, at, at', next' - next);
    }
  }

  lemma {:induction false} LaterFromRestored(hs: seq<Hunk>, gs: seq<Hunk>, next: nat, next': nat, filler: Line,
      extra: nat)
    requires hs != [] && AllOpposite(hs, gs) && Foreign(filler, hs) && NoEmptyHunk(hs) && InOrder(hs[1..], next)
    requires ApplyHunks(After(hs[1..], next, filler, extra), next', gs[1..]) ==
      Some(Before(hs[1..], next, filler, extra))
    ensures Consistent(hs[1..], next' - next)
    decreases |hs|, 0
  {
    ForeignToLater(hs, filler);
    RestoredMeansConsistent(hs[1..], gs[1..], next, next', filler, extra);
  }

  lemma {:induction false} ForeignToLater(hs: seq<Hunk>, filler: Line)
    requires hs != [] && Foreign(filler, hs)
    ensures Foreign(filler, hs[1..])
  {
    assert forall l | l in OldAll(hs[1..]) :: l in OldAll(hs);
    assert forall l | l in NewAll(hs[1..]) :: l in NewAll(hs);
  }

  lemma {:induction false} ConsistentFromFirst(hs: seq<Hunk>, gs: seq<Hunk>, at: nat, at': nat, offset: int)
    requires hs != [] && AllOpposite(hs, gs) && Gap(gs[0], at') == Gap(hs[0], at)
    requires Consistent(hs[1..], offset) && offset == at' - at + |NewText(hs[0].body)| - |OldText(hs[0].body)|
    ensures Consistent(hs, at' - at)
  {}

  lemma {:induction false} LaterAreRestored(hs: seq<Hunk>, gs: seq<Hunk>, at: nat, at': nat, next: nat, next': nat,
      filler: Line,
      extra: nat)
    requires hs != [] && AllOpposite(hs, gs) && InOrder(hs, at)
    requires ApplyHunks(After(hs, at, filler, extra), at', gs) == Some(Before(hs, at, filler, extra))
    requires Gap(gs[0], at') == Gap(hs[0], at)
    requires next == at + Gap(hs[0], at) + |OldText(hs[0].body)|
      && next' == at' + Gap(hs[0], at) + |NewText(hs[0].body)|
    ensures InOrder(hs[1..], next)
    ensures ApplyHunks(After(hs[1..], next, filler, extra), next', gs[1..]) ==
      Some(Before(hs[1..], next, filler, extra))
  {
    var k, taken, given := Gap(hs[0], at), OldText(hs[0].body), NewText(hs[0].body);
    FirstHunkFits(Fill(k, filler), given, After(hs[1..], next, filler, extra), at', gs);
    var rewritten := ApplyHunks(After(hs[1..], next, filler, extra), next', gs[1..]);
    SameTail(Fill(k, filler) + taken, rewritten.value, Before(hs[1..], next, filler, extra));
  }

  lemma {:induction false} SameTail(head: seq<Line>, a: seq<Line>, b: seq<Line>)
    requires head + a == head + b
    ensures a == b
  {
    assert (head + a)[|head|..] == a && (head + b)[|head|..] == b;
  }

  // ---------- The exact class of reversible patches ----------

  function LongerThanAll(lines: seq<Line>): (n: nat)
    ensures forall l | l in lines :: |l| < n
  {
    if lines == [] then 1 else
    var n := LongerThanAll(lines[1..]);
    if |lines[0]| < n then n else |lines[0]| + 1
  }

  /** A line that occurs in no hunk. */
  function FillerLine(hs: seq<Hunk>): (filler: Line)
    ensures Foreign(filler, hs)
  {
    var known := OldAll(hs) + NewAll(hs);
    var n := LongerThanAll(known);
    var filler := seq(n, _ => 'x') + "\n";
    assert |filler| == n + 1 && filler !in known;
    assert (forall l | l in OldAll(hs) :: l in known) && (forall l | l in NewAll(hs) :: l in known);
    filler
  }

  ghost predicate UndoneOn(patch: seq<Line>, source: seq<Line>) {
    Apply(source, patch).Ok? ==> Unapply(Apply(source, patch).value, patch) == Ok(source)
  }

  /** A patch that is undone on one text it applies to has no body line beginning `+++` or `---`. */
  lemma {:induction false} UndoneMeansFlippable(patch: seq<Line>, source: seq<Line>)
    requires WellFormedPatch(patch) && Apply(source, patch).Ok? && UndoneOn(patch, source)
    ensures NoUnflippedLine(patch)
  {
    var current := Apply(source, patch).value;
    AppliesAsHunks(source, patch);
    ApplyMeaning(current, Reversed(patch));
    ReversedIsMirror(patch);
    MirrorParse(Classified(patch), Classified(Reversed(patch)));
    AppliesAsHunks(current, Reversed(patch));
    UndoneHunksAreFlippable(HunksOf(patch), HunksOf(Reversed(patch)), source);
  }

  // ---------- On hunks ----------

  /**
    New positions fit: hunks that change something are moved by the earlier ones, empty ones stay in order and in the
    text.
  */
  predicate UndoableHunks(hs: seq<Hunk>) {
    Consistent(Solid(hs), 0) && NewInOrder(hs, 0) && NewEnd(hs, 0) <= End(hs, 0) + Growth(hs)
  }

  /** The same for the old positions. */
  predicate RedoableHunks(hs: seq<Hunk>) {
    Consistent(Solid(hs), 0) && InOrder(hs, 0) && End(hs, 0) + Growth(hs) <= NewEnd(hs, 0)
  }

  ghost predicate UndoneByHunks(hs: seq<Hunk>, gs: seq<Hunk>) {
    forall source | ApplyHunks(source, 0, hs).Some? ::
      ApplyHunks(ApplyHunks(source, 0, hs).value, 0, gs) == Some(source)
  }

  lemma {:induction false} UndoableUndoes(hs: seq<Hunk>, gs: seq<Hunk>, source: seq<Line>)
    requires AllOpposite(hs, gs) && UndoableHunks(hs) && ApplyHunks(source, 0, hs).Some?
    ensures ApplyHunks(ApplyHunks(source, 0, hs).value, 0, gs) == Some(source)
  {
    var current := ApplyHunks(source, 0, hs).value;
    AppliedWithoutEmptyHunks(source, 0, hs);
    AppliedWithoutEmptyHunks(current, 0, gs);
    AppliedLength(source, 0, hs);
    OppositeOrder(hs, gs, 0);
    OppositeEnd(hs, gs, 0);
    SolidOpposite(hs, gs);
    OppositeUndoes(source, 0, Solid(hs), Solid(gs), 0);
  }

  lemma {:induction false} BeforeLength(hs: seq<Hunk>, at: nat, filler: Line, extra: nat)
    requires InOrder(hs, at)
    ensures |Before(hs, at, filler, extra)| == End(hs, at) - at + extra
  {
    if hs != [] { BeforeLength(hs[1..], at + Gap(hs[0], at) + |OldText(hs[0].body)|, filler, extra); }
  }

  lemma {:induction false} BeforeApplies(hs: seq<Hunk>, filler: Line, extra: nat, source: seq<Line>)
    requires InOrder(hs, 0) && source == Before(hs, 0, filler, extra)
    ensures |source| == End(hs, 0) + extra && ApplyHunks(source, 0, hs).Some?
  {
    BeforeLength(hs, 0, filler, extra);
    BeforeBecomesAfter(hs, 0, filler, extra);
  }

  /** The shortest text that the hunks apply to, up to the choice of the filler. */
  lemma {:induction false} ShortestSource(hs: seq<Hunk>, filler: Line) returns (source: seq<Line>, extra: nat)
    requires InOrder(hs, 0)
    ensures InOrder(Solid(hs), 0) && source == Before(Solid(hs), 0, filler, extra)
    ensures |source| == End(hs, 0) && ApplyHunks(source, 0, hs).Some?
  {
    SolidInOrder(hs, 0);
    extra := End(hs, 0) - End(Solid(hs), 0);
    source := Before(Solid(hs), 0, filler, extra);
    BeforeApplies(Solid(hs), filler, extra, source);
    AppliedWithoutEmptyHunks(source, 0, hs);
  }

  lemma {:induction false} SolidRestore(hs: seq<Hunk>, gs: seq<Hunk>, source: seq<Line>, current: seq<Line>)
    requires ApplyHunks(source, 0, hs) == Some(current) && ApplyHunks(current, 0, gs) == Some(source)
    ensures ApplyHunks(source, 0, Solid(hs)) == Some(current) && ApplyHunks(current, 0, Solid(gs)) == Some(source)
  {
    AppliedWithoutEmptyHunks(source, 0, hs);
    AppliedWithoutEmptyHunks(current, 0, gs);
  }

  lemma {:induction false} RestoredBefore(hs: seq<Hunk>, gs: seq<Hunk>, filler: Line, extra: nat, current: seq<Line>)
    requires AllOpposite(hs, gs) && Foreign(filler, hs) && NoEmptyHunk(hs) && InOrder(hs, 0)
    requires ApplyHunks(Before(hs, 0, filler, extra), 0, hs) == Some(current)
    requires ApplyHunks(current, 0, gs) == Some(Before(hs, 0, filler, extra))
    ensures Consistent(hs, 0)
  {
    BeforeBecomesAfter(hs, 0, filler, extra);
    RestoredMeansConsistent(hs, gs, 0, 0, filler, extra);
  }

  lemma {:induction false} RestoredShortest(hs: seq<Hunk>, gs: seq<Hunk>, filler: Line, extra: nat, source: seq<Line>,
      current: seq<Line>)
    requires AllOpposite(hs, gs) && Foreign(filler, hs)
    requires InOrder(Solid(hs), 0) && source == Before(Solid(hs), 0, filler, extra)
    requires ApplyHunks(source, 0, hs) == Some(current) && ApplyHunks(current, 0, gs) == Some(source)
    ensures Consistent(Solid(hs), 0)
  {
    SolidRestore(hs, gs, source, current);
    SolidOpposite(hs, gs);
    SolidTexts(hs);
    SolidIsNotEmpty(hs);
    RestoredBefore(Solid(hs), Solid(gs), filler, extra, current);
  }

  /** If a text as short as the old positions allow is restored, the new positions are in reach. */
  lemma {:induction false} RestoredReach(hs: seq<Hunk>, gs: seq<Hunk>, source: seq<Line>)
    requires AllOpposite(hs, gs) && |source| == End(hs, 0) && ApplyHunks(source, 0, hs).Some?
    requires ApplyHunks(ApplyHunks(source, 0, hs).value, 0, gs).Some?
    ensures NewInOrder(hs, 0) && NewEnd(hs, 0) <= End(hs, 0) + Growth(hs)
  {
    AppliedLength(source, 0, hs);
    AppliedWithoutEmptyHunks(ApplyHunks(source, 0, hs).value, 0, gs);
    OppositeOrder(hs, gs, 0);
    OppositeEnd(hs, gs, 0);
  }

  lemma {:induction false} UndoneMeansUndoable(hs: seq<Hunk>, gs: seq<Hunk>)
    requires AllOpposite(hs, gs) && InOrder(hs, 0) && UndoneByHunks(hs, gs)
    ensures UndoableHunks(hs)
  {
    var filler := FillerLine(hs);
    var source, extra := ShortestSource(hs, filler);
    RestoredReach(hs, gs, source);
    RestoredShortest(hs, gs, filler, extra, source, ApplyHunks(source, 0, hs).value);
  }

  lemma {:induction false} OppositeIsRedoable(hs: seq<Hunk>, gs: seq<Hunk>)
    requires AllOpposite(hs, gs)
    ensures AllOpposite(gs, hs) && (UndoableHunks(gs) <==> RedoableHunks(hs))
  {
    OppositeSymmetric(hs, gs);
    OppositeOrder(gs, hs, 0);
    OppositeEnd(hs, gs, 0);
    OppositeEnd(gs, hs, 0);
    OppositeGrowth(hs, gs);
    SolidOpposite(hs, gs);
    SolidOpposite(gs, hs);
    if Consistent(Solid(hs), 0) { OppositeConsistent(Solid(hs), Solid(gs), 0); }
    if Consistent(Solid(gs), 0) { OppositeConsistent(Solid(gs), Solid(hs), 0); }
  }

  // ---------- On patches ----------

  /** The patch applies to some text. */
  predicate Applicable(patch: seq<Line>) {
    WellFormedPatch(patch) && InOrder(HunksOf(patch), 0)
  }

  lemma {:induction false} AppliedIsApplicable(patch: seq<Line>, source: seq<Line>)
    requires Apply(source, patch).Ok?
    ensures Applicable(patch)
  {
    ApplyMeaning(source, patch);
    AppliedWithoutEmptyHunks(source, 0, HunksOf(patch));
  }

  lemma {:induction false} ApplicableApplies(patch: seq<Line>) returns (source: seq<Line>)
    requires Applicable(patch)
    ensures Apply(source, patch).Ok?
  {
    var extra;
    source, extra := ShortestSource(HunksOf(patch), "");
    AppliesAsHunks(source, patch);
  }

  /** Whether a patch applies to any text can be read off its headers and counts. */
  lemma {:induction false} AppliesSomewhereExactly(patch: seq<Line>)
    ensures Applicable(patch) <==> exists source :: Apply(source, patch).Ok?
  {
    if Applicable(patch) { var source := ApplicableApplies(patch); }
    forall source | Apply(source, patch).Ok? ensures Applicable(patch) { AppliedIsApplicable(patch, source); }
  }

  predicate Undoable(patch: seq<Line>) {
    Applicable(patch) ==> UndoableHunks(HunksOf(patch)) && NoUnflippedLine(patch)
  }

  predicate Redoable(patch: seq<Line>) {
    Applicable(Reversed(patch)) ==>
      WellFormedPatch(patch) && RedoableHunks(HunksOf(patch)) && NoUnflippedLine(patch)
  }

  ghost predicate RedoneOn(patch: seq<Line>, current: seq<Line>) {
    Unapply(current, patch).Ok? ==> Apply(Unapply(current, patch).value, patch) == Ok(current)
  }

  lemma {:induction false} UndoableIsUndone(patch: seq<Line>, source: seq<Line>)
    requires Undoable(patch)
    ensures UndoneOn(patch, source)
  {
    if Apply(source, patch).Ok? {
      AppliedIsApplicable(patch, source);
      ReversedHunksAreOpposite(patch);
      AppliesAsHunks(source, patch);
      AppliesAsHunks(Apply(source, patch).value, Reversed(patch));
      UndoableUndoes(HunksOf(patch), HunksOf(Reversed(patch)), source);
    }
  }

  lemma {:induction false} UndoneIsUndoable(patch: seq<Line>)
    requires forall source :: UndoneOn(patch, source)
    ensures Undoable(patch)
  {
    if Applicable(patch) {
      var sample := ApplicableApplies(patch);
      UndoneMeansFlippable(patch, sample);
      ReversedHunksAreOpposite(patch);
      var hs, gs := HunksOf(patch), HunksOf(Reversed(patch));
      forall source | ApplyHunks(source, 0, hs).Some?
        ensures ApplyHunks(ApplyHunks(source, 0, hs).value, 0, gs) == Some(source)
      {
        AppliesAsHunks(source, patch);
        assert UndoneOn(patch, source);
        AppliesAsHunks(Apply(source, patch).value, Reversed(patch));
      }
      UndoneMeansUndoable(hs, gs);
    }
  }

  /**
    A patch is undone by its reversal on every text it applies to if and only if it applies to none, or
    its new positions fit and no body line begins `+++` or `---`.
  */
  lemma {:induction false} UndoneEverywhereExactly(patch: seq<Line>)
    ensures Undoable(patch) <==> forall source :: UndoneOn(patch, source)
  {
    if Undoable(patch) {
      forall source ensures UndoneOn(patch, source) { UndoableIsUndone(patch, source); }
    }
    if forall source :: UndoneOn(patch, source) { UndoneIsUndoable(patch); }
  }

  lemma {:induction false} RedoableIsRedone(patch: seq<Line>, current: seq<Line>)
    requires Redoable(patch)
    ensures RedoneOn(patch, current)
  {
    if Unapply(current, patch).Ok? {
      AppliedIsApplicable(Reversed(patch), current);
      ReversedHunksAreOpposite(patch);
      AppliesAsHunks(current, Reversed(patch));
      AppliesAsHunks(Unapply(current, patch).value, patch);
      OppositeIsRedoable(HunksOf(patch), HunksOf(Reversed(patch)));
      UndoableUndoes(HunksOf(Reversed(patch)), HunksOf(patch), current);
    }
  }

  lemma {:induction false} RedoneIsRedoable(patch: seq<Line>)
    requires forall current :: RedoneOn(patch, current)
    ensures Redoable(patch)
  {
    if Applicable(Reversed(patch)) {
      var sample := ApplicableApplies(Reversed(patch));
      assert RedoneOn(patch, sample);
      AppliedIsApplicable(patch, Unapply(sample, patch).value);
      UndoneMeansFlippable(patch, Unapply(sample, patch).value);
      ReversedHunksAreOpposite(patch);
      var hs, gs := HunksOf(patch), HunksOf(Reversed(patch));
      forall current | ApplyHunks(current, 0, gs).Some?
        ensures ApplyHunks(ApplyHunks(current, 0, gs).value, 0, hs) == Some(current)
      {
        AppliesAsHunks(current, Reversed(patch));
        assert RedoneOn(patch, current);
        AppliesAsHunks(Unapply(current, patch).value, patch);
      }
      OppositeIsRedoable(hs, gs);
      UndoneMeansUndoable(gs, hs);
    }
  }

  /**
    What a reversal yields is changed back by the patch, for every text that can be reversed, if and
    only if none can, or the old positions fit and no body line begins `+++` or `---`.
  */
  lemma {:induction false} RedoneEverywhereExactly(patch: seq<Line>)
    ensures Redoable(patch) <==> forall current :: RedoneOn(patch, current)
  {
    if Redoable(patch) {
      forall current ensures RedoneOn(patch, current) { RedoableIsRedone(patch, current); }
    }
    if forall current :: RedoneOn(patch, current) { RedoneIsRedoable(patch); }
  }

  /** The patch and its reversal are inverse, on all texts, exactly for the patches that satisfy both conditions. */
  lemma {:induction false} InverseExactly(patch: seq<Line>)
    ensures Undoable(patch) && Redoable(patch) <==>
      forall source, current :: Apply(source, patch) == Ok(current) <==> Unapply(current, patch) == Ok(source)
  {
    UndoneEverywhereExactly(patch);
    RedoneEverywhereExactly(patch);
    if Undoable(patch) && Redoable(patch) {
      forall source, current
        ensures Apply(source, patch) == Ok(current) <==> Unapply(current, patch) == Ok(source)
      {
        assert UndoneOn(patch, source) && RedoneOn(patch, current);
      }
    }
    if forall source, current :: Apply(source, patch) == Ok(current) <==> Unapply(current, patch) == Ok(source) {
      forall source ensures UndoneOn(patch, source) {
        if Apply(source, patch).Ok? { assert Apply(source, patch) == Ok(Apply(source, patch).value); }
      }
      forall current ensures RedoneOn(patch, current) {
        if Unapply(current, patch).Ok? { assert Unapply(current, patch) == Ok(Unapply(current, patch).value); }
      }
    }
  }

  // ---------- Without empty hunks ----------

  lemma {:induction false} NothingToLeaveOut(hs: seq<Hunk>)
    requires NoEmptyHunk(hs)
    ensures Solid(hs) == hs
  {
    if hs != [] { NothingToLeaveOut(hs[1..]); }
  }

  lemma {:induction false} ConsistentOrder(hs: seq<Hunk>, at: nat, at': nat)
    requires Consistent(hs, at' - at)
    ensures InOrder(hs, at) <==> NewInOrder(hs, at')
  {
    if hs != [] && Gap(hs[0], at) >= 0 {
      ConsistentOrder(hs[1..], hs[0].header.oldStart - 1 + |OldText(hs[0].body)|,
        hs[0].header.newStart - 1 + |NewText(hs[0].body)|);
    }
  }

  lemma {:induction false} ConsistentEnd(hs: seq<Hunk>, at: int, at': int)
    requires Consistent(hs, at' - at)
    ensures NewEnd(hs, at') == End(hs, at) + Growth(hs) + at' - at
  {
    if hs != [] {
      ConsistentEnd(hs[1..], hs[0].header.oldStart - 1 + |OldText(hs[0].body)|,
        hs[0].header.newStart - 1 + |NewText(hs[0].body)|);
    }
  }

  /** Without empty hunks, positions that fit are consistent headers. */
  lemma {:induction false} FittingIsConsistent(hs: seq<Hunk>)
    requires NoEmptyHunk(hs)
    ensures InOrder(hs, 0) ==> (UndoableHunks(hs) <==> Consistent(hs, 0))
    ensures NewInOrder(hs, 0) ==> (RedoableHunks(hs) <==> Consistent(hs, 0))
  {
    NothingToLeaveOut(hs);
    if Consistent(hs, 0) {
      ConsistentOrder(hs, 0, 0);
      ConsistentEnd(hs, 0, 0);
    }
  }

  // ---------- Patches that are not undone ----------

  function OneHunkPatch(h: Header, body: seq<Line>): seq<Line> {
    [PrintHeader(h, "\n")] + body
  }

  lemma {:induction false} OneHunkLines(line: PatchLine, h: Header, body: seq<PatchLine>)
    requires !line.fileHeader && line.header == Some(h) && WellFormedHunk(Hunk(h, body))
    ensures ParseHunks([line] + body) == Some([Hunk(h, body)])
  {
    var lines := [line] + body;
    assert lines[1..] == body && body[..|body|] == body && lines[1 + |body|..] == [];
    WholeBody(body);
    ParseHeaded(lines, Hunk(h, body));
    assert [Hunk(h, body)] + [] == [Hunk(h, body)];
  }

  lemma {:induction false} MapLinesHead<A, B>(f: A -> B, head: A, tail: seq<A>)
    ensures MapLines(f, [head] + tail) == [f(head)] + MapLines(f, tail)
  {
    assert ([head] + tail)[1..] == tail;
  }

  /** Reading a one-hunk patch: its header and its body. */
  lemma {:induction false} OneHunkParses(h: Header, body: seq<Line>)
    requires WellFormedHunk(Hunk(h, Classified(body)))
    ensures ParseHunks(Classified(OneHunkPatch(h, body))) == Some([Hunk(h, Classified(body))])
  {
    var line := PrintHeader(h, "\n");
    ParsePrintedHeader(h, "\n");
    HeaderLineFacts(line);
    MapLinesHead(Classify, line, body);
    OneHunkLines(Classify(line), h, Classified(body));
  }

  lemma {:induction false} WholeBody(body: seq<PatchLine>)
    requires WellFormedBody(body)
    ensures BodyLength(body) == |body|
  {
    if body != [] {
      assert WellFormedLine(body[0]);
      forall i | 0 <= i < |body[1..]| ensures WellFormedLine(body[1..][i]) { assert WellFormedLine(body[i + 1]); }
      WholeBody(body[1..]);
    }
  }

  lemma {:induction false} OneLineBody(line: Line)
    requires BodyOf(line).Some?
    ensures WellFormedBody(Classified([line]))
    ensures OldText(Classified([line])) == if BodyOf(line).value.TakesOld() then [line[1..]] else []
    ensures NewText(Classified([line])) == if BodyOf(line).value.GivesNew() then [line[1..]] else []
  {
    BodyLineFacts(line);
    assert Classified([line]) == [Classify(line)] by { assert [line][1..] == []; }
    assert [Classify(line)][1..] == [];
  }

  /** Hunks that are to start at line 0 never apply. */
  lemma {:induction false} StartingAtZeroFails(rest: seq<Line>, hs: seq<Hunk>)
    requires hs != [] && hs[0].header.oldStart == 0
    ensures ApplyHunks(rest, 0, hs).None?
  {}

  // Removing the only line of a file: the usual header `-1,1 +0,0` applies, and its reversal does not.
  lemma {:induction false} EmptyingAFileIsNotUndone(removal: Line)
    requires removal != "" && removal[0] == '-'
    ensures var patch := OneHunkPatch(Header(1, 1, 0, 0), [removal]);
      Apply([removal[1..]], patch) == Ok([]) && Unapply([], patch).Err?
  {
    var h := Header(1, 1, 0, 0);
    var patch := OneHunkPatch(h, [removal]);
    OneLineBody(removal);
    OneHunkParses(h, [removal]);
    AppliesAsHunks([removal[1..]], patch);
    RemovalHunk(Hunk(h, Classified([removal])), removal[1..]);
    ReversedIsMirror(patch);
    MirrorParse(Classified(patch), Classified(Reversed(patch)));
    ApplyMeaning([], Reversed(patch));
    if ParseHunks(Classified(Reversed(patch))).Some? {
      StartingAtZeroFails([], ParseHunks(Classified(Reversed(patch))).value);
    }
  }

  lemma {:induction false} RemovalHunk(h: Hunk, x: Line)
    requires h.header.oldStart == 1 && OldText(h.body) == [x] && NewText(h.body) == []
    ensures ApplyHunks([x], 0, [h]) == Some([])
  {
    FirstHunkFits([], [x], [], 0, [h]);
    assert [h][1..] == [];
    assert [] + [x] + [] == [x];
    assert PrependSome([] + NewText(h.body), Some([])) == Some([]);
  }

  /** A hunk that replaces the only line of a text. */
  lemma {:induction false} ReplacementHunk(l: PatchLine, r: PatchLine, x: Line, y: Line)
    requires WellFormedLine(l) && Role(l) == Some(BodyText(Removal, x))
    requires WellFormedLine(r) && Role(r) == Some(BodyText(Addition, y))
    ensures WellFormedHunk(Hunk(Header(1, 1, 1, 1), [l, r]))
    ensures ApplyHunks([x], 0, [Hunk(Header(1, 1, 1, 1), [l, r])]) == Some([y])
  {
    assert [l, r] == [l] + [r] && [r] == [r] + [];
    BodyHead(l, [r]);
    BodyHead(r, []);
    var h := Hunk(Header(1, 1, 1, 1), [l, r]);
    assert OldText(h.body) == [x] && NewText(h.body) == [y];
    FirstHunkFits([], [x], [], 0, [h]);
    assert [h][1..] == [];
    assert [] + [x] + [] == [x];
    assert PrependSome([] + NewText(h.body), Some([])) == Some([y]) by { assert ([] + [y]) + [] == [y]; }
  }

  lemma {:induction false} ReplacingOneLine(removal: Line, addition: Line)
    requires removal != "" && removal[0] == '-' && addition != "" && addition[0] == '+'
    ensures var patch := OneHunkPatch(Header(1, 1, 1, 1), [removal, addition]);
      && WellFormedPatch(patch) && HunksOf(patch) == [Hunk(Header(1, 1, 1, 1), [Classify(removal), Classify(addition)])]
      && Apply([removal[1..]], patch) == Ok([addition[1..]])
  {
    BodyLineFacts(removal);
    BodyLineFacts(addition);
    ReplacementHunk(Classify(removal), Classify(addition), removal[1..], addition[1..]);
    TwoLinesAreClassified(removal, addition);
    OneHunkParses(Header(1, 1, 1, 1), [removal, addition]);
    AppliesAsHunks([removal[1..]], OneHunkPatch(Header(1, 1, 1, 1), [removal, addition]));
  }

  lemma {:induction false} TwoLinesAreClassified(a: Line, b: Line)
    ensures Classified([a, b]) == [Classify(a), Classify(b)]
  {
    OneLineIsClassified(b);
    assert [a, b] == [a] + [b];
    MapLinesHead(Classify, a, [b]);
  }

  // The header that a diff without context gives an insertion after the first line: the line is inserted
  // before it instead, and the reversal of the text that was meant gives the original text all the same.
  lemma {:induction false} ZeroContextInsertionIsMisread(first: Line, addition: Line)
    requires addition != "" && addition[0] == '+' && !IsTripled(addition)
    ensures var patch := OneHunkPatch(Header(1, 0, 2, 1), [addition]);
      && WellFormedPatch(patch) && NoUnflippedLine(patch)
      && Unapply([first, addition[1..]], patch) == Ok([first])
      && Apply([first], patch) == Ok([addition[1..], first])
  {
    var x, patch := addition[1..], OneHunkPatch(Header(1, 0, 2, 1), [addition]);
    InsertionPatch(addition, patch);
    ReversedHunksAreOpposite(patch);
    AppliesAsHunks([first], patch);
    AppliesAsHunks([first, x], Reversed(patch));
    InsertionHunks(HunksOf(patch), HunksOf(Reversed(patch)), first, x);
  }

  lemma {:induction false} InsertionPatch(addition: Line, patch: seq<Line>)
    requires addition != "" && addition[0] == '+' && !IsTripled(addition)
    requires patch == OneHunkPatch(Header(1, 0, 2, 1), [addition])
    ensures WellFormedPatch(patch) && NoUnflippedLine(patch) && |HunksOf(patch)| == 1
    ensures HunksOf(patch)[0].header == Header(1, 0, 2, 1)
    ensures OldText(HunksOf(patch)[0].body) == [] && NewText(HunksOf(patch)[0].body) == [addition[1..]]
  {
    OneLineBody(addition);
    OneHunkParses(Header(1, 0, 2, 1), [addition]);
    OneLineIsClassified(addition);
  }

  lemma {:induction false} InsertionHunks(hs: seq<Hunk>, gs: seq<Hunk>, first: Line, x: Line)
    requires AllOpposite(hs, gs) && |hs| == 1 && hs[0].header == Header(1, 0, 2, 1)
    requires OldText(hs[0].body) == [] && NewText(hs[0].body) == [x]
    ensures ApplyHunks([first], 0, hs) == Some([x, first]) && ApplyHunks([first, x], 0, gs) == Some([first])
  {
    assert gs[1..] == hs[1..] == [];
    assert hs == [hs[0]] && gs == [gs[0]];
    InsertionHunk(hs[0], first, x);
    DeletionHunk(gs[0], first, x);
  }

  lemma {:induction false} InsertionHunk(h: Hunk, first: Line, x: Line)
    requires h.header.oldStart == 1 && OldText(h.body) == [] && NewText(h.body) == [x]
    ensures ApplyHunks([first], 0, [h]) == Some([x, first])
  {
    FirstHunkFits([], [], [first], 0, [h]);
    assert [h][1..] == [] && [] + [] + [first] == [first];
    assert ([] + [x]) + [first] == [x, first];
  }

  lemma {:induction false} DeletionHunk(h: Hunk, first: Line, x: Line)
    requires h.header.oldStart == 2 && OldText(h.body) == [x] && NewText(h.body) == []
    ensures ApplyHunks([first, x], 0, [h]) == Some([first])
  {
    FirstHunkFits([first], [x], [], 0, [h]);
    assert [h][1..] == [] && [first] + [x] + [] == [first, x];
    assert ([first] + []) + [] == [first];
  }

  lemma {:induction false} EmptyHunkFacts(h: Hunk)
    requires h.body == []
    ensures InOrder([h], 0) <==> h.header.oldStart >= 1
    ensures AllFlippable([h]) && (UndoableHunks([h]) <==> 1 <= h.header.newStart <= h.header.oldStart)
  {
    var hs, later := [h], [h][1..];
    assert later == [] && OldText(h.body) == [] && NewText(h.body) == [] && Solid(hs) == [];
    assert NewInOrder(hs, 0) <==> h.header.newStart >= 1;
    assert End(hs, 0) == h.header.oldStart - 1 && NewEnd(hs, 0) == h.header.newStart - 1;
    assert OldAll(later) == [] && NewAll(later) == [] && Growth(hs) == 0;
  }

  lemma {:induction false} EmptyHunkApplies(h: Hunk, source: seq<Line>)
    requires h.body == []
    ensures ApplyHunks(source, 0, [h]) == if 1 <= h.header.oldStart <= |source| + 1 then Some(source) else None
  {
    var later := [h][1..];
    assert later == [] && Solid([h]) == [];
    assert End([h], 0) == h.header.oldStart - 1;
    AppliedWithoutEmptyHunks(source, 0, [h]);
  }

  lemma {:induction false} EmptyHunkPatch(patch: seq<Line>, h: Hunk)
    requires WellFormedPatch(patch) && HunksOf(patch) == [h] && h.body == []
    ensures forall source :: Apply(source, patch).Ok? <==> 1 <= h.header.oldStart <= |source| + 1
    ensures Undoable(patch) <==> (h.header.oldStart >= 1 ==> 1 <= h.header.newStart <= h.header.oldStart)
  {
    EmptyHunkFacts(h);
    forall source
      ensures Apply(source, patch).Ok? <==> 1 <= h.header.oldStart <= |source| + 1
    {
      AppliesAsHunks(source, patch);
      EmptyHunkApplies(h, source);
    }
  }

  /**
    A patch whose one hunk takes and gives nothing needs the lines before its old position, and is undone
    everywhere exactly if its new position is not beyond the old one; its header need not be consistent.
  */
  lemma {:induction false} EmptyHunkIsUndoneExactly(oldStart: nat, newStart: nat)
    ensures var patch := OneHunkPatch(Header(oldStart, 0, newStart, 0), []);
      && (forall source :: Apply(source, patch).Ok? <==> 1 <= oldStart <= |source| + 1)
      && ((forall source :: UndoneOn(patch, source)) <==> (oldStart >= 1 ==> 1 <= newStart <= oldStart))
  {
    var h := Hunk(Header(oldStart, 0, newStart, 0), []);
    OneHunkParses(h.header, []);
    EmptyHunkPatch(OneHunkPatch(h.header, []), h);
    UndoneEverywhereExactly(OneHunkPatch(h.header, []));
  }

  /** Replacing a line that begins `--`: its body line begins `---`, and the reversal does not undo it. */
  lemma {:induction false} ReplacingDashedLineIsNotUndone(removal: Line, addition: Line)
    requires removal != "" && removal[0] == '-' && IsTripled(removal) && addition != "" && addition[0] == '+'
    ensures var patch := OneHunkPatch(Header(1, 1, 1, 1), [removal, addition]);
      Apply([removal[1..]], patch) == Ok([addition[1..]]) && !UndoneOn(patch, [removal[1..]])
  {
    var patch := OneHunkPatch(Header(1, 1, 1, 1), [removal, addition]);
    ReplacingOneLine(removal, addition);
    BodyLineFacts(removal);
    assert !FlippableLine(HunksOf(patch)[0].body[0]);
    if UndoneOn(patch, [removal[1..]]) { UndoneMeansFlippable(patch, [removal[1..]]); }
  }

  // The line `--x` replaced by `++y`.
  lemma {:induction false} DashedExample()
    ensures var patch := OneHunkPatch(Header(1, 1, 1, 1), ["---x", "+++y"]);
      Apply(["--x"], patch) == Ok(["++y"]) && !UndoneOn(patch, ["--x"])
  {
    ReplacingDashedLineIsNotUndone("---x", "+++y");
    assert "---x"[1..] == "--x" && "+++y"[1..] == "++y";
  }

  lemma {:induction false} OneLineIsClassified(line: Line)
    ensures Classified([line]) == [Classify(line)]
  {
    assert [line][1..] == [];
  }
}
