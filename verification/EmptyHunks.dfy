/**
  Hunks that take and give nothing: they change no text, but the order of positions and the end of the
  text are checked at them. Applying a patch is applying its other hunks, under these checks.
*/
module EmptyHunks {
  import opened Wrappers
  import opened PatchLines
  import opened PatchHunks
  import opened PatchReversal
  import opened PatchConservation

  predicate EmptyHunk(h: Hunk) {
    OldText(h.body) == [] && NewText(h.body) == []
  }

  predicate NoEmptyHunk(hs: seq<Hunk>) {
    forall i | 0 <= i < |hs| :: !EmptyHunk(hs[i])
  }

  /** The hunks that change something. */
  function Solid(hs: seq<Hunk>): seq<Hunk> {
    if hs == [] then [] else if EmptyHunk(hs[0]) then Solid(hs[1..]) else [hs[0]] + Solid(hs[1..])
  }

  /** Hunks in order: none starts before the end of the previous one. */
  predicate InOrder(hs: seq<Hunk>, at: nat) {
    hs == [] || (Gap(hs[0], at) >= 0 && InOrder(hs[1..], at + Gap(hs[0], at) + |OldText(hs[0].body)|))
  }

  /** Where the last hunk ends. */
  function End(hs: seq<Hunk>, at: int): int {
    if hs == [] then at else End(hs[1..], hs[0].header.oldStart - 1 + |OldText(hs[0].body)|)
  }

  /** The same for the new positions. */
  predicate NewInOrder(hs: seq<Hunk>, at: nat) {
    hs == [] ||
    (hs[0].header.newStart - 1 >= at && NewInOrder(hs[1..], hs[0].header.newStart - 1 + |NewText(hs[0].body)|))
  }

  function NewEnd(hs: seq<Hunk>, at: int): int {
    if hs == [] then at else NewEnd(hs[1..], hs[0].header.newStart - 1 + |NewText(hs[0].body)|)
  }

  /** By how much the hunks lengthen a text. */
  function Growth(hs: seq<Hunk>): int { |NewAll(hs)| - |OldAll(hs)| }

  // ---------- What leaving them out keeps ----------

  lemma {:induction false} SolidIsNotEmpty(hs: seq<Hunk>)
    ensures NoEmptyHunk(Solid(hs))
  {
    if hs != [] { SolidIsNotEmpty(hs[1..]); }
  }

  lemma {:induction false} SolidTexts(hs: seq<Hunk>)
    ensures OldAll(Solid(hs)) == OldAll(hs) && NewAll(Solid(hs)) == NewAll(hs)
  {
    if hs != [] {
      SolidTexts(hs[1..]);
      if !EmptyHunk(hs[0]) { assert Solid(hs)[1..] == Solid(hs[1..]); }
    }
  }

  lemma {:induction false} SolidOpposite(hs: seq<Hunk>, gs: seq<Hunk>)
    requires AllOpposite(hs, gs)
    ensures AllOpposite(Solid(hs), Solid(gs))
  {
    if hs != [] {
      SolidOpposite(hs[1..], gs[1..]);
      assert EmptyHunk(hs[0]) <==> EmptyHunk(gs[0]);
      if !EmptyHunk(hs[0]) { assert Solid(hs)[1..] == Solid(hs[1..]) && Solid(gs)[1..] == Solid(gs[1..]); }
    }
  }

  lemma {:induction false} EndIsLast(hs: seq<Hunk>, at: nat)
    requires InOrder(hs, at)
    ensures at <= End(hs, at)
  {
    if hs != [] { EndIsLast(hs[1..], hs[0].header.oldStart - 1 + |OldText(hs[0].body)|); }
  }

  lemma {:induction false} StartEarlier(hs: seq<Hunk>, at: nat, earlier: nat)
    requires InOrder(hs, at) && earlier <= at
    ensures InOrder(hs, earlier) && End(hs, earlier) <= End(hs, at)
  {}

  lemma {:induction false} SolidInOrder(hs: seq<Hunk>, at: nat)
    requires InOrder(hs, at)
    ensures InOrder(Solid(hs), at) && End(Solid(hs), at) <= End(hs, at)
  {
    if hs != [] {
      var next := hs[0].header.oldStart - 1 + |OldText(hs[0].body)|;
      SolidInOrder(hs[1..], next);
      if EmptyHunk(hs[0]) { StartEarlier(Solid(hs[1..]), next, at); }
      else { assert Solid(hs)[1..] == Solid(hs[1..]); }
    }
  }

  // ---------- Applying without them ----------

  lemma {:induction false} FitsAfterCopy(rest: seq<Line>, at: nat, k: nat, h: Hunk)
    requires k <= |rest| && Gap(h, at + k) >= 0
    ensures Fits(rest, at, h) <==> Fits(rest[k..], at + k, h)
    ensures Fits(rest, at, h) ==>
      var gap, next := Gap(h, at + k), Gap(h, at + k) + |OldText(h.body)|;
      rest[..k] + rest[k..][..gap] == rest[..k + gap] && rest[k..][next..] == rest[k + next..]
  {
    var gap := Gap(h, at + k);
    if gap <= |rest| - k {
      assert rest[k..][gap..] == rest[k + gap..];
      assert rest[..k] + rest[k..][..gap] == rest[..k + gap];
      if Fits(rest, at, h) {
        var next := gap + |OldText(h.body)|;
        assert |OldText(h.body)| <= |rest[k + gap..]|;
        assert rest[k..][next..] == rest[k + next..];
      }
    }
  }

  /** Copying the lines before the first hunk in two steps. */
  lemma {:induction false} CopyInTwoSteps(rest: seq<Line>, at: nat, k: nat, hs: seq<Hunk>)
    requires k <= |rest| && InOrder(hs, at + k)
    ensures ApplyHunks(rest, at, hs) == PrependSome(rest[..k], ApplyHunks(rest[k..], at + k, hs))
  {
    if hs == [] {
      assert rest[..k] + rest[k..] == rest;
    } else {
      FitsAfterCopy(rest, at, k, hs[0]);
      if Fits(rest, at, hs[0]) {
        PrependTwice(rest[..k], rest[k..][..Gap(hs[0], at + k)], NewText(hs[0].body), LaterHunks(rest, at, hs));
      }
    }
  }

  lemma {:induction false} PrependTwice(a: seq<Line>, b: seq<Line>, c: seq<Line>, tail: Option<seq<Line>>)
    ensures PrependSome(a, PrependSome(b + c, tail)) == PrependSome(a + b + c, tail)
  {
    if tail.Some? { assert a + (b + c + tail.value) == a + b + c + tail.value; }
  }

  predicate InReach(rest: seq<Line>, at: nat, hs: seq<Hunk>) {
    InOrder(hs, at) && End(hs, at) <= at + |rest|
  }

  /** The rest of the text after the first hunk, rewritten by the later hunks that are not empty. */
  function SolidLater(rest: seq<Line>, at: nat, hs: seq<Hunk>): Option<seq<Line>>
    requires hs != [] && Fits(rest, at, hs[0])
  {
    var next := Gap(hs[0], at) + |OldText(hs[0].body)|;
    ApplyHunks(rest[next..], at + next, Solid(hs[1..]))
  }

  lemma {:induction false} SolidAfterEmpty(rest: seq<Line>, at: nat, hs: seq<Hunk>)
    requires hs != [] && Fits(rest, at, hs[0]) && InReach(rest, at, hs) && EmptyHunk(hs[0])
    ensures ApplyHunks(rest, at, Solid(hs)) ==
      PrependSome(rest[..Gap(hs[0], at)] + NewText(hs[0].body), SolidLater(rest, at, hs))
  {
    SolidInOrder(hs[1..], at + Gap(hs[0], at));
    CopyInTwoSteps(rest, at, Gap(hs[0], at), Solid(hs[1..]));
    assert rest[..Gap(hs[0], at)] + NewText(hs[0].body) == rest[..Gap(hs[0], at)];
  }

  lemma {:induction false} SolidAfterSolid(rest: seq<Line>, at: nat, hs: seq<Hunk>)
    requires hs != [] && Fits(rest, at, hs[0]) && !EmptyHunk(hs[0])
    ensures ApplyHunks(rest, at, Solid(hs)) ==
      PrependSome(rest[..Gap(hs[0], at)] + NewText(hs[0].body), SolidLater(rest, at, hs))
  {
    var later := Solid(hs[1..]);
    assert Solid(hs) == [hs[0]] + later;
    ApplyHeaded(rest, at, hs[0], later);
  }

  lemma {:induction false} ReachIsInherited(rest: seq<Line>, at: nat, hs: seq<Hunk>)
    requires hs != [] && Fits(rest, at, hs[0])
    ensures var next := Gap(hs[0], at) + |OldText(hs[0].body)|;
      InReach(rest, at, hs) <==> InReach(rest[next..], at + next, hs[1..])
  {}

  lemma {:induction false} ReachedIfInOrder(rest: seq<Line>, at: nat, hs: seq<Hunk>)
    requires hs != [] && InReach(rest, at, hs)
    ensures 0 <= Gap(hs[0], at) <= |rest|
  {
    EndIsLast(hs[1..], hs[0].header.oldStart - 1 + |OldText(hs[0].body)|);
  }

  lemma {:induction false} UnfitFirst(rest: seq<Line>, at: nat, hs: seq<Hunk>)
    requires hs != [] && !Fits(rest, at, hs[0]) && InReach(rest, at, hs)
    ensures ApplyHunks(rest, at, Solid(hs)).None?
  {
    ReachedIfInOrder(rest, at, hs);
    assert !EmptyHunk(hs[0]);
  }

  lemma {:induction false} FitFirst(rest: seq<Line>, at: nat, hs: seq<Hunk>)
    requires hs != [] && Fits(rest, at, hs[0])
    requires LaterHunks(rest, at, hs) == if InReach(rest, at, hs) then SolidLater(rest, at, hs) else None
    ensures ApplyHunks(rest, at, hs) == if InReach(rest, at, hs) then ApplyHunks(rest, at, Solid(hs)) else None
  {
    if InReach(rest, at, hs) && EmptyHunk(hs[0]) { SolidAfterEmpty(rest, at, hs); }
    if !EmptyHunk(hs[0]) { SolidAfterSolid(rest, at, hs); }
  }

  /**
    Hunks apply exactly if they are in order, the text reaches to the last of them, and the hunks that
    are not empty apply; and these alone make the result.
  */
  lemma {:induction false} AppliedWithoutEmptyHunks(rest: seq<Line>, at: nat, hs: seq<Hunk>)
    ensures ApplyHunks(rest, at, hs) == if InReach(rest, at, hs) then ApplyHunks(rest, at, Solid(hs)) else None
    decreases |hs|, 1
  {
    if hs != [] {
      if Fits(rest, at, hs[0]) {
        LaterWithoutEmptyHunks(rest, at, hs);
        FitFirst(rest, at, hs);
      } else if InReach(rest, at, hs) {
        UnfitFirst(rest, at, hs);
      }
    }
  }

  lemma {:induction false} LaterWithoutEmptyHunks(rest: seq<Line>, at: nat, hs: seq<Hunk>)
    requires hs != [] && Fits(rest, at, hs[0])
    ensures LaterHunks(rest, at, hs) == if InReach(rest, at, hs) then SolidLater(rest, at, hs) else None
    decreases |hs|, 0
  {
    var next := Gap(hs[0], at) + |OldText(hs[0].body)|;
    ReachIsInherited(rest, at, hs);
    AppliedWithoutEmptyHunks(rest[next..], at + next, hs[1..]);
  }

  lemma {:induction false} GrowthOfFirst(hs: seq<Hunk>)
    requires hs != []
    ensures Growth(hs) == |NewText(hs[0].body)| - |OldText(hs[0].body)| + Growth(hs[1..])
  {}

  lemma {:induction false} LengthOfFirst(rest: seq<Line>, at: nat, hs: seq<Hunk>, growth: int)
    requires hs != [] && ApplyHunks(rest, at, hs).Some? && Fits(rest, at, hs[0]) && LaterHunks(rest, at, hs).Some?
    requires |LaterHunks(rest, at, hs).value| == |rest| - Gap(hs[0], at) - |OldText(hs[0].body)| + growth
    ensures |ApplyHunks(rest, at, hs).value| == |rest| + |NewText(hs[0].body)| - |OldText(hs[0].body)| + growth
  {
    FirstHunk(rest, at, hs);
  }

  lemma {:induction false} AppliedLength(rest: seq<Line>, at: nat, hs: seq<Hunk>)
    requires ApplyHunks(rest, at, hs).Some?
    ensures |ApplyHunks(rest, at, hs).value| == |rest| + Growth(hs)
    decreases |hs|
  {
    if hs != [] {
      FirstHunk(rest, at, hs);
      var next := Gap(hs[0], at) + |OldText(hs[0].body)|;
      AppliedLength(rest[next..], at + next, hs[1..]);
      LengthOfFirst(rest, at, hs, Growth(hs[1..]));
      GrowthOfFirst(hs);
    }
  }

  // ---------- Opposite hunks change places ----------

  lemma {:induction false} OppositeOrder(hs: seq<Hunk>, gs: seq<Hunk>, at: nat)
    requires AllOpposite(hs, gs)
    ensures InOrder(gs, at) <==> NewInOrder(hs, at)
  {
    if hs != [] && Gap(gs[0], at) >= 0 {
      OppositeOrder(hs[1..], gs[1..], gs[0].header.oldStart - 1 + |OldText(gs[0].body)|);
    }
  }

  lemma {:induction false} OppositeEnd(hs: seq<Hunk>, gs: seq<Hunk>, at: int)
    requires AllOpposite(hs, gs)
    ensures End(gs, at) == NewEnd(hs, at)
  {
    if hs != [] { OppositeEnd(hs[1..], gs[1..], gs[0].header.oldStart - 1 + |OldText(gs[0].body)|); }
  }

  lemma {:induction false} OppositeSymmetric(hs: seq<Hunk>, gs: seq<Hunk>)
    requires AllOpposite(hs, gs)
    ensures AllOpposite(gs, hs)
  {
    if hs != [] { OppositeSymmetric(hs[1..], gs[1..]); }
  }

  lemma {:induction false} OppositeGrowth(hs: seq<Hunk>, gs: seq<Hunk>)
    requires AllOpposite(hs, gs)
    ensures OldAll(gs) == NewAll(hs) && NewAll(gs) == OldAll(hs) && Growth(gs) == -Growth(hs)
  {
    if hs != [] { OppositeGrowth(hs[1..], gs[1..]); }
  }
}
