/**
  Reversing a unified diff (src/apexcrew/adapters/repository/granted_workspace.py): when applying the
  reversed patch undoes the patch, and exactly which patches have this property for every source.
*/
module PatchReversal {
  import opened Wrappers
  import opened PatchLines
  import opened UnifiedDiff
  import opened PatchHunks

  function Unapply(current: seq<Line>, patch: seq<Line>): Result<seq<Line>, PatchError> {
    Apply(current, Reversed(patch))
  }

  method ReverseLines(patch: seq<Line>) returns (reversedLines: seq<Line>)
    ensures reversedLines == Reversed(patch)
  {
    reversedLines := [];
    for i := 0 to |patch|
      invariant reversedLines + MapLines(ReverseLine, patch[i..]) == Reversed(patch)
    {
      assert patch[i..][1..] == patch[i + 1..];
      reversedLines := reversedLines + [ReverseLine(patch[i])];
    }
  }

  /** `_reverse_unified_diff` */
  method ReverseUnifiedDiff(current: seq<Line>, patch: seq<Line>) returns (result: Result<seq<Line>, PatchError>)
    ensures result == Unapply(current, patch)
  {
    var reversedLines := ReverseLines(patch);
    result := ApplyUnifiedDiff(current, reversedLines);
  }

  // ---------- What reversal does to hunks ----------

  /** Lines that play each other's reversed part. */
  predicate MirrorLines(l: PatchLine, r: PatchLine) {
    r.startsHunk == l.startsHunk && r.newlineNote == l.newlineNote && r.body == FlipBody(l.body)
  }

  predicate MirrorBodies(b: seq<PatchLine>, c: seq<PatchLine>) {
    |b| == |c| && forall i | 0 <= i < |b| :: MirrorLines(b[i], c[i])
  }

  predicate MirrorHunks(hs: seq<Hunk>, gs: seq<Hunk>) {
    |hs| == |gs| && forall i | 0 <= i < |hs| ::
      gs[i].header == Swap(hs[i].header) && MirrorBodies(hs[i].body, gs[i].body)
  }

  predicate MirrorPatches(ls: seq<PatchLine>, rs: seq<PatchLine>) {
    && MirrorBodies(ls, rs)
    && forall i | 0 <= i < |ls| ::
        && rs[i].header == (if ls[i].header.Some? then Some(Swap(ls[i].header.value)) else None)
        && (ls[i].fileHeader ==> rs[i].fileHeader)
        && (ls[i].header.Some? ==> !ls[i].fileHeader && !rs[i].fileHeader)
  }

  lemma {:induction false} ReversedIsMirror(patch: seq<Line>)
    ensures MirrorPatches(Classified(patch), Classified(Reversed(patch)))
  {
    forall i | 0 <= i < |patch|
      ensures var l, r := Classified(patch)[i], Classified(Reversed(patch))[i];
        && MirrorLines(l, r)
        && r.header == (if l.header.Some? then Some(Swap(l.header.value)) else None)
        && (l.fileHeader ==> r.fileHeader)
        && (l.header.Some? ==> !l.fileHeader && !r.fileHeader)
    {
      ReversedLineFacts(patch[i]);
      MapLinesAt(Classify, patch, i);
      MapLinesAt(ReverseLine, patch, i);
      MapLinesAt(Classify, Reversed(patch), i);
    }
  }

  lemma {:induction false} MirrorLength(ls: seq<PatchLine>, rs: seq<PatchLine>)
    requires MirrorBodies(ls, rs)
    ensures BodyLength(ls) == BodyLength(rs)
  {
    if ls != [] {
      assert MirrorLines(ls[0], rs[0]);
      forall i | 0 <= i < |ls[1..]| ensures MirrorLines(ls[1..][i], rs[1..][i]) {
        assert MirrorLines(ls[i + 1], rs[i + 1]);
      }
      MirrorLength(ls[1..], rs[1..]);
    }
  }

  /** Some hunk whose mirrored body does not have the counts of the swapped header. */
  ghost predicate HasUnbalancedMirror(hs: seq<Hunk>) {
    exists i, b | 0 <= i < |hs| :: MirrorBodies(hs[i].body, b) && !WellFormedHunk(Hunk(Swap(hs[i].header), b))
  }

  ghost predicate MirrorOutcome(hs: seq<Hunk>, gs: Option<seq<Hunk>>) {
    if gs.Some? then MirrorHunks(hs, gs.value) else HasUnbalancedMirror(hs)
  }

  lemma {:induction false} MirrorOutcomeCons(h: Hunk, g: Hunk, hs: seq<Hunk>, gs: Option<seq<Hunk>>)
    requires MirrorOutcome(hs, gs) && g.header == Swap(h.header) && MirrorBodies(h.body, g.body)
    ensures MirrorOutcome([h] + hs, if WellFormedHunk(g) && gs.Some? then Some([g] + gs.value) else None)
  {
    var all := [h] + hs;
    assert all[0] == h;
    if !WellFormedHunk(g) {
      assert MirrorBodies(all[0].body, g.body) && g == Hunk(Swap(all[0].header), g.body);
    } else if gs.None? {
      var i, b :| 0 <= i < |hs| && MirrorBodies(hs[i].body, b) && !WellFormedHunk(Hunk(Swap(hs[i].header), b));
      assert all[i + 1] == hs[i];
    }
  }

  /** The first hunks of a patch and its mirror, and that what follows them is mirrored too. */
  lemma {:induction false} MirrorFirst(ls: seq<PatchLine>, rs: seq<PatchLine>) returns (h: Hunk, g: Hunk)
    requires MirrorPatches(ls, rs) && ls != [] && !ls[0].fileHeader && ls[0].header.Some?
    ensures HeadedBy(ls, h) && HeadedBy(rs, g) && g.header == Swap(h.header) && MirrorBodies(h.body, g.body)
    ensures MirrorPatches(ls[1 + |h.body|..], rs[1 + |h.body|..]) && |g.body| == |h.body|
  {
    assert MirrorLines(ls[0], rs[0]);
    var n := BodyLength(ls[1..]);
    MirrorLength(ls[1..], rs[1..]);
    h := Hunk(ls[0].header.value, ls[1..][..n]);
    g := Hunk(Swap(h.header), rs[1..][..n]);
  }

  /** The reversed patch parses into the mirrored hunks, provided their counts come out right. */
  lemma {:induction false} MirrorParse(ls: seq<PatchLine>, rs: seq<PatchLine>)
    requires MirrorPatches(ls, rs) && ParseHunks(ls).Some?
    ensures MirrorOutcome(ParseHunks(ls).value, ParseHunks(rs))
    decreases |ls|
  {
    if ls != [] {
      assert MirrorLines(ls[0], rs[0]);
      if ls[0].fileHeader {
        assert MirrorPatches(ls[1..], rs[1..]);
        MirrorParse(ls[1..], rs[1..]);
      } else {
        var h, g := MirrorFirst(ls, rs);
        var n := |h.body|;
        ParseHeaded(ls, h);
        ParseHeaded(rs, g);
        MirrorParse(ls[1 + n..], rs[1 + n..]);
        MirrorOutcomeCons(h, g, ParseHunks(ls[1 + n..]).value, ParseHunks(rs[1 + n..]));
      }
    }
  }

  /** No body line of the hunk has to stay unflipped. */
  predicate FlippableLine(line: PatchLine) {
    Role(line).Some? ==> !LooksLikeFileHeader(Role(line).value)
  }

  predicate Flippable(h: Hunk) {
    forall i | 0 <= i < |h.body| :: FlippableLine(h.body[i])
  }

  predicate AllFlippable(hs: seq<Hunk>) {
    forall i | 0 <= i < |hs| :: Flippable(hs[i])
  }

  lemma {:induction false} MirrorTexts(b: seq<PatchLine>, c: seq<PatchLine>)
    requires MirrorBodies(b, c)
    requires forall i | 0 <= i < |b| :: FlippableLine(b[i])
    ensures OldText(c) == NewText(b) && NewText(c) == OldText(b)
  {
    if b != [] {
      assert MirrorLines(b[0], c[0]);
      forall i | 0 <= i < |b[1..]|
        ensures MirrorLines(b[1..][i], c[1..][i])
        ensures FlippableLine(b[1..][i])
      {
        assert MirrorLines(b[i + 1], c[i + 1]) && FlippableLine(b[i + 1]);
      }
      MirrorTexts(b[1..], c[1..]);
    }
  }

  /** Old and new texts change places, and so do the headers. */
  predicate Opposite(h: Hunk, g: Hunk) {
    g.header == Swap(h.header) && OldText(g.body) == NewText(h.body) && NewText(g.body) == OldText(h.body)
  }

  predicate AllOpposite(hs: seq<Hunk>, gs: seq<Hunk>) {
    if hs == [] || gs == [] then hs == gs else Opposite(hs[0], gs[0]) && AllOpposite(hs[1..], gs[1..])
  }

  // ---------- Consistent headers ----------

  /** New positions are the old ones moved by what the earlier hunks added and removed. */
  predicate Consistent(hs: seq<Hunk>, offset: int) {
    hs == [] ||
    (&& hs[0].header.newStart - hs[0].header.oldStart == offset
     && Consistent(hs[1..], offset + |NewText(hs[0].body)| - |OldText(hs[0].body)|))
  }

  /** What comes out of the hunks after the first one. */
  function LaterHunks(rest: seq<Line>, at: nat, hs: seq<Hunk>): Option<seq<Line>>
    requires hs != [] && Fits(rest, at, hs[0])
  {
    var next := Gap(hs[0], at) + |OldText(hs[0].body)|;
    ApplyHunks(rest[next..], at + next, hs[1..])
  }

  /** One hunk applied: the text before it, its new text, and the rest rewritten. */
  lemma {:induction false} FirstHunk(rest: seq<Line>, at: nat, hs: seq<Hunk>)
    requires hs != [] && ApplyHunks(rest, at, hs).Some?
    ensures Fits(rest, at, hs[0]) && LaterHunks(rest, at, hs).Some?
    ensures ApplyHunks(rest, at, hs).value == rest[..Gap(hs[0], at)] + NewText(hs[0].body)
      + LaterHunks(rest, at, hs).value
  {}

  lemma {:induction false} FirstHunkFits(before: seq<Line>, taken: seq<Line>, after: seq<Line>, at: nat, hs: seq<Hunk>)
    requires hs != [] && Gap(hs[0], at) == |before| && OldText(hs[0].body) == taken
    ensures ApplyHunks(before + taken + after, at, hs) ==
      PrependSome(before + NewText(hs[0].body), ApplyHunks(after, at + |before| + |taken|, hs[1..]))
  {
    PartsOfText(before, taken, after);
  }

  lemma {:induction false} PartsOfText(before: seq<Line>, taken: seq<Line>, after: seq<Line>)
    ensures var rest := before + taken + after;
      && rest[|before|..] == taken + after && taken <= rest[|before|..]
      && rest[..|before|] == before && rest[|before| + |taken|..] == after
  {
    var rest := before + taken + after;
    assert rest[|before|..] == taken + after;
    assert rest[..|before|] == before;
    assert rest[|before| + |taken|..] == after;
  }

  /** Applying opposite hunks gives the original back. */
  lemma {:induction false} OppositeUndoes(rest: seq<Line>, at: nat, hs: seq<Hunk>, gs: seq<Hunk>, at': nat)
    requires AllOpposite(hs, gs) && Consistent(hs, at' - at)
    requires ApplyHunks(rest, at, hs).Some?
    ensures ApplyHunks(ApplyHunks(rest, at, hs).value, at', gs) == Some(rest)
    decreases |hs|, 1
  {
    if hs != [] {
      FirstHunk(rest, at, hs);
      LaterAreUndone(rest, at, hs, gs, at');
      FirstHunkFits(rest[..Gap(hs[0], at)], NewText(hs[0].body), LaterHunks(rest, at, hs).value, at', gs);
      SplitAround(rest, Gap(hs[0], at), OldText(hs[0].body));
    }
  }

  lemma {:induction false} LaterAreUndone(rest: seq<Line>, at: nat, hs: seq<Hunk>, gs: seq<Hunk>, at': nat)
    requires hs != [] && gs != [] && AllOpposite(hs[1..], gs[1..])
    requires Consistent(hs[1..], at' - at + |NewText(hs[0].body)| - |OldText(hs[0].body)|)
    requires Gap(hs[0], at) + at' >= 0 && Fits(rest, at, hs[0]) && LaterHunks(rest, at, hs).Some?
    ensures var gap := Gap(hs[0], at);
      ApplyHunks(LaterHunks(rest, at, hs).value, at' + gap + |NewText(hs[0].body)|, gs[1..]) ==
        Some(rest[gap + |OldText(hs[0].body)|..])
    decreases |hs|, 0
  {
    var gap, next := Gap(hs[0], at), Gap(hs[0], at) + |OldText(hs[0].body)|;
    assert LaterHunks(rest, at, hs) == ApplyHunks(rest[next..], at + next, hs[1..]);
    OppositeUndoes(rest[next..], at + next, hs[1..], gs[1..], at' + gap + |NewText(hs[0].body)|);
  }

  lemma {:induction false} SplitAround(rest: seq<Line>, gap: nat, taken: seq<Line>)
    requires gap <= |rest| && taken <= rest[gap..]
    ensures rest == rest[..gap] + taken + rest[gap + |taken|..]
  {
    assert rest[gap..][|taken|..] == rest[gap + |taken|..];
    assert rest[gap..] == taken + rest[gap..][|taken|..];
  }

  lemma {:induction false} OppositeConsistent(hs: seq<Hunk>, gs: seq<Hunk>, offset: int)
    requires AllOpposite(hs, gs) && Consistent(hs, offset)
    ensures AllOpposite(gs, hs) && Consistent(gs, -offset)
  {
    if hs != [] {
      OppositeConsistent(hs[1..], gs[1..], offset + |NewText(hs[0].body)| - |OldText(hs[0].body)|);
    }
  }

  // ---------- The laws on patches ----------

  predicate WellFormedPatch(patch: seq<Line>) {
    ParseHunks(Classified(patch)).Some? && ParseHunks(Classified(patch)).value != []
  }

  function HunksOf(patch: seq<Line>): seq<Hunk>
    requires WellFormedPatch(patch)
  {
    ParseHunks(Classified(patch)).value
  }

  lemma {:induction false} AppliesAsHunks(source: seq<Line>, patch: seq<Line>)
    requires WellFormedPatch(patch)
    ensures Agrees(Apply(source, patch), ApplyHunks(source, 0, HunksOf(patch)))
  {
    ApplyMeaning(source, patch);
  }

  predicate ConsistentHeaders(patch: seq<Line>)
    requires WellFormedPatch(patch)
  {
    Consistent(HunksOf(patch), 0)
  }

  predicate NoUnflippedLine(patch: seq<Line>)
    requires WellFormedPatch(patch)
  {
    AllFlippable(HunksOf(patch))
  }

  lemma {:induction false} ReversedHunksAreOpposite(patch: seq<Line>)
    requires WellFormedPatch(patch) && NoUnflippedLine(patch)
    ensures WellFormedPatch(Reversed(patch)) && AllOpposite(HunksOf(patch), HunksOf(Reversed(patch)))
  {
    var hs := HunksOf(patch);
    ReversedIsMirror(patch);
    ParsedIsWellFormed(Classified(patch));
    forall i, b | 0 <= i < |hs| && MirrorBodies(hs[i].body, b)
      ensures WellFormedHunk(Hunk(Swap(hs[i].header), b))
      ensures Opposite(hs[i], Hunk(Swap(hs[i].header), b))
    {
      assert Flippable(hs[i]) && WellFormedHunk(hs[i]);
      MirrorTexts(hs[i].body, b);
      forall k | 0 <= k < |b| ensures WellFormedLine(b[k]) {
        assert MirrorLines(hs[i].body[k], b[k]) && WellFormedLine(hs[i].body[k]);
      }
    }
    MirrorParse(Classified(patch), Classified(Reversed(patch)));
    var gs := ParseHunks(Classified(Reversed(patch))).value;
    forall i | 0 <= i < |hs| ensures Opposite(hs[i], gs[i]) {
      assert gs[i] == Hunk(Swap(hs[i].header), gs[i].body);
    }
    OppositeByIndex(hs, gs);
  }

  lemma {:induction false} OppositeByIndex(hs: seq<Hunk>, gs: seq<Hunk>)
    requires |hs| == |gs| && forall i | 0 <= i < |hs| :: Opposite(hs[i], gs[i])
    ensures AllOpposite(hs, gs)
  {
    if hs != [] { OppositeByIndex(hs[1..], gs[1..]); }
  }

  lemma {:induction false} ParsedIsWellFormed(lines: seq<PatchLine>)
    requires ParseHunks(lines).Some?
    ensures forall i | 0 <= i < |ParseHunks(lines).value| :: WellFormedHunk(ParseHunks(lines).value[i])
    decreases |lines|
  {
    if lines != [] {
      if lines[0].fileHeader { ParsedIsWellFormed(lines[1..]); }
      else { ParsedIsWellFormed(lines[1 + BodyLength(lines[1..])..]); }
    }
  }

  /**
    For every patch with consistent headers and no body line beginning `+++` or `---`: the patch turns
    one text into the other exactly when the reversed patch turns the other into the one.
  */
  lemma {:induction false} ReversalIsInverse(patch: seq<Line>, source: seq<Line>, current: seq<Line>)
    requires WellFormedPatch(patch) && ConsistentHeaders(patch) && NoUnflippedLine(patch)
    ensures Apply(source, patch) == Ok(current) <==> Unapply(current, patch) == Ok(source)
  {
    ReversedHunksAreOpposite(patch);
    AppliesAsHunks(source, patch);
    AppliesAsHunks(current, Reversed(patch));
    HunksAreInverse(HunksOf(patch), HunksOf(Reversed(patch)), source, current);
  }

  lemma {:induction false} HunksAreInverse(hs: seq<Hunk>, gs: seq<Hunk>, source: seq<Line>, current: seq<Line>)
    requires AllOpposite(hs, gs) && Consistent(hs, 0)
    ensures ApplyHunks(source, 0, hs) == Some(current) <==> ApplyHunks(current, 0, gs) == Some(source)
  {
    OppositeConsistent(hs, gs, 0);
    if ApplyHunks(source, 0, hs) == Some(current) { OppositeUndoes(source, 0, hs, gs, 0); }
    if ApplyHunks(current, 0, gs) == Some(source) { OppositeUndoes(current, 0, gs, hs, 0); }
  }
}
