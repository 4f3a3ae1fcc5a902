/**
  What a patch does to the number of lines of each text, and what that says about patches with body
  lines that begin `+++` or `---`: their reversal undoes them on no text.
*/
module PatchConservation {
  import opened Wrappers
  import opened PatchLines
  import opened PatchHunks
  import opened PatchReversal

  function OldAll(hs: seq<Hunk>): seq<Line> {
    if hs == [] then [] else OldText(hs[0].body) + OldAll(hs[1..])
  }

  function NewAll(hs: seq<Hunk>): seq<Line> {
    if hs == [] then [] else NewText(hs[0].body) + NewAll(hs[1..])
  }

  function Count(lines: seq<Line>, text: Line): nat {
    if lines == [] then 0 else (if lines[0] == text then 1 else 0) + Count(lines[1..], text)
  }

  lemma {:induction false} CountConcat(a: seq<Line>, b: seq<Line>, text: Line)
    ensures Count(a + b, text) == Count(a, text) + Count(b, text)
  {
    if a == [] { assert a + b == b; } else {
      assert (a + b)[1..] == a[1..] + b;
      CountConcat(a[1..], b, text);
    }
  }

  /**
    Applying neither loses nor invents a line: of each text the result has the source's lines, less the old, plus the
    new.
  */
  lemma {:induction false} LinesAreConserved(rest: seq<Line>, at: nat, hs: seq<Hunk>, text: Line)
    requires ApplyHunks(rest, at, hs).Some?
    ensures Count(ApplyHunks(rest, at, hs).value, text) + Count(OldAll(hs), text) ==
      Count(rest, text) + Count(NewAll(hs), text)
    decreases |hs|, 1
  {
    if hs != [] {
      var gap, taken, given := Gap(hs[0], at), OldText(hs[0].body), NewText(hs[0].body);
      var after := rest[gap + |taken|..];
      FirstHunk(rest, at, hs);
      var out := LaterHunks(rest, at, hs).value;
      LaterAreConserved(rest, at, hs, text);
      SplitAround(rest, gap, taken);
      ConservedHead(rest[..gap], taken, given, after, out, OldAll(hs[1..]), NewAll(hs[1..]), text);
    }
  }

  lemma {:induction false} LaterAreConserved(rest: seq<Line>, at: nat, hs: seq<Hunk>, text: Line)
    requires hs != [] && Fits(rest, at, hs[0]) && LaterHunks(rest, at, hs).Some?
    ensures Count(LaterHunks(rest, at, hs).value, text) + Count(OldAll(hs[1..]), text) ==
      Count(rest[Gap(hs[0], at) + |OldText(hs[0].body)|..], text) + Count(NewAll(hs[1..]), text)
    decreases |hs|, 0
  {
    var next := Gap(hs[0], at) + |OldText(hs[0].body)|;
    var after := rest[next..];
    assert LaterHunks(rest, at, hs) == ApplyHunks(after, at + next, hs[1..]);
    LinesAreConserved(after, at + next, hs[1..], text);
  }

  lemma {:induction false} ConservedHead(gap: seq<Line>, taken: seq<Line>, given: seq<Line>, after: seq<Line>,
      out: seq<Line>, oldLater: seq<Line>, newLater: seq<Line>, text: Line)
    requires Count(out, text) + Count(oldLater, text) == Count(after, text) + Count(newLater, text)
    ensures Count(gap + given + out, text) + Count(taken + oldLater, text) == Count(gap + taken + after, text)
      + Count(given + newLater, text)
  {
    CountThree(gap, taken, after, text);
    CountThree(gap, given, out, text);
    CountConcat(taken, oldLater, text);
    CountConcat(given, newLater, text);
  }

  lemma {:induction false} CountThree(a: seq<Line>, b: seq<Line>, c: seq<Line>, text: Line)
    ensures Count(a + b + c, text) == Count(a, text) + Count(b, text) + Count(c, text)
  {
    CountConcat(a + b, c, text);
    CountConcat(a, b, text);
  }

  /** How often a line that reversal leaves alone occurs in a body. */
  function Unflipped(body: seq<PatchLine>, b: BodyText): nat {
    if body == [] then 0 else (if Role(body[0]) == Some(b) then 1 else 0) + Unflipped(body[1..], b)
  }

  function UnflippedAll(hs: seq<Hunk>, b: BodyText): nat {
    if hs == [] then 0 else Unflipped(hs[0].body, b) + UnflippedAll(hs[1..], b)
  }

  /** What a body and its mirror give minus what they take, for one text. */
  function Surplus(b: seq<PatchLine>, c: seq<PatchLine>, text: Line): int {
    Count(NewText(b), text) + Count(NewText(c), text) - Count(OldText(b), text) - Count(OldText(c), text)
  }

  lemma {:induction false} MirrorSurplus(b: seq<PatchLine>, c: seq<PatchLine>, line: BodyText)
    requires MirrorBodies(b, c) && LooksLikeFileHeader(line)
    ensures Surplus(b, c, line.text) ==
      if line.marker == Addition then 2 * Unflipped(b, line) else -2 * Unflipped(b, line)
  {
    if b != [] {
      assert MirrorLines(b[0], c[0]);
      forall i | 0 <= i < |b[1..]| ensures MirrorLines(b[1..][i], c[1..][i]) { assert MirrorLines(b[i + 1], c[i + 1]); }
      MirrorSurplus(b[1..], c[1..], line);
      LineSurplus(b[0], c[0], line);
      SurplusOfHead(b, c, line.text);
    }
  }

  lemma {:induction false} LineSurplus(l: PatchLine, r: PatchLine, line: BodyText)
    requires MirrorLines(l, r) && LooksLikeFileHeader(line)
    ensures Count(NewOf(l), line.text) + Count(NewOf(r), line.text) - Count(OldOf(l), line.text) - Count(OldOf(r),
      line.text)
      == if Role(l) != Some(line) then 0 else if line.marker == Addition then 2 else -2
  {}

  lemma {:induction false} SurplusOfHead(b: seq<PatchLine>, c: seq<PatchLine>, text: Line)
    requires b != [] && c != []
    ensures Surplus(b, c, text) == Surplus(b[1..], c[1..], text) +
      Count(NewOf(b[0]), text) + Count(NewOf(c[0]), text) - Count(OldOf(b[0]), text) - Count(OldOf(c[0]), text)
  {
    CountConcat(NewOf(b[0]), NewText(b[1..]), text);
    CountConcat(NewOf(c[0]), NewText(c[1..]), text);
    CountConcat(OldOf(b[0]), OldText(b[1..]), text);
    CountConcat(OldOf(c[0]), OldText(c[1..]), text);
  }

  lemma {:induction false} MirrorSurplusAll(hs: seq<Hunk>, gs: seq<Hunk>, line: BodyText)
    requires MirrorHunks(hs, gs) && LooksLikeFileHeader(line)
    ensures Count(NewAll(hs), line.text) + Count(NewAll(gs), line.text) - Count(OldAll(hs),
      line.text) - Count(OldAll(gs), line.text)
      == if line.marker == Addition then 2 * UnflippedAll(hs, line) else -2 * UnflippedAll(hs, line)
  {
    if hs != [] {
      CountConcat(NewText(hs[0].body), NewAll(hs[1..]), line.text);
      CountConcat(NewText(gs[0].body), NewAll(gs[1..]), line.text);
      CountConcat(OldText(hs[0].body), OldAll(hs[1..]), line.text);
      CountConcat(OldText(gs[0].body), OldAll(gs[1..]), line.text);
      MirrorSurplus(hs[0].body, gs[0].body, line);
      assert MirrorHunks(hs[1..], gs[1..]);
      MirrorSurplusAll(hs[1..], gs[1..], line);
    }
  }

  lemma {:induction false} UnflippedCounts(body: seq<PatchLine>, i: nat)
    requires i < |body| && Role(body[i]).Some?
    ensures Unflipped(body, Role(body[i]).value) > 0
  {
    if i > 0 { UnflippedCounts(body[1..], i - 1); }
  }

  lemma {:induction false} UnflippedAllCounts(hs: seq<Hunk>, i: nat, line: BodyText)
    requires i < |hs| && Unflipped(hs[i].body, line) > 0
    ensures UnflippedAll(hs, line) > 0
  {
    if i > 0 { UnflippedAllCounts(hs[1..], i - 1, line); }
  }

  /** A patch that is undone on one text has no body line beginning `+++` or `---`. */
  lemma {:induction false} UndoneHunksAreFlippable(hs: seq<Hunk>, gs: seq<Hunk>, source: seq<Line>)
    requires MirrorHunks(hs, gs)
    requires ApplyHunks(source, 0, hs).Some? && ApplyHunks(ApplyHunks(source, 0, hs).value, 0, gs) == Some(source)
    ensures AllFlippable(hs)
  {
    forall i, k | 0 <= i < |hs| && 0 <= k < |hs[i].body|
      ensures FlippableLine(hs[i].body[k])
    {
      if !FlippableLine(hs[i].body[k]) {
        var line := Role(hs[i].body[k]).value;
        LinesAreConserved(source, 0, hs, line.text);
        LinesAreConserved(ApplyHunks(source, 0, hs).value, 0, gs, line.text);
        MirrorSurplusAll(hs, gs, line);
        UnflippedCounts(hs[i].body, k);
        UnflippedAllCounts(hs, i, line);
      }
    }
  }
}
