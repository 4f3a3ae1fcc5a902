/**
  What applying a unified diff means: the patch is a list of hunks, and each hunk replaces the old
  text that stands at its position by its new text.
*/
module PatchHunks {
  import opened Wrappers
  import opened HunkHeaders
  import opened PatchLines
  import opened UnifiedDiff

  datatype Hunk = Hunk(header: Header, body: seq<PatchLine>)

  /** The role of a line inside a hunk; the note about a missing newline has none. */
  function Role(line: PatchLine): Option<BodyText> {
    if line.newlineNote then None else line.body
  }

  function OldOf(line: PatchLine): seq<Line> {
    if Role(line).Some? && Role(line).value.TakesOld() then [Role(line).value.text] else []
  }

  function NewOf(line: PatchLine): seq<Line> {
    if Role(line).Some? && Role(line).value.GivesNew() then [Role(line).value.text] else []
  }

  function OldText(body: seq<PatchLine>): seq<Line> {
    if body == [] then [] else OldOf(body[0]) + OldText(body[1..])
  }

  function NewText(body: seq<PatchLine>): seq<Line> {
    if body == [] then [] else NewOf(body[0]) + NewText(body[1..])
  }

  predicate WellFormedLine(line: PatchLine) {
    !line.startsHunk && (line.newlineNote || line.body.Some?)
  }

  predicate WellFormedBody(body: seq<PatchLine>) {
    forall i | 0 <= i < |body| :: WellFormedLine(body[i])
  }

  predicate WellFormedHunk(h: Hunk) {
    && WellFormedBody(h.body)
    && |OldText(h.body)| == h.header.oldCount && |NewText(h.body)| == h.header.newCount
  }

  function BodyLength(lines: seq<PatchLine>): (n: nat)
    ensures n <= |lines|
  {
    if lines == [] || lines[0].startsHunk then 0 else 1 + BodyLength(lines[1..])
  }

  /** The hunks of a patch; file headers are skipped before a hunk, and are body lines inside one. */
  function ParseHunks(lines: seq<PatchLine>): Option<seq<Hunk>>
    decreases |lines|
  {
    if lines == [] then Some([])
    else if lines[0].fileHeader then ParseHunks(lines[1..])
    else if lines[0].header.None? then None
    else
      var n := BodyLength(lines[1..]);
      var hunk := Hunk(lines[0].header.value, lines[1..][..n]);
      var later := ParseHunks(lines[1 + n..]);
      if WellFormedHunk(hunk) && later.Some? then Some([hunk] + later.value) else None
  }

  /** Where the hunk starts in the part of the source that begins at line `at`. */
  function Gap(h: Hunk, at: nat): int { h.header.oldStart - 1 - at }

  predicate Fits(rest: seq<Line>, at: nat, h: Hunk) {
    0 <= Gap(h, at) <= |rest| && OldText(h.body) <= rest[Gap(h, at)..]
  }

  function PrependSome(output: seq<Line>, tail: Option<seq<Line>>): Option<seq<Line>> {
    if tail.Some? then Some(output + tail.value) else None
  }

  /** Rewriting the part of the source that begins at line `at`. */
  function ApplyHunks(rest: seq<Line>, at: nat, hunks: seq<Hunk>): Option<seq<Line>>
    decreases |hunks|
  {
    if hunks == [] then Some(rest)
    else if !Fits(rest, at, hunks[0]) then None
    else
      var gap, taken := Gap(hunks[0], at), |OldText(hunks[0].body)|;
      PrependSome(rest[..gap] + NewText(hunks[0].body), ApplyHunks(rest[gap + taken..], at + gap + taken, hunks[1..]))
  }

  // ---------- The loops compute exactly this ----------

  lemma {:induction false} BodyHead(line: PatchLine, body: seq<PatchLine>)
    ensures OldText([line] + body) == OldOf(line) + OldText(body)
    ensures NewText([line] + body) == NewOf(line) + NewText(body)
    ensures WellFormedBody([line] + body) <==> WellFormedLine(line) && WellFormedBody(body)
  {
    var whole := [line] + body;
    assert whole[1..] == body && whole[0] == line;
    assert forall i | 0 <= i < |body| :: whole[i + 1] == body[i];
  }

  lemma {:induction false} PrefixHead(head: seq<Line>, tail: seq<Line>, rest: seq<Line>)
    requires head <= rest
    ensures head + tail <= rest <==> tail <= rest[|head|..]
  {
    assert rest == head + rest[|head|..];
    if head + tail <= rest {
      assert rest[|head|..][..|tail|] == rest[..|head| + |tail|][|head|..] == tail;
    }
    if tail <= rest[|head|..] {
      assert rest == (head + tail) + rest[|head|..][|tail|..];
    }
  }

  lemma {:induction false} PrefixOfPrefix(head: seq<Line>, tail: seq<Line>, rest: seq<Line>)
    ensures head + tail <= rest ==> head <= rest
  {
    assert (head + tail)[..|head|] == head;
  }

  predicate BodyAccepted(rest: seq<Line>, body: seq<PatchLine>) {
    WellFormedBody(body) && OldText(body) <= rest
  }

  predicate RunMeans(run: Result<BodyRun, PatchError>, rest: seq<Line>, body: seq<PatchLine>) {
    if BodyAccepted(rest, body) then run == Ok(BodyRun(|body|, |OldText(body)|, NewText(body))) else run.Err?
  }

  /** The inner loop accepts exactly the well-formed bodies whose old text comes next. */
  lemma {:induction false} BodyMeaning(rest: seq<Line>, lines: seq<PatchLine>)
    ensures RunMeans(RunBody(rest, lines), rest, lines[..BodyLength(lines)])
  {
    var n := BodyLength(lines);
    if n == 0 {
      assert lines[..0] == [];
    } else {
      var line, body := lines[0], lines[1..][..n - 1];
      assert lines[..n] == [line] + body;
      BodyHead(line, body);
      if WellFormedLine(line) {
        if OldOf(line) <= rest {
          PrefixHead(OldOf(line), OldText(body), rest);
          BodyMeaning(rest[|OldOf(line)|..], lines[1..]);
          assert rest[0..] == rest;
        } else {
          PrefixOfPrefix(OldOf(line), OldText(body), rest);
        }
      }
    }
  }

  predicate HunkAccepted(rest: seq<Line>, at: nat, h: Hunk) {
    WellFormedHunk(h) && Fits(rest, at, h)
  }

  lemma {:induction false} HunkMeaning(rest: seq<Line>, at: nat, h: Header, lines: seq<PatchLine>)
    ensures var hunk, run := Hunk(h, lines[..BodyLength(lines)]), RunHunk(rest, at, h, lines);
      if HunkAccepted(rest, at, hunk)
      then run == Ok(BodyRun(BodyLength(lines), |OldText(hunk.body)|, NewText(hunk.body)))
      else run.Err?
  {
    var gap := h.oldStart - 1 - at;
    if 0 <= gap <= |rest| { BodyMeaning(rest[gap..], lines); }
  }

  /** What the unread lines make of the unread source, read as hunks. */
  function Rewritten(rest: seq<Line>, at: nat, lines: seq<PatchLine>, sawHunk: bool): Option<seq<Line>> {
    var hunks := ParseHunks(lines);
    if hunks.Some? && (sawHunk || hunks.value != []) then ApplyHunks(rest, at, hunks.value) else None
  }

  predicate Agrees(result: Result<seq<Line>, PatchError>, rewritten: Option<seq<Line>>) {
    if rewritten.Some? then result == Ok(rewritten.value) else result.Err?
  }

  predicate HeadedBy(lines: seq<PatchLine>, hunk: Hunk) {
    && lines != [] && !lines[0].fileHeader && lines[0].header == Some(hunk.header)
    && |hunk.body| < |lines| && hunk.body == lines[1..][..|hunk.body|] && |hunk.body| == BodyLength(lines[1..])
  }

  lemma {:induction false} ParseHeaded(lines: seq<PatchLine>, hunk: Hunk)
    requires HeadedBy(lines, hunk)
    ensures var later := ParseHunks(lines[1 + |hunk.body|..]);
      ParseHunks(lines) == if WellFormedHunk(hunk) && later.Some? then Some([hunk] + later.value) else None
  {}

  lemma {:induction false} ApplyHeaded(rest: seq<Line>, at: nat, hunk: Hunk, later: seq<Hunk>)
    ensures !Fits(rest, at, hunk) ==> ApplyHunks(rest, at, [hunk] + later).None?
    ensures Fits(rest, at, hunk) ==>
      var next := Gap(hunk, at) + |OldText(hunk.body)|;
      ApplyHunks(rest, at, [hunk] + later) ==
        PrependSome(rest[..Gap(hunk, at)] + NewText(hunk.body), ApplyHunks(rest[next..], at + next, later))
  {
    assert ([hunk] + later)[1..] == later;
  }

  lemma {:induction false} RejectedHunk(rest: seq<Line>, at: nat, lines: seq<PatchLine>, sawHunk: bool, hunk: Hunk)
    requires HeadedBy(lines, hunk) && !HunkAccepted(rest, at, hunk)
    ensures Rewritten(rest, at, lines, sawHunk).None?
  {
    ParseHeaded(lines, hunk);
    var later := ParseHunks(lines[1 + |hunk.body|..]);
    if later.Some? { ApplyHeaded(rest, at, hunk, later.value); }
  }

  lemma {:induction false} AcceptedHunk(rest: seq<Line>, at: nat, lines: seq<PatchLine>, sawHunk: bool, hunk: Hunk)
    requires HeadedBy(lines, hunk) && HunkAccepted(rest, at, hunk)
    ensures var next := Gap(hunk, at) + |OldText(hunk.body)|;
      Rewritten(rest, at, lines, sawHunk) ==
        PrependSome(rest[..Gap(hunk, at)] + NewText(hunk.body),
                    Rewritten(rest[next..], at + next, lines[1 + |hunk.body|..], true))
  {
    ParseHeaded(lines, hunk);
    var later := ParseHunks(lines[1 + |hunk.body|..]);
    if later.Some? { ApplyHeaded(rest, at, hunk, later.value); }
  }

  /** The loops succeed exactly when the patch parses into hunks that rewrite the source one after another. */
  lemma {:induction false} ApplyFromMeaning(rest: seq<Line>, at: nat, lines: seq<PatchLine>, sawHunk: bool)
    ensures Agrees(ApplyFrom(rest, at, lines, sawHunk), Rewritten(rest, at, lines, sawHunk))
    decreases |lines|, 2
  {
    if lines == [] {
    } else if lines[0].fileHeader {
      ApplyFromMeaning(rest, at, lines[1..], sawHunk);
    } else if lines[0].header.Some? {
      HunkAgrees(rest, at, lines, sawHunk, Hunk(lines[0].header.value, lines[1..][..BodyLength(lines[1..])]));
    }
  }

  function TailOf(rest: seq<Line>, at: nat, lines: seq<PatchLine>, hunk: Hunk): Result<seq<Line>, PatchError>
    requires |hunk.body| < |lines| && Fits(rest, at, hunk)
  {
    AfterHunk(rest, at, lines, Gap(hunk, at), BodyRun(|hunk.body|, |OldText(hunk.body)|, NewText(hunk.body)))
  }

  lemma {:induction false} LoopAcceptsHunk(rest: seq<Line>, at: nat, lines: seq<PatchLine>, sawHunk: bool, hunk: Hunk)
    requires HeadedBy(lines, hunk) && HunkAccepted(rest, at, hunk)
    ensures ApplyFrom(rest, at, lines, sawHunk) ==
      Prepend(rest[..Gap(hunk, at)] + NewText(hunk.body), TailOf(rest, at, lines, hunk))
  {
    HunkMeaning(rest, at, hunk.header, lines[1..]);
    HunkUnfolds(rest, at, lines, sawHunk, hunk.header, BodyRun(|hunk.body|, |OldText(hunk.body)|, NewText(hunk.body)));
  }

  lemma {:induction false} LoopRejectsHunk(rest: seq<Line>, at: nat, lines: seq<PatchLine>, sawHunk: bool, hunk: Hunk)
    requires HeadedBy(lines, hunk) && !HunkAccepted(rest, at, hunk)
    ensures ApplyFrom(rest, at, lines, sawHunk).Err?
  {
    HunkMeaning(rest, at, hunk.header, lines[1..]);
  }

  lemma {:induction false} HunkAgrees(rest: seq<Line>, at: nat, lines: seq<PatchLine>, sawHunk: bool, hunk: Hunk)
    requires HeadedBy(lines, hunk)
    ensures Agrees(ApplyFrom(rest, at, lines, sawHunk), Rewritten(rest, at, lines, sawHunk))
    decreases |lines|, 1
  {
    if HunkAccepted(rest, at, hunk) {
      LoopAcceptsHunk(rest, at, lines, sawHunk, hunk);
      AcceptedHunk(rest, at, lines, sawHunk, hunk);
      HunkTail(rest, at, lines, hunk);
    } else {
      LoopRejectsHunk(rest, at, lines, sawHunk, hunk);
      RejectedHunk(rest, at, lines, sawHunk, hunk);
    }
  }

  lemma {:induction false} HunkTail(rest: seq<Line>, at: nat, lines: seq<PatchLine>, hunk: Hunk)
    requires |hunk.body| < |lines| && Fits(rest, at, hunk)
    ensures var next := Gap(hunk, at) + |OldText(hunk.body)|;
      Agrees(TailOf(rest, at, lines, hunk), Rewritten(rest[next..], at + next, lines[1 + |hunk.body|..], true))
    decreases |lines|, 0
  {
    var next := Gap(hunk, at) + |OldText(hunk.body)|;
    ApplyFromMeaning(rest[next..], at + next, lines[1 + |hunk.body|..], true);
  }

  lemma {:induction false} ApplyMeaning(source: seq<Line>, patch: seq<Line>)
    ensures Agrees(Apply(source, patch), Rewritten(source, 0, Classified(patch), false))
  {
    ApplyFromMeaning(source, 0, Classified(patch), false);
  }
}
