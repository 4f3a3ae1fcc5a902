/**
  Applying a unified diff to a sequence of lines
  (src/apexcrew/adapters/repository/granted_workspace.py).
*/
module UnifiedDiff {
  import opened Wrappers
  import opened Sequences
  import opened HunkHeaders
  import opened PatchLines

  datatype PatchError = FormatInvalid | ContextMismatch | HunkCountMismatch | HunkRequired

  // ---------- The two loops, as functions of what is still unread ----------

  /** Patch lines used, source lines taken and new lines given by the rest of a hunk body. */
  datatype BodyRun = BodyRun(length: nat, taken: nat, given: seq<Line>)

  function Longer(run: Result<BodyRun, PatchError>, taken: nat, given: seq<Line>): Result<BodyRun, PatchError> {
    match run
    case Err(e) => Err(e)
    case Ok(b) => Ok(BodyRun(b.length + 1, taken + b.taken, given + b.given))
  }

  function RunBody(rest: seq<Line>, lines: seq<PatchLine>): (run: Result<BodyRun, PatchError>)
    ensures run.Ok? ==> run.value.length <= |lines| && run.value.taken <= |rest|
  {
    if lines == [] || lines[0].startsHunk then Ok(BodyRun(0, 0, []))
    else if lines[0].newlineNote then Longer(RunBody(rest, lines[1..]), 0, [])
    else
      match lines[0].body
      case None => Err(FormatInvalid)
      case Some(b) =>
        if b.TakesOld() && (rest == [] || rest[0] != b.text) then Err(ContextMismatch)
        else Longer(RunBody(if b.TakesOld() then rest[1..] else rest, lines[1..]),
                    if b.TakesOld() then 1 else 0, if b.GivesNew() then [b.text] else [])
  }

  function Prepend(output: seq<Line>, result: Result<seq<Line>, PatchError>): Result<seq<Line>, PatchError> {
    match result
    case Err(e) => Err(e)
    case Ok(tail) => Ok(output + tail)
  }

  /** One hunk at the start of the unread lines: copy the source up to it, run its body, compare the counts. */
  function RunHunk(rest: seq<Line>, at: nat, h: Header, lines: seq<PatchLine>): (run: Result<BodyRun, PatchError>)
    ensures run.Ok? ==> 0 <= h.oldStart - 1 - at <= |rest|
    ensures run.Ok? ==> run.value.length <= |lines| && h.oldStart - 1 - at + run.value.taken <= |rest|
  {
    var gap := h.oldStart - 1 - at;
    if gap < 0 || gap > |rest| then Err(ContextMismatch)
    else
      var run := RunBody(rest[gap..], lines);
      if run.Ok? && (run.value.taken != h.oldCount || |run.value.given| != h.newCount) then Err(HunkCountMismatch)
      else run
  }

  /** `rest` is the source from line `at` on. */
  function ApplyFrom(rest: seq<Line>, at: nat, lines: seq<PatchLine>, sawHunk: bool): Result<seq<Line>, PatchError>
    decreases |lines|, 1
  {
    if lines == [] then if sawHunk then Ok(rest) else Err(HunkRequired)
    else if lines[0].fileHeader then ApplyFrom(rest, at, lines[1..], sawHunk)
    else
      match lines[0].header
      case None => Err(FormatInvalid)
      case Some(h) =>
        match RunHunk(rest, at, h, lines[1..])
        case Err(e) => Err(e)
        case Ok(run) =>
          Prepend(rest[..h.oldStart - 1 - at] + run.given, AfterHunk(rest, at, lines, h.oldStart - 1 - at, run))
  }

  /** The rest of the patch on the rest of the source, after a hunk that started `gap` lines on. */
  function AfterHunk(rest: seq<Line>, at: nat, lines: seq<PatchLine>, gap: nat, run: BodyRun)
    : Result<seq<Line>, PatchError>
    requires run.length < |lines| && gap + run.taken <= |rest|
    decreases |lines|, 0
  {
    ApplyFrom(rest[gap + run.taken..], at + gap + run.taken, lines[1 + run.length..], true)
  }

  function Apply(source: seq<Line>, patch: seq<Line>): Result<seq<Line>, PatchError> {
    ApplyFrom(source, 0, Classified(patch), false)
  }

  // ---------- The loops themselves ----------

  lemma {:induction false} Associative(a: seq<Line>, b: seq<Line>, result: Result<seq<Line>, PatchError>)
    ensures Prepend(a, Prepend(b, result)) == Prepend(a + b, result)
  {
    if result.Ok? { assert a + (b + result.value) == (a + b) + result.value; }
  }

  /** Reading position in both texts, and what the body of the current hunk has given so far. */
  datatype Cursor = Cursor(source: nat, patch: nat, output: seq<Line>)

  function Extended(run: Result<BodyRun, PatchError>, length: nat, taken: nat, given: seq<Line>)
    : Result<BodyRun, PatchError>
  {
    match run
    case Err(e) => Err(e)
    case Ok(b) => Ok(BodyRun(length + b.length, taken + b.taken, given + b.given))
  }

  lemma {:induction false} ExtendNothing(run: Result<BodyRun, PatchError>)
    ensures Extended(run, 0, 0, []) == run
  {
    if run.Ok? { assert [] + run.value.given == run.value.given; }
  }

  lemma {:induction false} PrependNothing(result: Result<seq<Line>, PatchError>)
    ensures Prepend([], result) == result
  {
    if result.Ok? { assert [] + result.value == result.value; }
  }

  lemma {:induction false} ExtendLonger(run: Result<BodyRun, PatchError>, length: nat, taken: nat, given: seq<Line>,
      t: nat, g: seq<Line>)
    ensures Extended(Longer(run, t, g), length, taken, given) == Extended(run, length + 1, taken + t, given + g)
  {
    if run.Ok? { assert given + (g + run.value.given) == (given + g) + run.value.given; }
  }

  /** One turn of the inner loop, on what the body does from here. */
  lemma {:induction false} BodyStep(source: seq<Line>, lines: seq<PatchLine>, i: nat, j: nat, length: nat, taken: nat,
      given: seq<Line>)
    requires i <= |source| && j < |lines| && !lines[j].startsHunk
    ensures var line, all := lines[j], Extended(RunBody(source[i..], lines[j..]), length, taken, given);
      if line.newlineNote then all == Extended(RunBody(source[i..], lines[j + 1..]), length + 1, taken, given)
      else if line.body.None? then all == Err(FormatInvalid)
      else if line.body.value.TakesOld() && (i == |source| || source[i] != line.body.value.text)
        then all == Err(ContextMismatch)
      else
        var b := line.body.value;
        var t := if b.TakesOld() then 1 else 0;
        all == Extended(RunBody(source[i + t..], lines[j + 1..]), length + 1, taken + t, if b.GivesNew()
          then given + [b.text] else given)
  {
    var line, unread, rest := lines[j], lines[j..], source[i..];
    assert unread[0] == line && unread[1..] == lines[j + 1..] && given + [] == given;
    if line.newlineNote {
      ExtendLonger(RunBody(rest, unread[1..]), length, taken, given, 0, []);
    } else if line.body.Some? {
      var b := line.body.value;
      var t, g := if b.TakesOld() then 1 else 0, if b.GivesNew() then [b.text] else [];
      if !(b.TakesOld() && (i == |source| || source[i] != b.text)) {
        DropDrop(source, i, i + t);
        ExtendLonger(RunBody(source[i + t..], unread[1..]), length, taken, given, t, g);
      }
    }
  }

  lemma {:induction false} BodyEnds(rest: seq<Line>, lines: seq<PatchLine>, j: nat, length: nat, taken: nat,
      given: seq<Line>)
    requires j <= |lines| && (j == |lines| || lines[j].startsHunk)
    ensures Extended(RunBody(rest, lines[j..]), length, taken, given) == Ok(BodyRun(length, taken, given))
  {
    assert given + [] == given;
  }

  /** One line of a body: the next position, or why the hunk fails. */
  method TakeLine(source: seq<Line>, lines: seq<PatchLine>, c: Cursor, ghost length: nat, ghost taken: nat)
    returns (next: Result<Cursor, PatchError>)
    requires c.source <= |source| && c.patch < |lines| && !lines[c.patch].startsHunk
    ensures next.Err? ==>
      Extended(RunBody(source[c.source..], lines[c.patch..]), length, taken, c.output) == Err(next.error)
    ensures next.Ok? ==> c.source <= next.value.source <= |source| && next.value.patch == c.patch + 1
    ensures next.Ok? ==>
      Extended(RunBody(source[c.source..], lines[c.patch..]), length, taken, c.output) ==
      Extended(RunBody(source[next.value.source..], lines[next.value.patch..]), length + 1,
        taken + (next.value.source - c.source), next.value.output)
  {
    var line := lines[c.patch];
    BodyStep(source, lines, c.source, c.patch, length, taken, c.output);
    if line.newlineNote { return Ok(c.(patch := c.patch + 1)); }
    if line.body.None? { return Err(FormatInvalid); }
    var b := line.body.value;
    if b.TakesOld() && (c.source == |source| || source[c.source] != b.text) { return Err(ContextMismatch); }
    return Ok(Cursor(c.source + (if b.TakesOld() then 1 else 0), c.patch + 1, if b.GivesNew() then c.output + [b.text]
      else c.output));
  }

  /** The inner loop: the body lines of one hunk. */
  method ApplyBody(source: seq<Line>, lines: seq<PatchLine>, sourceIndex: nat, patchIndex: nat)
    returns (run: Result<BodyRun, PatchError>)
    requires sourceIndex <= |source| && patchIndex <= |lines|
    ensures run == RunBody(source[sourceIndex..], lines[patchIndex..])
  {
    var c := Cursor(sourceIndex, patchIndex, []);
    ghost var whole := RunBody(source[sourceIndex..], lines[patchIndex..]);
    ExtendNothing(whole);
    while c.patch < |lines| && !lines[c.patch].startsHunk
      invariant sourceIndex <= c.source <= |source| && patchIndex <= c.patch <= |lines|
      invariant whole == Extended(RunBody(source[c.source..], lines[c.patch..]), c.patch - patchIndex,
        c.source - sourceIndex, c.output)
      decreases |lines| - c.patch
    {
      var next := TakeLine(source, lines, c, c.patch - patchIndex, c.source - sourceIndex);
      if next.Err? { return Err(next.error); }
      c := next.value;
    }
    BodyEnds(source[c.source..], lines, c.patch, c.patch - patchIndex, c.source - sourceIndex, c.output);
    return Ok(BodyRun(c.patch - patchIndex, c.source - sourceIndex, c.output));
  }

  lemma {:induction false} HunkUnfolds(rest: seq<Line>, at: nat, lines: seq<PatchLine>, sawHunk: bool, h: Header,
      run: BodyRun)
    requires lines != [] && !lines[0].fileHeader && lines[0].header == Some(h)
    requires RunHunk(rest, at, h, lines[1..]) == Ok(run)
    ensures ApplyFrom(rest, at, lines, sawHunk) ==
      Prepend(rest[..h.oldStart - 1 - at] + run.given, AfterHunk(rest, at, lines, h.oldStart - 1 - at, run))
  {}

  lemma {:induction false} HunkApplied(rest: seq<Line>, at: nat, lines: seq<PatchLine>, sawHunk: bool, h: Header,
      run: BodyRun, output: seq<Line>)
    requires lines != [] && !lines[0].fileHeader && lines[0].header == Some(h)
    requires RunHunk(rest, at, h, lines[1..]) == Ok(run)
    ensures Prepend(output, ApplyFrom(rest, at, lines, sawHunk)) ==
      Prepend(output + (rest[..h.oldStart - 1 - at] + run.given), AfterHunk(rest, at, lines, h.oldStart - 1 - at, run))
  {
    Associative(output, rest[..h.oldStart - 1 - at] + run.given, AfterHunk(rest, at, lines, h.oldStart - 1 - at, run));
  }

  /** The body of one hunk with the checks around it. */
  method ApplyHunk(source: seq<Line>, lines: seq<PatchLine>, sourceIndex: nat, h: Header, patchIndex: nat)
    returns (run: Result<BodyRun, PatchError>)
    requires sourceIndex <= |source| && patchIndex <= |lines|
    ensures run == RunHunk(source[sourceIndex..], sourceIndex, h, lines[patchIndex..])
  {
    var target := h.oldStart - 1;
    if target < sourceIndex || target > |source| { return Err(ContextMismatch); }
    run := ApplyBody(source, lines, target, patchIndex);
    DropDrop(source, sourceIndex, target);
    if run.Ok? && (run.value.taken != h.oldCount || |run.value.given| != h.newCount) {
      return Err(HunkCountMismatch);
    }
  }

  /** Where the outer loop stands. */
  datatype Progress = Progress(source: nat, patch: nat, output: seq<Line>, sawHunk: bool)

  predicate InRange(source: seq<Line>, lines: seq<PatchLine>, p: Progress) {
    p.source <= |source| && p.patch <= |lines|
  }

  /** What the whole run yields from here. */
  function Outcome(source: seq<Line>, lines: seq<PatchLine>, p: Progress): Result<seq<Line>, PatchError>
    requires InRange(source, lines, p)
  {
    Prepend(p.output, ApplyFrom(source[p.source..], p.source, lines[p.patch..], p.sawHunk))
  }

  /** The slices after a hunk, taken from the whole texts. */
  lemma {:induction false} HunkAdvances(source: seq<Line>, lines: seq<PatchLine>, at: nat, patch: nat, gap: nat,
      run: BodyRun)
    requires at + gap + run.taken <= |source| && patch + run.length < |lines|
    ensures source[at..][..gap] == source[at..at + gap]
    ensures AfterHunk(source[at..], at, lines[patch..], gap, run) ==
      ApplyFrom(source[at + gap + run.taken..], at + gap + run.taken, lines[patch + 1 + run.length..], true)
  {
    DropDrop(source, at, at + gap + run.taken);
    DropDrop(lines, patch, patch + 1 + run.length);
  }

  lemma {:induction false} FileHeaderStep(source: seq<Line>, lines: seq<PatchLine>, p: Progress)
    requires InRange(source, lines, p) && p.patch < |lines| && lines[p.patch].fileHeader
    ensures Outcome(source, lines, p) == Outcome(source, lines, p.(patch := p.patch + 1))
  {
    assert lines[p.patch..][1..] == lines[p.patch + 1..];
  }

  /** A line that opens no hunk, or a hunk that fails, ends the run with its error. */
  lemma {:induction false} FailedStep(source: seq<Line>, lines: seq<PatchLine>, p: Progress)
    requires InRange(source, lines, p) && p.patch < |lines| && !lines[p.patch].fileHeader
    ensures lines[p.patch].header.None? ==> Outcome(source, lines, p) == Err(FormatInvalid)
    ensures lines[p.patch].header.Some? ==>
      var run := RunHunk(source[p.source..], p.source, lines[p.patch].header.value, lines[p.patch + 1..]);
      run.Err? ==> Outcome(source, lines, p) == Err(run.error)
  {
    assert lines[p.patch..][1..] == lines[p.patch + 1..];
  }

  /** Where the loop stands after a hunk. */
  function PastHunk(source: seq<Line>, p: Progress, h: Header, run: BodyRun): Progress
    requires p.source <= h.oldStart - 1 <= |source|
  {
    var target := h.oldStart - 1;
    Progress(target + run.taken, p.patch + 1 + run.length, p.output + (source[p.source..target] + run.given), true)
  }

  lemma {:induction false} HunkStep(source: seq<Line>, lines: seq<PatchLine>, p: Progress, h: Header, run: BodyRun)
    requires InRange(source, lines, p) && p.patch < |lines| && !lines[p.patch].fileHeader
      && lines[p.patch].header == Some(h)
    requires RunHunk(source[p.source..], p.source, h, lines[p.patch + 1..]) == Ok(run)
    ensures p.source <= h.oldStart - 1 <= |source| && InRange(source, lines, PastHunk(source, p, h, run))
    ensures Outcome(source, lines, p) == Outcome(source, lines, PastHunk(source, p, h, run))
  {
    var rest, unread, gap := source[p.source..], lines[p.patch..], h.oldStart - 1 - p.source;
    assert unread[0] == lines[p.patch] && unread[1..] == lines[p.patch + 1..];
    var next := PastHunk(source, p, h, run);
    var later := ApplyFrom(source[next.source..], next.source, lines[next.patch..], true);
    assert Outcome(source, lines, next) == Prepend(next.output, later);
    assert AfterHunk(rest, p.source, unread, gap, run) == later && rest[..gap] == source[p.source..h.oldStart - 1] by {
      HunkAdvances(source, lines, p.source, p.patch, gap, run);
    }
    HunkApplied(rest, p.source, unread, p.sawHunk, h, run, p.output);
  }

  /** One turn of the outer loop: a file header, or a hunk with its body. */
  method Advance(source: seq<Line>, lines: seq<PatchLine>, p: Progress) returns (next: Result<Progress, PatchError>)
    requires InRange(source, lines, p) && p.patch < |lines|
    ensures next.Err? ==> Outcome(source, lines, p) == Err(next.error)
    ensures next.Ok? ==> InRange(source, lines, next.value) && next.value.patch > p.patch
    ensures next.Ok? ==> Outcome(source, lines, p) == Outcome(source, lines, next.value)
  {
    var line := lines[p.patch];
    if line.fileHeader {
      FileHeaderStep(source, lines, p);
      return Ok(p.(patch := p.patch + 1));
    }
    FailedStep(source, lines, p);
    if line.header.None? { return Err(FormatInvalid); }
    var h := line.header.value;
    var run := ApplyHunk(source, lines, p.source, h, p.patch + 1);
    if run.Err? { return Err(run.error); }
    HunkStep(source, lines, p, h, run.value);
    var target := h.oldStart - 1;
    return Ok(Progress(target + run.value.taken, p.patch + 1 + run.value.length,
      p.output + (source[p.source..target] + run.value.given), true));
  }

  /** `_apply_unified_diff`, after splitting both texts into lines. */
  method ApplyUnifiedDiff(source: seq<Line>, patch: seq<Line>) returns (result: Result<seq<Line>, PatchError>)
    ensures result == Apply(source, patch)
  {
    var lines := Classified(patch);
    var p := Progress(0, 0, [], false);
    PrependNothing(ApplyFrom(source, 0, lines, false));
    while p.patch < |lines|
      invariant InRange(source, lines, p)
      invariant ApplyFrom(source, 0, lines, false) == Outcome(source, lines, p)
      decreases |lines| - p.patch
    {
      var next := Advance(source, lines, p);
      if next.Err? { return Err(next.error); }
      p := next.value;
    }
    if !p.sawHunk { return Err(HunkRequired); }
    return Ok(p.output + source[p.source..]);
  }
}
