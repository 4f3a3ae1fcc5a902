/**
  How the lines of a unified diff are told apart
  (src/apexcrew/adapters/repository/granted_workspace.py), and how a reversal rewrites each of them.
*/
module PatchLines {
  import opened Wrappers
  import opened HunkHeaders

  type Line = string

  datatype Marker = Context | Removal | Addition

  /** A line with its role inside a hunk: what it takes from the old text and gives to the new one. */
  datatype BodyText = BodyText(marker: Marker, text: Line) {
    predicate TakesOld() { marker != Addition }
    predicate GivesNew() { marker != Removal }
  }

  /** Every way in which the two loops may read a line; which one counts depends on where it stands. */
  datatype PatchLine = PatchLine(
    fileHeader: bool,
    header: Option<Header>,
    startsHunk: bool,
    newlineNote: bool,
    body: Option<BodyText>)

  /** `line.startswith(("--- ", "+++ "))` */
  predicate IsFileHeader(line: Line) {
    |line| >= 4 && line[0] == line[1] == line[2] && line[0] in {'-', '+'} && line[3] == ' '
  }

  /** `line.startswith("@@ ")` */
  predicate StartsHunk(line: Line) {
    |line| >= 3 && line[0] == line[1] == '@' && line[2] == ' '
  }

  predicate IsNewlineNote(line: Line) {
    line != "" && line[0] == '\\' && HasPrefix(line[1..], " No newline at end of file")
  }

  /** `line.startswith("+++")` or `line.startswith("---")` */
  predicate IsTripled(line: Line) {
    |line| >= 3 && line[0] == line[1] == line[2] && line[0] in {'-', '+'}
  }

  function BodyOf(line: Line): Option<BodyText> {
    if line == "" then None
    else if line[0] == ' ' then Some(BodyText(Context, line[1..]))
    else if line[0] == '-' then Some(BodyText(Removal, line[1..]))
    else if line[0] == '+' then Some(BodyText(Addition, line[1..]))
    else None
  }

  function Classify(line: Line): PatchLine {
    PatchLine(IsFileHeader(line), ParseHeader(line), StartsHunk(line), IsNewlineNote(line), BodyOf(line))
  }

  function MapLines<A, B>(f: A -> B, s: seq<A>): (r: seq<B>)
    ensures |r| == |s|
  {
    if s == [] then [] else [f(s[0])] + MapLines(f, s[1..])
  }

  lemma {:induction false} MapLinesAt<A, B>(f: A -> B, s: seq<A>, i: nat)
    requires i < |s|
    ensures MapLines(f, s)[i] == f(s[i])
  {
    if i > 0 { MapLinesAt(f, s[1..], i - 1); }
  }

  function Classified(patch: seq<Line>): (lines: seq<PatchLine>) {
    MapLines(Classify, patch)
  }

  // ---------- Reversing a line ----------

  function Swap(h: Header): Header { Header(h.newStart, h.newCount, h.oldStart, h.oldCount) }

  /** One turn of the loop in `_reverse_unified_diff`. */
  function ReverseLine(line: Line): Line {
    var header := ParseHeader(line);
    if header.Some? then
      PrintHeader(Swap(header.value), if line != "" && line[|line| - 1] == '\n' then "\n" else "")
    else if line != "" && line[0] == '+' && !IsTripled(line) then ['-'] + line[1..]
    else if line != "" && line[0] == '-' && !IsTripled(line) then ['+'] + line[1..]
    else line
  }

  function Reversed(patch: seq<Line>): (lines: seq<Line>) {
    MapLines(ReverseLine, patch)
  }

  /** A body line whose text makes the whole line begin with `+++` or `---`. */
  predicate LooksLikeFileHeader(b: BodyText) {
    |b.text| >= 2 && b.text[0] == b.text[1] && ((b.marker == Addition && b.text[0] == '+')
      || (b.marker == Removal && b.text[0] == '-'))
  }

  function Flip(b: BodyText): BodyText {
    if LooksLikeFileHeader(b) then b
    else b.(marker := match b.marker case Context => Context case Removal => Addition case Addition => Removal)
  }

  function FlipBody(body: Option<BodyText>): Option<BodyText> {
    if body.Some? then Some(Flip(body.value)) else None
  }

  lemma {:induction false} HeaderLineFacts(line: Line)
    requires OpensHeader(line)
    ensures !IsFileHeader(line) && StartsHunk(line) && !IsNewlineNote(line) && BodyOf(line).None?
  {}

  lemma {:induction false} ReversedHeaderLine(line: Line)
    requires ParseHeader(line).Some?
    ensures ParseHeader(ReverseLine(line)) == Some(Swap(ParseHeader(line).value))
  {
    ParsePrintedHeader(Swap(ParseHeader(line).value), if line != "" && line[|line| - 1] == '\n' then "\n" else "");
  }

  lemma {:induction false} BodyLineFacts(line: Line)
    requires BodyOf(line).Some?
    ensures ParseHeader(line).None? && !StartsHunk(line) && !IsNewlineNote(line)
  {}

  /** How reversal changes what a line is read as, in every role. */
  lemma {:induction false} ReversedLineFacts(line: Line)
    ensures var l, r := Classify(line), Classify(ReverseLine(line));
      && r.startsHunk == l.startsHunk && r.newlineNote == l.newlineNote
      && r.body == FlipBody(l.body)
      && r.header == (if l.header.Some? then Some(Swap(l.header.value)) else None)
      && (l.fileHeader ==> r.fileHeader)
      && (l.header.Some? ==> !l.fileHeader && !r.fileHeader)
  {
    if ParseHeader(line).Some? {
      HeaderLineFacts(line);
      ReversedHeaderLine(line);
      HeaderLineFacts(ReverseLine(line));
    } else if BodyOf(line).Some? {
      var b := BodyOf(line).value;
      BodyLineFacts(line);
      BodyLineFacts(ReverseLine(line));
      if IsFileHeader(line) { FileHeaderIsKept(line); }
    }
  }

  lemma {:induction false} FileHeaderIsKept(line: Line)
    requires IsFileHeader(line)
    ensures ReverseLine(line) == line
  {}
}
