/**
  Path globs (src/apexcrew/domain/plan.py): the `*`/`**` matcher, the syntactic inclusion and
  disjointness proofs built on it, and what those proofs are worth.
*/
module Globs {
  import opened Sequences

  type Segment = string

  const DOUBLE_STAR: Segment := "**"

  datatype GlobProof = Proven | Unknown

  /** A pattern is its `/`-separated segments; the matched path likewise. */
  datatype Glob = Glob(segments: seq<Segment>)

  // ---------- What the parser admits ----------

  predicate ValidCharacter(c: char) {
    var n := c as int;
    32 <= n && !(127 <= n <= 159) && c !in "<>\"|?*\\:" && c != '/'
  }

  function AsciiFold(s: string): string {
    seq(|s|, i requires 0 <= i < |s| => if 'A' <= s[i] <= 'Z' then s[i] + ' ' else s[i])
  }

  function Basename(s: string): string {
    if s == "" || s[0] == '.' then "" else [s[0]] + Basename(s[1..])
  }

  predicate ReservedName(s: Segment) {
    var folded := AsciiFold(s);
    var basename := Basename(folded);
    || folded in {".git", ".apexcrew"}
    || basename in {"con", "prn", "aux", "nul", "clock$", "conin$", "conout$"}
    || (|basename| == 4 && basename[..3] in {"com", "lpt"} && basename[3] in "123456789\U{00B9}\U{00B2}\U{00B3}")
  }

  /** `_valid_segment`, with ASCII case folding. */
  predicate ValidSegment(s: Segment) {
    && s != "" && s != "." && s != ".."
    && s[|s| - 1] != '.' && s[|s| - 1] != ' '
    && (forall i | 0 <= i < |s| :: ValidCharacter(s[i]))
    && !ReservedName(s)
  }

  predicate ValidPath(path: seq<Segment>) {
    path != [] && forall i | 0 <= i < |path| :: ValidSegment(path[i])
  }

  /** `segment.replace("*", "x")` */
  function Starless(s: Segment): Segment {
    seq(|s|, i requires 0 <= i < |s| => if s[i] == '*' then 'x' else s[i])
  }

  predicate ValidGlobSegment(s: Segment) {
    || s == DOUBLE_STAR
    || (&& ValidSegment(Starless(s))
        && (forall i | 0 <= i < |s| :: s[i] !in "?[]{}!\\")
        && (forall i | 0 <= i < |s| - 1 :: s[i] != '*' || s[i + 1] != '*'))
  }

  predicate ValidPattern(pattern: seq<Segment>) {
    forall i | 0 <= i < |pattern| :: ValidGlobSegment(pattern[i])
  }

  predicate ValidGlob(g: Glob) {
    g.segments != [] && ValidPattern(g.segments)
  }

  // ---------- The matcher ----------

  /** `re.fullmatch` of one segment, where `*` became `.*` and every other character is escaped. */
  predicate SegmentMatches(pattern: Segment, text: Segment)
    decreases |pattern| + |text|
  {
    if pattern == "" then text == ""
    else if pattern[0] == '*' then
      || SegmentMatches(pattern[1..], text)
      || (text != "" && text[0] != '\n' && SegmentMatches(pattern, text[1..]))
    else text != "" && text[0] == pattern[0] && SegmentMatches(pattern[1..], text[1..])
  }

  /** `_match_segments` */
  predicate MatchSegments(pattern: seq<Segment>, path: seq<Segment>)
    decreases |pattern| + |path|
  {
    if pattern == [] then path == []
    else if pattern[0] == DOUBLE_STAR then
      MatchSegments(pattern[1..], path) || (path != [] && MatchSegments(pattern, path[1..]))
    else
      path != [] && SegmentMatches(pattern[0], path[0]) && MatchSegments(pattern[1..], path[1..])
  }

  predicate Matches(g: Glob, path: seq<Segment>) {
    MatchSegments(g.segments, path)
  }

  // ---------- The syntactic proofs ----------

  predicate IsLiteralSegment(s: Segment) {
    '*' !in s
  }

  /** `_literal(pattern) is not None`; the literal path is then the pattern's own segments. */
  predicate IsLiteral(g: Glob) {
    forall i | 0 <= i < |g.segments| :: IsLiteralSegment(g.segments[i])
  }

  function ProveIncluded(left: Glob, right: Glob): GlobProof {
    var n := |right.segments|;
    if left == right || right.segments == [DOUBLE_STAR] then Proven
    else if IsLiteral(left) && Matches(right, left.segments) then Proven
    else if n > 0 && right.segments[n - 1] == DOUBLE_STAR && right.segments[..n - 1] <= left.segments then Proven
    else Unknown
  }

  predicate SegmentsClash(left: Segment, right: Segment) {
    IsLiteralSegment(left) && IsLiteralSegment(right) && left != right
  }

  function ProveDisjoint(left: Glob, right: Glob): GlobProof {
    if IsLiteral(left) && IsLiteral(right) then
      if left.segments != right.segments then Proven else Unknown
    else if IsLiteral(left) && !Matches(right, left.segments) then Proven
    else if IsLiteral(right) && !Matches(left, right.segments) then Proven
    else if exists i | 0 <= i < |left.segments| && i < |right.segments| ::
        SegmentsClash(left.segments[i], right.segments[i]) then Proven
    else Unknown
  }

  predicate MayOverlap(left: Glob, right: Glob) {
    ProveDisjoint(left, right) != Proven
  }

  // ---------- The matcher means "some way to split" ----------

  /** `**` takes any stretch of the path, every other pattern segment exactly one matching segment. */
  predicate SegmentTakes(pattern: Segment, piece: seq<Segment>) {
    pattern == DOUBLE_STAR || (|piece| == 1 && SegmentMatches(pattern, piece[0]))
  }

  ghost predicate SplitsPath(pattern: seq<Segment>, path: seq<Segment>, pieces: seq<seq<Segment>>) {
    && |pieces| == |pattern|
    && Concat(pieces) == path
    && forall i | 0 <= i < |pattern| :: SegmentTakes(pattern[i], pieces[i])
  }

  /** `*` takes any stretch without a line feed, every other character exactly itself. */
  predicate CharacterTakes(pattern: char, piece: string) {
    if pattern == '*' then '\n' !in piece else piece == [pattern]
  }

  ghost predicate SplitsText(pattern: Segment, text: Segment, pieces: seq<string>) {
    && |pieces| == |pattern|
    && Concat(pieces) == text
    && forall i | 0 <= i < |pattern| :: CharacterTakes(pattern[i], pieces[i])
  }

  lemma {:induction false} MatchHasSplit(pattern: seq<Segment>, path: seq<Segment>) returns (pieces: seq<seq<Segment>>)
    requires MatchSegments(pattern, path)
    ensures SplitsPath(pattern, path, pieces)
    decreases |pattern| + |path|
  {
    if pattern == [] {
      pieces := [];
    } else if pattern[0] == DOUBLE_STAR && MatchSegments(pattern[1..], path) {
      var rest := MatchHasSplit(pattern[1..], path);
      pieces := [[]] + rest;
    } else if pattern[0] == DOUBLE_STAR {
      var rest := MatchHasSplit(pattern, path[1..]);
      pieces := [[path[0]] + rest[0]] + rest[1..];
    } else {
      var rest := MatchHasSplit(pattern[1..], path[1..]);
      pieces := [[path[0]]] + rest;
    }
  }

  lemma {:induction false} SplitMatches(pattern: seq<Segment>, path: seq<Segment>, pieces: seq<seq<Segment>>)
    requires SplitsPath(pattern, path, pieces)
    ensures MatchSegments(pattern, path)
    decreases |pattern| + |path|
  {
    if pattern == [] {
    } else if pattern[0] == DOUBLE_STAR && pieces[0] != [] {
      SplitMatches(pattern, path[1..], [pieces[0][1..]] + pieces[1..]);
    } else if pattern[0] == DOUBLE_STAR {
      SplitMatches(pattern[1..], path, pieces[1..]);
    } else {
      SplitMatches(pattern[1..], path[1..], pieces[1..]);
    }
  }

  lemma {:induction false} TextHasSplit(pattern: Segment, text: Segment) returns (pieces: seq<string>)
    requires SegmentMatches(pattern, text)
    ensures SplitsText(pattern, text, pieces)
    decreases |pattern| + |text|
  {
    if pattern == [] {
      pieces := [];
    } else if pattern[0] == '*' && SegmentMatches(pattern[1..], text) {
      var rest := TextHasSplit(pattern[1..], text);
      pieces := [[]] + rest;
    } else if pattern[0] == '*' {
      var rest := TextHasSplit(pattern, text[1..]);
      pieces := [[text[0]] + rest[0]] + rest[1..];
    } else {
      var rest := TextHasSplit(pattern[1..], text[1..]);
      pieces := [[text[0]]] + rest;
    }
  }

  lemma {:induction false} SplitTextMatches(pattern: Segment, text: Segment, pieces: seq<string>)
    requires SplitsText(pattern, text, pieces)
    ensures SegmentMatches(pattern, text)
    decreases |pattern| + |text|
  {
    if pattern == [] {
    } else if pattern[0] == '*' && pieces[0] != [] {
      assert text[0] == pieces[0][0];
      SplitTextMatches(pattern, text[1..], [pieces[0][1..]] + pieces[1..]);
    } else if pattern[0] == '*' {
      SplitTextMatches(pattern[1..], text, pieces[1..]);
    } else {
      SplitTextMatches(pattern[1..], text[1..], pieces[1..]);
    }
  }

  /** One segment matches exactly when its characters can be dealt out to the pattern's characters. */
  lemma {:induction false} SegmentMatchIsSplit(pattern: Segment, text: Segment)
    ensures SegmentMatches(pattern, text) <==> exists pieces :: SplitsText(pattern, text, pieces)
  {
    if SegmentMatches(pattern, text) {
      var pieces := TextHasSplit(pattern, text);
    }
    forall pieces | SplitsText(pattern, text, pieces)
      ensures SegmentMatches(pattern, text)
    {
      SplitTextMatches(pattern, text, pieces);
    }
  }

  /** A path matches exactly when its segments can be dealt out to the pattern's segments. */
  lemma {:induction false} MatchIsSplit(pattern: seq<Segment>, path: seq<Segment>)
    ensures MatchSegments(pattern, path) <==> exists pieces :: SplitsPath(pattern, path, pieces)
  {
    if MatchSegments(pattern, path) {
      var pieces := MatchHasSplit(pattern, path);
    }
    forall pieces | SplitsPath(pattern, path, pieces)
      ensures MatchSegments(pattern, path)
    {
      SplitMatches(pattern, path, pieces);
    }
  }

  // ---------- Inclusion proofs are sound for all patterns ----------

  lemma {:induction false} DoubleStarMatchesAll(path: seq<Segment>)
    ensures MatchSegments([DOUBLE_STAR], path)
  {
    if path != [] { DoubleStarMatchesAll(path[1..]); }
  }

  lemma {:induction false} LiteralSegmentMatchesItself(pattern: Segment, text: Segment)
    requires IsLiteralSegment(pattern)
    ensures SegmentMatches(pattern, text) <==> pattern == text
  {
    if pattern != "" && text != "" && text[0] == pattern[0] {
      LiteralSegmentMatchesItself(pattern[1..], text[1..]);
    }
  }

  lemma {:induction false} LiteralMatchesItself(g: Glob, path: seq<Segment>)
    requires IsLiteral(g)
    ensures Matches(g, path) <==> path == g.segments
    decreases |g.segments|
  {
    if g.segments != [] && path != [] {
      LiteralSegmentMatchesItself(g.segments[0], path[0]);
      LiteralMatchesItself(Glob(g.segments[1..]), path[1..]);
    }
  }

  /** A path matched by a concatenation splits into one part for each half. */
  lemma {:induction false} MatchSplitsAt(first: seq<Segment>, second: seq<Segment>, path: seq<Segment>) returns (k: nat)
    requires MatchSegments(first + second, path)
    ensures k <= |path| && MatchSegments(first, path[..k]) && MatchSegments(second, path[k..])
    decreases |first| + |path|
  {
    if first == [] {
      assert first + second == second;
      k := 0;
    } else {
      assert (first + second)[1..] == first[1..] + second;
      if first[0] == DOUBLE_STAR && MatchSegments(first[1..] + second, path) {
        k := MatchSplitsAt(first[1..], second, path);
      } else {
        k := MatchSplitsAt(if first[0] == DOUBLE_STAR then first else first[1..], second, path[1..]);
        assert path[1..][..k] == path[..k + 1][1..];
        k := k + 1;
      }
    }
  }

  lemma {:induction false} MatchConcatenates(first: seq<Segment>, second: seq<Segment>, a: seq<Segment>,
      b: seq<Segment>)
    requires MatchSegments(first, a) && MatchSegments(second, b)
    ensures MatchSegments(first + second, a + b)
    decreases |first| + |a|
  {
    if first == [] {
      assert first + second == second && a + b == b;
    } else {
      assert (first + second)[1..] == first[1..] + second;
      if first[0] == DOUBLE_STAR && MatchSegments(first[1..], a) {
        MatchConcatenates(first[1..], second, a, b);
      } else {
        assert (a + b)[1..] == a[1..] + b;
        MatchConcatenates(if first[0] == DOUBLE_STAR then first else first[1..], second, a[1..], b);
      }
    }
  }

  /** A proven inclusion is a real one, for every pair of patterns and every path. */
  lemma {:induction false} InclusionIsSound(left: Glob, right: Glob, path: seq<Segment>)
    requires ProveIncluded(left, right) == Proven
    requires Matches(left, path)
    ensures Matches(right, path)
  {
    var n := |right.segments|;
    if left == right {
    } else if right.segments == [DOUBLE_STAR] {
      DoubleStarMatchesAll(path);
    } else if IsLiteral(left) && Matches(right, left.segments) {
      LiteralMatchesItself(left, path);
    } else {
      var prefix := right.segments[..n - 1];
      assert left.segments == prefix + left.segments[n - 1..];
      assert right.segments == prefix + [DOUBLE_STAR];
      var k := MatchSplitsAt(prefix, left.segments[n - 1..], path);
      DoubleStarMatchesAll(path[k..]);
      MatchConcatenates(prefix, [DOUBLE_STAR], path[..k], path[k..]);
      assert path[..k] + path[k..] == path;
    }
  }

  // ---------- Disjointness proofs: exactly which patterns they serve ----------

  /** No canonical path is matched by both patterns. */
  ghost predicate Disjoint(left: Glob, right: Glob) {
    forall path | ValidPath(path) :: !(Matches(left, path) && Matches(right, path))
  }

  /** No literal segment stands after a `**`: every literal segment has a fixed position in the path. */
  predicate Anchored(g: Glob) {
    forall i, j | 0 <= i < j < |g.segments| ::
      g.segments[i] == DOUBLE_STAR ==> !IsLiteralSegment(g.segments[j])
  }

  lemma {:induction false} PositionIsFixed(pattern: seq<Segment>, path: seq<Segment>, k: nat)
    requires MatchSegments(pattern, path) && k < |pattern|
    requires forall i | 0 <= i <= k :: pattern[i] != DOUBLE_STAR
    ensures k < |path| && SegmentMatches(pattern[k], path[k])
  {
    if k > 0 { PositionIsFixed(pattern[1..], path[1..], k - 1); }
  }

  /** On anchored patterns a proven disjointness is a real one. */
  lemma {:induction false} DisjointnessIsSound(left: Glob, right: Glob, path: seq<Segment>)
    requires Anchored(left) && Anchored(right)
    requires ProveDisjoint(left, right) == Proven
    ensures !(Matches(left, path) && Matches(right, path))
  {
    if Matches(left, path) && Matches(right, path) {
      if IsLiteral(left) { LiteralMatchesItself(left, path); }
      if IsLiteral(right) { LiteralMatchesItself(right, path); }
      var k :| 0 <= k < |left.segments| && k < |right.segments| && SegmentsClash(left.segments[k], right.segments[k]);
      PositionIsFixed(left.segments, path, k);
      PositionIsFixed(right.segments, path, k);
      LiteralSegmentMatchesItself(left.segments[k], path[k]);
      LiteralSegmentMatchesItself(right.segments[k], path[k]);
    }
  }

  /** One path of a pattern: `*` becomes `x`, `**` becomes nothing. */
  function Instance(pattern: seq<Segment>): seq<Segment> {
    if pattern == [] then []
    else (if pattern[0] == DOUBLE_STAR then [] else [Starless(pattern[0])]) + Instance(pattern[1..])
  }

  lemma {:induction false} StarlessMatches(pattern: Segment)
    ensures SegmentMatches(pattern, Starless(pattern))
  {
    if pattern != "" {
      var text := Starless(pattern);
      StarlessMatches(pattern[1..]);
      assert Starless(pattern[1..]) == text[1..];
      if pattern[0] == '*' {
        assert SegmentMatches(pattern[1..], text[1..]) && text[0] == 'x';
        SegmentExtends(pattern, text);
      }
    }
  }

  lemma {:induction false} SegmentExtends(pattern: Segment, text: Segment)
    requires pattern != "" && text != "" && pattern[0] == '*' && text[0] != '\n'
    requires SegmentMatches(pattern[1..], text[1..])
    ensures SegmentMatches(pattern, text)
  {
    assert SegmentMatches(pattern, text[1..]);
  }

  lemma {:induction false} InstanceMatches(pattern: seq<Segment>)
    ensures MatchSegments(pattern, Instance(pattern))
    ensures |Instance(pattern)| <= |pattern|
  {
    if pattern != [] {
      InstanceMatches(pattern[1..]);
      StarlessMatches(pattern[0]);
      if pattern[0] == DOUBLE_STAR { assert Instance(pattern) == Instance(pattern[1..]); }
    }
  }

  ghost predicate PlainPath(path: seq<Segment>) {
    forall s | s in path :: ValidSegment(s) && ValidGlobSegment(s) && IsLiteralSegment(s)
  }

  lemma {:induction false} InstanceIsValid(pattern: seq<Segment>)
    requires ValidPattern(pattern)
    ensures PlainPath(Instance(pattern))
  {
    if pattern != [] {
      InstanceIsValid(pattern[1..]);
      if pattern[0] != DOUBLE_STAR {
        var s := Starless(pattern[0]);
        assert Starless(s) == s;
      }
    }
  }

  /** A short literal name other than the given one. */
  function OtherName(s: Segment): (r: Segment)
    ensures r != s && ValidSegment(r) && ValidGlobSegment(r) && IsLiteralSegment(r)
  {
    var r := if s == "b" then "c" else "b";
    assert Starless(r) == r;
    assert AsciiFold(r) == r;
    assert Basename(r) == r;
    r
  }

  lemma {:induction false} DoubleStarsAbsorb(pattern: seq<Segment>, path: seq<Segment>, fill: seq<Segment>)
    requires pattern != [] && pattern[0] == DOUBLE_STAR
    requires MatchSegments(pattern, path)
    ensures MatchSegments(pattern, fill + path)
  {
    if fill == [] {
      assert fill + path == path;
    } else {
      DoubleStarsAbsorb(pattern, path, fill[1..]);
      assert (fill + path)[1..] == fill[1..] + path;
    }
  }

  lemma {:induction false} LiteralPrefixMatches(prefix: seq<Segment>, path: seq<Segment>)
    requires prefix <= path && forall s | s in prefix :: IsLiteralSegment(s)
    ensures MatchSegments(prefix + [DOUBLE_STAR], path)
  {
    LiteralMatchesItself(Glob(prefix), prefix);
    DoubleStarMatchesAll(path[|prefix|..]);
    MatchConcatenates(prefix, [DOUBLE_STAR], prefix, path[|prefix|..]);
    assert prefix + path[|prefix|..] == path;
  }

  lemma {:induction false} SlicesAreValid(pattern: seq<Segment>, i: nat)
    requires ValidPattern(pattern) && i <= |pattern|
    ensures ValidPattern(pattern[..i]) && ValidPattern(pattern[i..])
  {}

  lemma {:induction false} RepeatedIsPlain(name: Segment, fill: seq<Segment>)
    requires PlainPath([name]) && forall k | 0 <= k < |fill| :: fill[k] == name
    ensures PlainPath(fill)
  {
    assert name in [name];
  }

  /** A plain path of the pattern with a stretch of our choice where a `**` stands. */
  lemma {:induction false} FilledInstance(head: seq<Segment>, tail: seq<Segment>, fill: seq<Segment>)
      returns (path: seq<Segment>)
    requires tail != [] && tail[0] == DOUBLE_STAR && PlainPath(fill)
    requires ValidPattern(head) && ValidPattern(tail)
    ensures path == Instance(head) + (fill + Instance(tail)) && |Instance(head)| <= |head|
    ensures MatchSegments(head + tail, path) && PlainPath(path)
  {
    path := Instance(head) + (fill + Instance(tail));
    InstanceMatches(head);
    InstanceMatches(tail);
    DoubleStarsAbsorb(tail, Instance(tail), fill);
    MatchConcatenates(head, tail, Instance(head), fill + Instance(tail));
    InstanceIsValid(head);
    InstanceIsValid(tail);
    PlainConcat(fill, Instance(tail));
    PlainConcat(Instance(head), fill + Instance(tail));
  }

  lemma {:induction false} NamedInstance(head: seq<Segment>, tail: seq<Segment>, name: Segment, j: nat)
      returns (path: seq<Segment>)
    requires tail != [] && tail[0] == DOUBLE_STAR && PlainPath([name]) && |head| <= j
    requires ValidPattern(head) && ValidPattern(tail)
    ensures MatchSegments(head + tail, path) && PlainPath(path)
    ensures j < |path| && path[j] == name
  {
    var fill := seq(j + 1, _ => name);
    RepeatedIsPlain(name, fill);
    path := FilledInstance(head, tail, fill);
    FilledAt(Instance(head), fill, Instance(tail), name, j);
  }

  /** A path of the pattern that has the given name at position `j`, filled in by the `**` at `i`. */
  lemma {:induction false} PathThroughDoubleStar(segments: seq<Segment>, i: nat, j: nat, name: Segment)
      returns (path: seq<Segment>)
    requires i < j < |segments| && segments[i] == DOUBLE_STAR
    requires ValidPattern(segments) && PlainPath([name])
    ensures MatchSegments(segments, path) && PlainPath(path)
    ensures j < |path| && path[j] == name
  {
    SlicesAreValid(segments, i);
    path := NamedInstance(segments[..i], segments[i..], name, j);
    assert segments[..i] + segments[i..] == segments;
  }

  lemma {:induction false} PlainConcat(a: seq<Segment>, b: seq<Segment>)
    requires PlainPath(a) && PlainPath(b)
    ensures PlainPath(a + b)
  {}

  lemma {:induction false} FilledAt(head: seq<Segment>, fill: seq<Segment>, tail: seq<Segment>, name: Segment, j: nat)
    requires |head| <= j < |head| + |fill| && forall k | 0 <= k < |fill| :: fill[k] == name
    ensures j < |head + (fill + tail)| && (head + (fill + tail))[j] == name
  {}

  lemma {:induction false} PrefixGlobIsPlain(prefix: seq<Segment>)
    requires PlainPath(prefix)
    ensures ValidGlob(Glob(prefix + [DOUBLE_STAR])) && Anchored(Glob(prefix + [DOUBLE_STAR]))
    ensures !IsLiteral(Glob(prefix + [DOUBLE_STAR]))
  {
    var segments := prefix + [DOUBLE_STAR];
    assert !IsLiteralSegment(segments[|prefix|]);
    forall k | 0 <= k < |segments|
      ensures ValidGlobSegment(segments[k])
      ensures k < |prefix| ==> segments[k] != DOUBLE_STAR
    {
      if k < |prefix| { assert segments[k] in prefix; }
    }
  }

  lemma {:induction false} PrefixPartner(path: seq<Segment>, j: nat) returns (right: Glob)
    requires PlainPath(path) && j < |path|
    ensures ValidGlob(right) && Anchored(right) && !IsLiteral(right) && ValidPath(path) && Matches(right, path)
    ensures j < |right.segments| && right.segments[j] == path[j]
  {
    var prefix := path[..j + 1];
    right := Glob(prefix + [DOUBLE_STAR]);
    PrefixGlobIsPlain(prefix);
    LiteralPrefixMatches(prefix, path);
  }

  /** For a pattern that is not anchored: an anchored partner wrongly proven disjoint, and a path of both. */
  lemma {:induction false} UnanchoredHasFalseProof(left: Glob) returns (right: Glob, path: seq<Segment>)
    requires ValidGlob(left) && !Anchored(left)
    ensures ValidGlob(right) && Anchored(right) && ProveDisjoint(left, right) == Proven
    ensures !IsLiteral(left) && !IsLiteral(right)
    ensures ValidPath(path) && Matches(left, path) && Matches(right, path)
  {
    var segments := left.segments;
    var i, j :| 0 <= i < j < |segments| && segments[i] == DOUBLE_STAR && IsLiteralSegment(segments[j]);
    var name := OtherName(segments[j]);
    path := PathThroughDoubleStar(segments, i, j, name);
    right := PrefixPartner(path, j);
    assert !IsLiteralSegment(segments[i]);
    assert IsLiteralSegment(name) && SegmentsClash(left.segments[j], right.segments[j]);
  }

  /** Proven disjointness against every anchored partner is right exactly when the pattern is anchored. */
  lemma {:induction false} DisjointnessIsSoundExactlyWhenAnchored(left: Glob)
    requires ValidGlob(left)
    ensures Anchored(left) <==>
      (forall right | ValidGlob(right) && Anchored(right) && ProveDisjoint(left, right) == Proven ::
        Disjoint(left, right))
  {
    if Anchored(left) {
      forall right, path | ValidGlob(right) && Anchored(right) && ProveDisjoint(left, right) == Proven
        && ValidPath(path)
        ensures !(Matches(left, path) && Matches(right, path))
      {
        DisjointnessIsSound(left, right, path);
      }
    } else {
      var right, path := UnanchoredHasFalseProof(left);
      assert !Disjoint(left, right);
    }
  }

  /** `x/b/a` against `**\/a`: the literal is a path of the other pattern, and still called disjoint. */
  lemma {:induction false} LiteralCalledDisjointFromItsOwnPattern()
    ensures var left, right := Glob(["x", "b", "a"]), Glob([DOUBLE_STAR, "a"]);
      IsLiteral(left) && Matches(right, left.segments) && ProveDisjoint(left, right) == Proven
  {
    var left, right := Glob(["x", "b", "a"]), Glob([DOUBLE_STAR, "a"]);
    LiteralMatchesItself(Glob(["a"]), ["a"]);
    assert right.segments[1..] == ["a"] && left.segments[2..] == ["a"];
    DoubleStarsAbsorb(right.segments, ["a"], ["x", "b"]);
    assert ["x", "b"] + ["a"] == left.segments;
    assert !IsLiteral(right) by { assert !IsLiteralSegment(right.segments[0]); }
    assert SegmentsClash(left.segments[1], right.segments[1]);
  }
}
