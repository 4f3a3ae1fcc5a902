/**
  Scoped search of a snapshot (src/apexcrew/domain/tools.py, lines 813-820 and 958-1017) and the bounded capture of
  a check's output (lines 185-203 and 242-246).
*/
module Search {
  import opened Wrappers
  import opened ByteStrings
  import opened Globs

  // ---------- Occurrences in one file ----------

  predicate OccursAt(raw: Bytes, needle: Bytes, offset: nat) {
    offset + |needle| <= |raw| && raw[offset..offset + |needle|] == needle
  }

  /** Where the needle occurs. */
  type Place = nat -> bool

  function PlacesOf(raw: Bytes, needle: Bytes): Place { (offset: nat) => OccursAt(raw, needle, offset) }

  /** The first place from `start` on, up to `limit`. */
  function Find(occurs: Place, limit: nat, start: nat): (r: Option<nat>)
    ensures r.Some? ==> start <= r.value <= limit && occurs(r.value)
    decreases limit - start
  {
    if start > limit then None else if occurs(start) then Some(start) else Find(occurs, limit, start + 1)
  }

  lemma {:induction false} FindIsFirst(occurs: Place, limit: nat, start: nat, o: nat)
    requires start <= o <= limit && occurs(o)
    ensures Find(occurs, limit, start).Some? && Find(occurs, limit, start).value <= o
    decreases o - start
  {
    if start < o { FindIsFirst(occurs, limit, start + 1, o); }
  }

  /** The occurrences that repeated searching visits. */
  function Visited(occurs: Place, width: nat, limit: nat, start: nat): seq<nat>
    requires width > 0
    decreases limit + 1 - start
  {
    match Find(occurs, limit, start)
    case None => []
    case Some(o) => [o] + Visited(occurs, width, limit, o + width)
  }

  /** An offset lies in one of the occurrences. */
  ghost predicate Covers(list: seq<nat>, width: nat, offset: nat) {
    exists k :: 0 <= k < |list| && list[k] <= offset < list[k] + width
  }

  /** Occurrences that do not overlap, such that every other one overlaps one of them that starts before it. */
  ghost predicate LeftmostNonOverlapping(occurs: Place, width: nat, limit: nat, start: nat, list: seq<nat>) {
    && (forall i | 0 <= i < |list| :: start <= list[i] <= limit && occurs(list[i]))
    && (forall i, j | 0 <= i < j < |list| :: list[i] + width <= list[j])
    && (forall o: nat {:trigger Covers(list, width, o)} | start <= o <= limit && occurs(o) :: Covers(list, width, o))
  }

  lemma {:induction false} VisitedOccurs(occurs: Place, width: nat, limit: nat, start: nat, i: nat)
    requires width > 0 && i < |Visited(occurs, width, limit, start)|
    ensures var o := Visited(occurs, width, limit, start)[i]; start <= o <= limit && occurs(o)
    decreases i
  {
    if i > 0 { VisitedOccurs(occurs, width, limit, Find(occurs, limit, start).value + width, i - 1); }
  }

  lemma {:induction false} VisitedAreApart(occurs: Place, width: nat, limit: nat, start: nat, i: nat, j: nat)
    requires width > 0 && i < j < |Visited(occurs, width, limit, start)|
    ensures var list := Visited(occurs, width, limit, start); list[i] + width <= list[j]
    decreases i
  {
    var next := Find(occurs, limit, start).value + width;
    if i > 0 {
      VisitedAreApart(occurs, width, limit, next, i - 1, j - 1);
    } else {
      VisitedOccurs(occurs, width, limit, next, j - 1);
    }
  }

  lemma {:induction false} VisitedCover(occurs: Place, width: nat, limit: nat, start: nat, o: nat)
    requires width > 0 && start <= o <= limit && occurs(o)
    ensures Covers(Visited(occurs, width, limit, start), width, o)
    decreases o - start
  {
    FindIsFirst(occurs, limit, start, o);
    var first := Find(occurs, limit, start).value;
    var list := Visited(occurs, width, limit, start);
    if o < first + width {
      assert list[0] == first;
    } else {
      var later := Visited(occurs, width, limit, first + width);
      VisitedCover(occurs, width, limit, first + width, o);
      var k :| 0 <= k < |later| && later[k] <= o < later[k] + width;
      assert list[k + 1] == later[k];
    }
  }

  /** Repeated searching visits the leftmost non-overlapping occurrences. */
  lemma {:induction false} VisitedAreLeftmost(occurs: Place, width: nat, limit: nat, start: nat)
    requires width > 0
    ensures LeftmostNonOverlapping(occurs, width, limit, start, Visited(occurs, width, limit, start))
  {
    var list := Visited(occurs, width, limit, start);
    forall i | 0 <= i < |list| ensures start <= list[i] <= limit && occurs(list[i]) {
      VisitedOccurs(occurs, width, limit, start, i);
    }
    forall i, j | 0 <= i < j < |list| ensures list[i] + width <= list[j] {
      VisitedAreApart(occurs, width, limit, start, i, j);
    }
    forall o: nat | start <= o <= limit && occurs(o) ensures Covers(list, width, o) {
      VisitedCover(occurs, width, limit, start, o);
    }
  }

  lemma {:induction false} FirstIsFound(occurs: Place, width: nat, limit: nat, start: nat, list: seq<nat>)
    requires width > 0 && LeftmostNonOverlapping(occurs, width, limit, start, list)
    ensures Find(occurs, limit, start) == if list == [] then None else Some(list[0])
  {
    var found := Find(occurs, limit, start);
    if list != [] { FindIsFirst(occurs, limit, start, list[0]); }
    if found.Some? {
      assert Covers(list, width, found.value);
      var k :| 0 <= k < |list| && list[k] <= found.value < list[k] + width;
      assert list[0] <= list[k];
    }
  }

  lemma {:induction false} LeftmostTail(occurs: Place, width: nat, limit: nat, start: nat, list: seq<nat>)
    requires width > 0 && list != [] && LeftmostNonOverlapping(occurs, width, limit, start, list)
    ensures LeftmostNonOverlapping(occurs, width, limit, list[0] + width, list[1..])
  {
    forall o: nat | list[0] + width <= o <= limit && occurs(o) ensures Covers(list[1..], width, o) {
      assert Covers(list, width, o);
      var k :| 0 <= k < |list| && list[k] <= o < list[k] + width;
      assert list[1..][k - 1] == list[k];
    }
  }

  /** And there is no other list of that kind. */
  lemma {:induction false} LeftmostIsUnique(occurs: Place, width: nat, limit: nat, start: nat, list: seq<nat>)
    requires width > 0 && LeftmostNonOverlapping(occurs, width, limit, start, list)
    ensures list == Visited(occurs, width, limit, start)
    decreases |list|
  {
    FirstIsFound(occurs, width, limit, start, list);
    if list != [] {
      LeftmostTail(occurs, width, limit, start, list);
      LeftmostIsUnique(occurs, width, limit, list[0] + width, list[1..]);
      VisitedFrom(occurs, width, limit, start, list);
    }
  }

  lemma {:induction false} VisitedFrom(occurs: Place, width: nat, limit: nat, start: nat, list: seq<nat>)
    requires width > 0 && list != [] && Find(occurs, limit, start) == Some(list[0])
    requires list[1..] == Visited(occurs, width, limit, list[0] + width)
    ensures list == Visited(occurs, width, limit, start)
  {
    assert list == [list[0]] + list[1..];
  }

  /** The occurrences of a needle that a search reports. */
  function Occurrences(raw: Bytes, needle: Bytes): seq<nat>
    requires needle != []
  {
    Visited(PlacesOf(raw, needle), |needle|, |raw|, 0)
  }

  // ---------- The files of a snapshot ----------

  type Path = seq<Segment>

  datatype Reading = Content(raw: Bytes) | NoFollowDenied | Unavailable

  /** An entry: its canonical path if it has one, whether the policy lets it be read, and what reading it gives. */
  datatype Entry = Entry(path: Option<Path>, allowed: bool, reading: Reading)

  datatype File = File(path: Path, raw: Bytes)

  datatype Denial = ScopeDenied | SecretPathDenied | NoFollowPathDenied

  predicate SelectedBy(selectors: seq<Glob>, path: Path) { exists s | s in selectors :: Matches(s, path) }

  predicate Chosen(selectors: seq<Glob>, e: Entry) { e.path.Some? && SelectedBy(selectors, e.path.value) && e.allowed }

  function FaultOf(selectors: seq<Glob>, e: Entry): Option<Denial> {
    if e.path == None then Some(NoFollowPathDenied)
    else if !Chosen(selectors, e) then None
    else
      match e.reading
      case Content(_) => None
      case NoFollowDenied => Some(NoFollowPathDenied)
      case Unavailable => Some(SecretPathDenied)
  }

  /** The chosen files up to the first fault. */
  function Files(selectors: seq<Glob>, entries: seq<Entry>): seq<File> {
    if entries == [] || FaultOf(selectors, entries[0]).Some? then []
    else (if Chosen(selectors, entries[0]) then [File(entries[0].path.value, entries[0].reading.raw)] else [])
         + Files(selectors, entries[1..])
  }

  function FirstFault(selectors: seq<Glob>, entries: seq<Entry>): Option<Denial> {
    if entries == [] then None
    else if FaultOf(selectors, entries[0]).Some? then FaultOf(selectors, entries[0])
    else FirstFault(selectors, entries[1..])
  }

  // ---------- Matches ----------

  datatype Match = Match(path: Path, offset: nat)

  function MatchesAt(path: Path, offsets: seq<nat>): seq<Match> {
    if offsets == [] then [] else [Match(path, offsets[0])] + MatchesAt(path, offsets[1..])
  }

  function FileMatches(f: File, needle: Bytes): seq<Match>
    requires needle != []
  {
    MatchesAt(f.path, Occurrences(f.raw, needle))
  }

  function AllMatches(files: seq<File>, needle: Bytes): seq<Match>
    requires needle != []
  {
    if files == [] then [] else FileMatches(files[0], needle) + AllMatches(files[1..], needle)
  }

  datatype Limits = Limits(matches: nat, bytes: nat, pathBytes: Path -> nat)

  function ReturnedBytes(ms: seq<Match>, limits: Limits): nat {
    if ms == [] then 0 else ReturnedBytes(ms[..|ms| - 1], limits) + limits.pathBytes(ms[|ms| - 1].path)
  }

  predicate Within(ms: seq<Match>, limits: Limits) {
    |ms| <= limits.matches && ReturnedBytes(ms, limits) <= limits.bytes
  }

  datatype Outcome = Completed(matches: seq<Match>, truncated: bool) | Denied(denial: Denial)

  /**
    What a search of some files must answer, in scan order: everything, or the longest part of it from the
    beginning that keeps both limits; a fault counts only if everything before it keeps them.
  */
  predicate Answers(files: seq<File>, fault: Option<Denial>, needle: Bytes, limits: Limits, r: Outcome)
    requires needle != []
  {
    var all := AllMatches(files, needle);
    match r
    case Denied(d) => fault == Some(d) && Within(all, limits)
    case Completed(ms, truncated) =>
      && ms <= all && Within(ms, limits)
      && (if truncated then |ms| < |all| && !Within(all[..|ms| + 1], limits) else ms == all && fault == None)
  }

  lemma {:induction false} ShorterIsWithin(a: seq<Match>, b: seq<Match>, limits: Limits)
    requires a <= b && Within(b, limits)
    ensures Within(a, limits)
  {
    if |a| < |b| {
      ShorterIsWithin(a, b[..|b| - 1], limits);
    } else {
      assert a == b;
    }
  }

  /** There is only one right answer. */
  lemma {:induction false} AnswerIsUnique(files: seq<File>, fault: Option<Denial>, needle: Bytes, limits: Limits,
      r: Outcome, s: Outcome)
    requires needle != [] && Answers(files, fault, needle, limits, r) && Answers(files, fault, needle, limits, s)
    ensures r == s
  {
    var all := AllMatches(files, needle);
    OneAnswer(all, fault, needle, limits, files, r, s);
    OneAnswer(all, fault, needle, limits, files, s, r);
    if r.Completed? && s.Completed? {
      assert r.matches == all[..|r.matches|] && s.matches == all[..|s.matches|];
    }
  }

  lemma {:induction false} OneAnswer(all: seq<Match>, fault: Option<Denial>, needle: Bytes, limits: Limits,
      files: seq<File>, r: Outcome, s: Outcome)
    requires needle != [] && all == AllMatches(files, needle)
    requires Answers(files, fault, needle, limits, r) && Answers(files, fault, needle, limits, s)
    ensures r.Completed? && r.truncated ==> s.Completed? && |s.matches| <= |r.matches|
  {
    if r.Completed? && r.truncated {
      var longer := all[..|r.matches| + 1];
      if Within(all, limits) { ShorterIsWithin(longer, all, limits); }
      if s.Completed? && |s.matches| > |r.matches| {
        assert longer <= s.matches;
        ShorterIsWithin(longer, s.matches, limits);
      }
    }
  }

  // ---------- Every match is real, and in scope ----------

  predicate InScope(selector: Glob, readGlobs: seq<Glob>) {
    exists g | g in readGlobs :: ProveIncluded(selector, g) == Proven
  }

  lemma {:induction false} MatchIsInFile(path: Path, offsets: seq<nat>, m: Match)
    requires m in MatchesAt(path, offsets)
    ensures m.path == path && m.offset in offsets
  {
    if m != Match(path, offsets[0]) { MatchIsInFile(path, offsets[1..], m); }
  }

  lemma {:induction false} MatchIsInSomeFile(files: seq<File>, needle: Bytes, m: Match)
    requires needle != [] && m in AllMatches(files, needle)
    ensures exists f :: f in files && f.path == m.path && OccursAt(f.raw, needle, m.offset)
  {
    if m in FileMatches(files[0], needle) {
      var offsets := Occurrences(files[0].raw, needle);
      MatchIsInFile(files[0].path, offsets, m);
      var k :| 0 <= k < |offsets| && offsets[k] == m.offset;
      VisitedOccurs(PlacesOf(files[0].raw, needle), |needle|, |files[0].raw|, 0, k);
      assert PlacesOf(files[0].raw, needle)(m.offset);
      assert files[0] in files;
    } else {
      MatchIsInSomeFile(files[1..], needle, m);
      var f :| f in files[1..] && f.path == m.path && OccursAt(f.raw, needle, m.offset);
      assert f in files;
    }
  }

  lemma {:induction false} FileWasChosen(selectors: seq<Glob>, entries: seq<Entry>, f: File)
    requires f in Files(selectors, entries)
    ensures exists e :: e in entries && Chosen(selectors, e) && e.path == Some(f.path) && e.reading == Content(f.raw)
  {
    if Chosen(selectors, entries[0]) && f == File(entries[0].path.value, entries[0].reading.raw) {
      assert entries[0] in entries;
    } else {
      FileWasChosen(selectors, entries[1..], f);
      var e :| e in entries[1..] && Chosen(selectors, e) && e.path == Some(f.path) && e.reading == Content(f.raw);
      assert e in entries;
    }
  }

  /**
    A reported match is an occurrence in a file of the snapshot that the policy allows, and its path is matched by
    one of the read patterns: proven inclusions are real.
  */
  lemma {:induction false} MatchesAreReadable(selectors: seq<Glob>, readGlobs: seq<Glob>, entries: seq<Entry>,
      needle: Bytes,
      limits: Limits, r: Outcome, m: Match)
    requires needle != [] && forall s | s in selectors :: InScope(s, readGlobs)
    requires Answers(Files(selectors, entries), FirstFault(selectors, entries), needle, limits, r)
    requires r.Completed? && m in r.matches
    ensures exists g :: g in readGlobs && Matches(g, m.path)
    ensures exists e ::
      e in entries && e.path == Some(m.path) && e.allowed && e.reading.Content?
      && OccursAt(e.reading.raw, needle, m.offset)
  {
    var files := Files(selectors, entries);
    assert m in AllMatches(files, needle);
    MatchIsInSomeFile(files, needle, m);
    var f :| f in files && f.path == m.path && OccursAt(f.raw, needle, m.offset);
    FileWasChosen(selectors, entries, f);
    var s :| s in selectors && Matches(s, m.path);
    var g :| g in readGlobs && ProveIncluded(s, g) == Proven;
    InclusionIsSound(s, g, m.path);
  }

  // ---------- The search ----------

  lemma {:induction false} AllMatchesConcat(a: seq<File>, b: seq<File>, needle: Bytes)
    requires needle != []
    ensures AllMatches(a + b, needle) == AllMatches(a, needle) + AllMatches(b, needle)
  {
    if a == [] {
      assert a + b == b;
    } else {
      assert (a + b)[1..] == a[1..] + b;
      AllMatchesConcat(a[1..], b, needle);
    }
  }

  /** All of some matches, or the longest beginning of them that keeps both limits. */
  predicate Extends(all: seq<Match>, ms: seq<Match>, truncated: bool, limits: Limits) {
    && ms <= all && Within(ms, limits)
    && (if truncated then |ms| < |all| && !Within(all[..|ms| + 1], limits) else ms == all)
  }

  lemma {:induction false} StopsBefore(all: seq<Match>, ms: seq<Match>, m: Match, rest: seq<Match>, limits: Limits)
    requires Within(ms, limits) && all == ms + [m] + rest && !Within(ms + [m], limits)
    ensures Extends(all, ms, true, limits)
  {
    assert all[..|ms| + 1] == ms + [m];
  }

  /** Add the occurrences in one file, as far as both limits allow. */
  method SearchFile(f: File, needle: Bytes, limits: Limits, before: seq<Match>, bytesBefore: nat)
    returns (matches: seq<Match>, returnedBytes: nat, truncated: bool)
    requires needle != [] && Within(before, limits) && bytesBefore == ReturnedBytes(before, limits)
    ensures Extends(before + FileMatches(f, needle), matches, truncated, limits)
    ensures returnedBytes == ReturnedBytes(matches, limits)
  {
    matches, returnedBytes, truncated := SearchPlaces(f.path, PlacesOf(f.raw, needle), |needle|, |f.raw|, limits,
      before, bytesBefore,
      before + FileMatches(f, needle));
  }

  /** The loop over the places in one file. */
  method SearchPlaces(path: Path, occurs: Place, width: nat, limit: nat, limits: Limits, before: seq<Match>,
      bytesBefore: nat,
      ghost all: seq<Match>)
    returns (matches: seq<Match>, returnedBytes: nat, truncated: bool)
    requires width > 0 && Within(before, limits) && bytesBefore == ReturnedBytes(before, limits)
    requires all == before + MatchesAt(path, Visited(occurs, width, limit, 0))
    ensures Extends(all, matches, truncated, limits) && returnedBytes == ReturnedBytes(matches, limits)
  {
    matches, returnedBytes, truncated := before, bytesBefore, false;
    var matchSize := limits.pathBytes(path);
    var start := 0;
    var offset := Find(occurs, limit, start);
    while offset.Some?
      invariant offset == Find(occurs, limit, start)
      invariant all == matches + MatchesAt(path, Visited(occurs, width, limit, start))
      invariant Within(matches, limits) && returnedBytes == ReturnedBytes(matches, limits)
      decreases limit + 1 - start
    {
      PlaceStep(path, occurs, width, limit, start, limits, matches, all);
      if |matches| == limits.matches || returnedBytes + matchSize > limits.bytes {
        return matches, returnedBytes, true;
      }
      matches := matches + [Match(path, offset.value)];
      returnedBytes := returnedBytes + matchSize;
      start := offset.value + width;
      offset := Find(occurs, limit, start);
    }
    assert matches + [] == matches;
  }

  /** One turn of the loop: the limits are reached before the next match, or it is added. */
  lemma {:induction false} PlaceStep(path: Path, occurs: Place, width: nat, limit: nat, start: nat, limits: Limits,
      matches: seq<Match>, all: seq<Match>)
    requires width > 0 && Find(occurs, limit, start).Some? && Within(matches, limits)
    requires all == matches + MatchesAt(path, Visited(occurs, width, limit, start))
    ensures var offset, bytes := Find(occurs, limit, start).value,
      ReturnedBytes(matches, limits) + limits.pathBytes(path);
      var longer := matches + [Match(path, offset)];
      if |matches| == limits.matches || bytes > limits.bytes then Extends(all, matches, true, limits)
      else
        && Within(longer, limits) && ReturnedBytes(longer, limits) == bytes
        && all == longer + MatchesAt(path, Visited(occurs, width, limit, offset + width))
  {
    var offset := Find(occurs, limit, start).value;
    var rest := MatchesAt(path, Visited(occurs, width, limit, offset + width));
    NextMatch(path, occurs, width, limit, start, matches, all);
    LongerBytes(matches, Match(path, offset), limits);
    if !Within(matches + [Match(path, offset)], limits) {
      StopsBefore(all, matches, Match(path, offset), rest, limits);
    }
  }

  lemma {:induction false} LongerBytes(ms: seq<Match>, m: Match, limits: Limits)
    ensures ReturnedBytes(ms + [m], limits) == ReturnedBytes(ms, limits) + limits.pathBytes(m.path)
    ensures Within(ms + [m], limits) <==>
      |ms| + 1 <= limits.matches && ReturnedBytes(ms, limits) + limits.pathBytes(m.path) <= limits.bytes
  {
    assert (ms + [m])[..|ms|] == ms;
  }

  lemma {:induction false} NextMatch(path: Path, occurs: Place, width: nat, limit: nat, start: nat,
      matches: seq<Match>, all: seq<Match>)
    requires width > 0 && Find(occurs, limit, start).Some?
    requires all == matches + MatchesAt(path, Visited(occurs, width, limit, start))
    ensures var offset := Find(occurs, limit, start).value;
      all == matches + [Match(path, offset)] + MatchesAt(path, Visited(occurs, width, limit, offset + width))
  {
    var offset := Find(occurs, limit, start).value;
    var later := Visited(occurs, width, limit, offset + width);
    MatchesFrom(path, offset, later);
    assert matches + ([Match(path, offset)] + MatchesAt(path, later)) == matches + [Match(path, offset)]
      + MatchesAt(path, later);
  }

  lemma {:induction false} MatchesFrom(path: Path, offset: nat, later: seq<nat>)
    ensures MatchesAt(path, [offset] + later) == [Match(path, offset)] + MatchesAt(path, later)
  {
    assert ([offset] + later)[1..] == later;
  }

  /** The rest of the search when a file is about to be searched. */
  lemma {:induction false} FileStep(done: seq<File>, f: File, rest: seq<File>, needle: Bytes)
    requires needle != []
    ensures AllMatches(done, needle) + FileMatches(f, needle) <= AllMatches(done + ([f] + rest), needle)
    ensures AllMatches(done + [f], needle) == AllMatches(done, needle) + FileMatches(f, needle)
  {
    AllMatchesConcat(done, [f] + rest, needle);
    AllMatchesConcat(done, [f], needle);
    assert ([f] + rest)[1..] == rest;
    var none: seq<File> := [f][1..];
    assert none == [] && AllMatches(none, needle) == [];
    assert AllMatches([f], needle) == FileMatches(f, needle) + [];
  }

  lemma {:induction false} TruncatedAnswers(all: seq<Match>, part: seq<Match>, ms: seq<Match>, files: seq<File>,
      fault: Option<Denial>,
      needle: Bytes, limits: Limits)
    requires needle != [] && all == AllMatches(files, needle) && part <= all
    requires Extends(part, ms, true, limits)
    ensures Answers(files, fault, needle, limits, Completed(ms, true))
  {
    assert part[..|ms| + 1] == all[..|ms| + 1];
  }

  /** What an entry adds to the chosen files, or the fault that ends them. */
  lemma {:induction false} EntryStep(selectors: seq<Glob>, entries: seq<Entry>, i: nat, done: seq<File>)
    requires i < |entries|
    ensures var e, later := entries[i], Files(selectors, entries[i + 1..]);
      && (FaultOf(selectors, e).Some? ==>
        Files(selectors, entries[i..]) == [] && FirstFault(selectors, entries[i..]) == FaultOf(selectors, e))
      && (FaultOf(selectors, e) == None ==>
        FirstFault(selectors, entries[i..]) == FirstFault(selectors, entries[i + 1..]))
      && (FaultOf(selectors, e) == None && Chosen(selectors, e) ==> e.reading.Content?)
      && (FaultOf(selectors, e) == None && Chosen(selectors, e) ==>
          Files(selectors, entries[i..]) == [File(e.path.value, e.reading.raw)] + later)
      && (FaultOf(selectors, e) == None && !Chosen(selectors, e) ==> Files(selectors, entries[i..]) == later)
  {
    var tail := entries[i..];
    assert tail[0] == entries[i] && tail[1..] == entries[i + 1..];
    var later := Files(selectors, entries[i + 1..]);
    assert [] + later == later;
  }

  lemma {:induction false} EmptyTail(selectors: seq<Glob>, entries: seq<Entry>)
    ensures Files(selectors, entries[|entries|..]) == [] && FirstFault(selectors, entries[|entries|..]) == None
    ensures entries[0..] == entries
  {}

  lemma {:induction false} WholeAnswers(files: seq<File>, fault: Option<Denial>, needle: Bytes, limits: Limits,
      all: seq<Match>)
    requires needle != [] && all == AllMatches(files, needle) && Within(all, limits)
    ensures Answers(files, fault, needle, limits, match fault case Some(d) => Denied(d) case None =>
      Completed(all, false))
  {}

  lemma {:induction false} FilesAssociate(done: seq<File>, f: File, rest: seq<File>)
    ensures done + ([f] + rest) == (done + [f]) + rest
  {}

  /** Search one chosen file: the matches so far grow by its own, or the answer is complete. */
  method ScanFile(f: File, needle: Bytes, limits: Limits, ghost done: seq<File>, ghost rest: seq<File>,
      ghost fault: Option<Denial>,
      matches: seq<Match>, returnedBytes: nat)
    returns (found: seq<Match>, bytes: nat, truncated: bool)
    requires needle != [] && matches == AllMatches(done, needle)
    requires Within(matches, limits) && returnedBytes == ReturnedBytes(matches, limits)
    ensures truncated ==> Answers(done + ([f] + rest), fault, needle, limits, Completed(found, true))
    ensures !truncated ==>
      found == AllMatches(done + [f], needle) && Within(found, limits) && bytes == ReturnedBytes(found, limits)
    ensures done + ([f] + rest) == (done + [f]) + rest
  {
    FileStep(done, f, rest, needle);
    found, bytes, truncated := SearchFile(f, needle, limits, matches, returnedBytes);
    ghost var part, files := matches + FileMatches(f, needle), done + ([f] + rest);
    if truncated {
      TruncatedAnswers(AllMatches(files, needle), part, found, files, fault, needle, limits);
    }
    FilesAssociate(done, f, rest);
  }

  /** The scan of the snapshot, in the order of its entries. */
  method Scan(selectors: seq<Glob>, entries: seq<Entry>, needle: Bytes, limits: Limits) returns (r: Outcome)
    requires needle != []
    ensures Answers(Files(selectors, entries), FirstFault(selectors, entries), needle, limits, r)
  {
    var matches: seq<Match>, returnedBytes := [], 0;
    ghost var done: seq<File> := [];
    ghost var files, firstFault := Files(selectors, entries), FirstFault(selectors, entries);
    EmptyTail(selectors, entries);
    assert [] + files == files;
    for i := 0 to |entries|
      invariant files == done + Files(selectors, entries[i..]) && firstFault == FirstFault(selectors, entries[i..])
      invariant matches == AllMatches(done, needle)
      invariant Within(matches, limits) && returnedBytes == ReturnedBytes(matches, limits)
    {
      var entry := entries[i];
      EntryStep(selectors, entries, i, done);
      var fault := FaultOf(selectors, entry);
      if fault.Some? {
        assert done + [] == done;
        WholeAnswers(done, fault, needle, limits, matches);
        return Denied(fault.value);
      }
      if Chosen(selectors, entry) {
        var f := File(entry.path.value, entry.reading.raw);
        var truncated;
        matches, returnedBytes, truncated :=
          ScanFile(f, needle, limits, done, Files(selectors, entries[i + 1..]), firstFault, matches, returnedBytes);
        if truncated { return Completed(matches, true); }
        done := done + [f];
      }
    }
    assert done + [] == done;
    WholeAnswers(done, None, needle, limits, matches);
    return Completed(matches, false);
  }

  /** A search request: its parsed selectors (None where a selector does not parse), and what the policy says of it. */
  datatype Request = Request(selectors: seq<Option<Glob>>, allowed: bool, needle: Bytes)

  predicate AllInScope(request: Request, readGlobs: seq<Glob>) {
    forall s | s in request.selectors :: s.Some? && InScope(s.value, readGlobs)
  }

  function Parsed(selectors: seq<Option<Glob>>): seq<Glob>
    requires forall s | s in selectors :: s.Some?
  {
    if selectors == [] then [] else [selectors[0].value] + Parsed(selectors[1..])
  }

  lemma {:induction false} ParsedIn(selectors: seq<Option<Glob>>, g: Glob)
    requires (forall s | s in selectors :: s.Some?) && g in Parsed(selectors)
    ensures Some(g) in selectors
  {
    if g != selectors[0].value {
      ParsedIn(selectors[1..], g);
    } else {
      assert selectors[0] == Some(g);
    }
  }

  /** `_search`, up to the final sort of the matches. */
  method SearchSnapshot(request: Request, readGlobs: seq<Glob>, snapshot: Option<seq<Entry>>, limits: Limits)
      returns (r: Outcome)
    requires request.needle != []
    ensures !AllInScope(request, readGlobs) ==> r == Denied(ScopeDenied)
    ensures AllInScope(request, readGlobs) && !request.allowed ==> r == Denied(SecretPathDenied)
    ensures AllInScope(request, readGlobs) && request.allowed && snapshot == None ==> r == Denied(NoFollowPathDenied)
    ensures AllInScope(request, readGlobs) && request.allowed && snapshot.Some? ==>
      var selectors := Parsed(request.selectors);
      Answers(Files(selectors, snapshot.value), FirstFault(selectors, snapshot.value), request.needle, limits, r)
    ensures r.Completed? ==> forall m | m in r.matches :: exists g :: g in readGlobs && Matches(g, m.path)
  {
    for i := 0 to |request.selectors|
      invariant forall k | 0 <= k < i :: request.selectors[k].Some? && InScope(request.selectors[k].value, readGlobs)
    {
      var selector := request.selectors[i];
      if selector == None || !InScope(selector.value, readGlobs) {
        assert selector in request.selectors;
        return Denied(ScopeDenied);
      }
    }
    assert AllInScope(request, readGlobs);
    if !request.allowed { return Denied(SecretPathDenied); }
    if snapshot == None { return Denied(NoFollowPathDenied); }
    var selectors := Parsed(request.selectors);
    r := Scan(selectors, snapshot.value, request.needle, limits);
    if r.Completed? {
      forall g | g in selectors ensures InScope(g, readGlobs) { ParsedIn(request.selectors, g); }
      forall m | m in r.matches ensures exists g :: g in readGlobs && Matches(g, m.path) {
        MatchesAreReadable(selectors, readGlobs, snapshot.value, request.needle, limits, r, m);
      }
    }
  }

  // ---------- Bounded output ----------

  function Joined(chunks: seq<Bytes>): Bytes {
    if chunks == [] then [] else Joined(chunks[..|chunks| - 1]) + chunks[|chunks| - 1]
  }

  function Least(a: nat, b: nat): nat { if a <= b then a else b }

  lemma {:induction false} JoinedPrefix(chunks: seq<Bytes>, i: nat)
    requires i <= |chunks|
    ensures Joined(chunks[..i]) <= Joined(chunks)
  {
    if i == |chunks| {
      assert chunks[..i] == chunks;
    } else {
      JoinedPrefix(chunks[..|chunks| - 1], i);
      assert chunks[..|chunks| - 1][..i] == chunks[..i];
    }
  }

  /** As much of the output as there is room for, however it is cut into chunks. */
  method BoundedChunks(chunks: seq<Bytes>, room: nat) returns (captured: Bytes, remaining: nat, truncated: bool)
    ensures captured == Joined(chunks)[..Least(room, |Joined(chunks)|)]
    ensures remaining == room - |captured|
    ensures truncated <==> |Joined(chunks)| > room
  {
    captured, remaining, truncated := [], room, false;
    var i := 0;
    while i < |chunks|
      invariant i <= |chunks|
      invariant captured == Joined(chunks[..i]) && |captured| <= room && remaining == room - |captured|
      invariant !truncated
      decreases |chunks| - i
    {
      var chunk := chunks[i];
      assert chunks[..i + 1][..i] == chunks[..i];
      JoinedPrefix(chunks, i + 1);
      if remaining == 0 {
        if chunk != [] {
          return captured, 0, true;
        }
      } else if |chunk| > remaining {
        captured := captured + chunk[..remaining];
        return captured, 0, true;
      }
      captured := captured + chunk;
      remaining := remaining - |chunk|;
      i := i + 1;
    }
    assert chunks[..i] == chunks;
  }

  /** Standard output and error share the room: together they are cut like one stream. */
  method CaptureOutput(stdout: seq<Bytes>, stderr: seq<Bytes>, room: nat) returns (captured: Bytes, truncated: bool)
    ensures var all := Joined(stdout) + Joined(stderr);
      captured == all[..Least(room, |all|)] && (truncated <==> |all| > room)
  {
    var out, remaining, outTruncated := BoundedChunks(stdout, room);
    var err, left, errTruncated := BoundedChunks(stderr, remaining);
    return out + err, outTruncated || errTruncated;
  }
}
