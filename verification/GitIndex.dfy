/**
  The walk over a Git index (src/apexcrew/adapters/repository/git.py, lines 647-717): every loop next to the
  function of the unread bytes that it computes.
*/
module GitIndex {
  import opened Wrappers
  import opened Sequences
  import opened ByteStrings
  import opened GitVarints

  const MAX_ENTRIES := 1_000_000

  datatype IndexError =
    | LimitExceeded
    | Invalid
    | ChecksumInvalid
    | PathInvalid
    | SparseDenied
    | SplitDenied
    | RequiredExtensionUnsupported

  // ---------- Numbers and flags ----------

  function U16(s: Bytes): nat requires |s| == 2 { (s[0] as int) * 256 + s[1] }

  function U32(s: Bytes): nat requires |s| == 4 { U16(s[..2]) * 65536 + U16(s[2..]) }

  predicate Extended(flags: nat) { flags / 16384 % 2 == 1 }

  predicate IsDirectory(mode: nat) { mode / 4096 % 16 == 4 }

  function DeclaredLength(flags: nat): nat { flags % 4096 }

  /** The place of the first NUL, or the length when there is none. */
  function NulIndex(s: Bytes): (n: nat)
    ensures n <= |s| && NUL !in s[..n] && (n < |s| ==> s[n] == NUL)
  {
    if s == [] || s[0] == NUL then 0
    else
      var n := NulIndex(s[1..]);
      assert s[..n + 1] == [s[0]] + s[1..][..n];
      n + 1
  }

  function Padded(size: nat): nat { (size + 7) / 8 * 8 }

  // ---------- Entries ----------

  type Named = Result<(Bytes, nat), IndexError>

  /** A version 4 name at `at`, and where the entry ends: some of the previous path, and then the bytes up to a NUL. */
  function PackedName(s: Bytes, at: nat, previous: Bytes): (r: Named)
    requires at <= |s|
    ensures r.Ok? ==> r.value.1 <= |s|
  {
    var count := StripCount(s[at..], 0);
    if count.Err? then Err(Invalid)
    else
      var text := s[at + count.value.1..];
      var n := NulIndex(text);
      if n == |text| || count.value.0 > |previous| then Err(Invalid)
      else Ok((previous[..|previous| - count.value.0] + text[..n], at + count.value.1 + n + 1))
  }

  /** A name of version 2 or 3 and where the padded entry ends. */
  function PlainName(s: Bytes, at: nat, flags: nat): (r: Named)
    requires at <= |s|
    ensures r.Ok? ==> r.value.1 <= |s|
  {
    var text := s[at..];
    var n := NulIndex(text);
    if n == |text| then Err(Invalid)
    else if DeclaredLength(flags) != 4095 && DeclaredLength(flags) != n then Err(Invalid)
    else if Padded(at + n + 1) > |s| then Err(Invalid)
    else Ok((text[..n], Padded(at + n + 1)))
  }

  function HeaderSize(digestSize: nat, flags: nat): nat { 42 + digestSize + (if Extended(flags) then 2 else 0) }

  function FlagsAt(s: Bytes, digestSize: nat): nat
    requires 42 + digestSize <= |s|
  {
    U16(s[40 + digestSize..42 + digestSize])
  }

  datatype Format = Format(version: nat, digestSize: nat, canonical: Bytes -> bool)

  function NameOf(s: Bytes, f: Format, previous: Bytes, flags: nat): (r: Named)
    ensures r.Ok? ==> r.value.1 <= |s|
  {
    if Extended(flags) && f.version < 3 then Err(Invalid)
    else if HeaderSize(f.digestSize, flags) > |s| then Err(Invalid)
    else if f.version == 4 then PackedName(s, HeaderSize(f.digestSize, flags), previous)
    else PlainName(s, HeaderSize(f.digestSize, flags), flags)
  }

  /** The path of the entry at the start of some bytes, and its size. */
  function Entry(s: Bytes, f: Format, previous: Bytes): (r: Named)
    ensures r.Ok? ==> r.value.1 <= |s|
  {
    if 42 + f.digestSize > |s| then Err(Invalid)
    else
      var name := NameOf(s, f, previous, FlagsAt(s, f.digestSize));
      if name.Err? then name
      else if !f.canonical(name.value.0) then Err(PathInvalid)
      else if IsDirectory(U32(s[24..28])) then Err(SparseDenied)
      else name
  }

  /** A way to read one entry, given the previous path. */
  ghost predicate Bounded(p: (Bytes, Bytes) -> Named) {
    forall s, previous :: p(s, previous).Ok? ==> p(s, previous).value.1 <= |s|
  }

  type Parser = p: (Bytes, Bytes) -> Named | Bounded(p) witness (s, previous) => Err(Invalid)

  ghost predicate Parses(p: Parser, f: Format) {
    forall s, previous {:trigger Entry(s, f, previous)} :: p(s, previous) == Entry(s, f, previous)
  }

  function EntryParser(f: Format): (p: Parser)
    ensures Parses(p, f)
  {
    (s: Bytes, previous: Bytes) => Entry(s, f, previous)
  }

  /** The paths of `count` entries and the bytes after them. */
  function Entries(s: Bytes, p: Parser, previous: Bytes, count: nat): Result<(seq<Bytes>, Bytes), IndexError>
    decreases count
  {
    if count == 0 then Ok(([], s))
    else
      var entry := p(s, previous);
      if entry.Err? then Err(entry.error)
      else Following(entry.value.0, Entries(s[entry.value.1..], p, entry.value.0, count - 1))
  }

  function Following(path: Bytes, later: Result<(seq<Bytes>, Bytes), IndexError>)
    : Result<(seq<Bytes>, Bytes), IndexError>
  {
    if later.Err? then later else Ok(([path] + later.value.0, later.value.1))
  }

  // ---------- Extensions ----------

  function SignatureFault(signature: Bytes): Option<IndexError>
    requires |signature| == 4
  {
    if signature == [108, 105, 110, 107] then Some(SplitDenied)
    else if signature == [115, 100, 105, 114] then Some(SparseDenied)
    else if 97 <= signature[0] <= 122 then Some(RequiredExtensionUnsupported)
    else None
  }

  /** The fault of the extensions, if any: bytes that do not add up, or an extension that a reader must understand. */
  function ExtensionsFault(s: Bytes): Option<IndexError>
    decreases |s|
  {
    if s == [] then None
    else if |s| < 8 then Some(Invalid)
    else
      var size := U32(s[4..8]);
      if 8 + size > |s| then Some(Invalid)
      else if SignatureFault(s[..4]).Some? then SignatureFault(s[..4])
      else ExtensionsFault(s[8 + size..])
  }

  // ---------- The whole index ----------

  const MAGIC: Bytes := [68, 73, 82, 67]

  function PayloadPaths(payload: Bytes, digestSize: nat, canonical: Bytes -> bool): Result<seq<Bytes>, IndexError>
    requires |payload| >= 12
  {
    var version, count := U32(payload[4..8]), U32(payload[8..12]);
    if payload[..4] != MAGIC then Err(Invalid)
    else if !(2 <= version <= 4) || count > MAX_ENTRIES then Err(Invalid)
    else
      var entries := Entries(payload[12..], EntryParser(Format(version, digestSize, canonical)), [], count);
      if entries.Err? then Err(entries.error)
      else if ExtensionsFault(entries.value.1).Some? then Err(ExtensionsFault(entries.value.1).value)
      else Ok(entries.value.0)
  }

  /** The paths that the walk visits, or why the index is refused. */
  function IndexPaths(raw: Bytes, digestSize: nat, digest: Bytes -> Bytes, canonical: Bytes -> bool)
    : Result<seq<Bytes>, IndexError>
  {
    if |raw| > MAX_INDEX_BYTES then Err(LimitExceeded)
    else if |raw| < 12 + digestSize then Err(Invalid)
    else if digest(raw[..|raw| - digestSize]) != raw[|raw| - digestSize..] then Err(ChecksumInvalid)
    else PayloadPaths(raw[..|raw| - digestSize], digestSize, canonical)
  }

  // ---------- The loops ----------

  method FindNul(payload: Bytes, start: nat) returns (end: nat)
    requires start <= |payload|
    ensures end == start + NulIndex(payload[start..])
  {
    end := start;
    while end < |payload| && payload[end] != NUL
      invariant start <= end <= |payload|
      invariant start + NulIndex(payload[start..]) == end + NulIndex(payload[end..])
    {
      assert payload[end..][1..] == payload[end + 1..];
      end := end + 1;
    }
  }

  lemma {:induction false} DropSlice(s: Bytes, start: nat, a: nat, b: nat)
    requires a <= b && start + b <= |s|
    ensures s[start..][a..b] == s[start + a..start + b]
  {}

  method ReadPackedName(payload: Bytes, entryStart: nat, start: nat, previous: Bytes) returns (r: Named)
    requires entryStart <= start <= |payload|
    ensures r == Shifted(entryStart, PackedName(payload[entryStart..], start - entryStart, previous))
  {
    DropDrop(payload, entryStart, start);
    var count := ReadStripCount(payload, start);
    if count.Err? { return Err(Invalid); }
    var stripCount, cursor := count.value.0, count.value.1;
    DropDrop(payload, entryStart, cursor);
    var end := FindNul(payload, cursor);
    if end == |payload| || stripCount > |previous| { return Err(Invalid); }
    assert payload[cursor..][..end - cursor] == payload[cursor..end];
    return Ok((previous[..|previous| - stripCount] + payload[cursor..end], end + 1));
  }

  method ReadPlainName(payload: Bytes, entryStart: nat, start: nat, flags: nat) returns (r: Named)
    requires entryStart <= start <= |payload|
    ensures r == Shifted(entryStart, PlainName(payload[entryStart..], start - entryStart, flags))
  {
    DropDrop(payload, entryStart, start);
    var end := FindNul(payload, start);
    if end == |payload| { return Err(Invalid); }
    assert payload[start..][..end - start] == payload[start..end];
    var path := payload[start..end];
    var declaredLength := flags % 4096;
    if declaredLength != 4095 && declaredLength != |path| { return Err(Invalid); }
    var cursor := end + 1;
    var entrySize := cursor - entryStart;
    cursor := entryStart + (entrySize + 7) / 8 * 8;
    if cursor > |payload| { return Err(Invalid); }
    return Ok((path, cursor));
  }

  function Shifted(start: nat, r: Named): Named {
    if r.Err? then r else Ok((r.value.0, start + r.value.1))
  }

  /** The extended flags and the name of the entry that starts at `entryStart`. */
  method ReadName(payload: Bytes, entryStart: nat, f: Format, previous: Bytes, flags: nat) returns (r: Named)
    requires entryStart + 42 + f.digestSize <= |payload|
    ensures r == Shifted(entryStart, NameOf(payload[entryStart..], f, previous, flags))
  {
    var cursor := entryStart + 40 + f.digestSize + 2;
    if Extended(flags) {
      if f.version < 3 || cursor + 2 > |payload| { return Err(Invalid); }
      cursor := cursor + 2;
    }
    if f.version == 4 {
      r := ReadPackedName(payload, entryStart, cursor, previous);
    } else {
      r := ReadPlainName(payload, entryStart, cursor, flags);
    }
  }

  lemma {:induction false} EntryOfName(s: Bytes, f: Format, previous: Bytes, start: nat, name: Named)
    requires 42 + f.digestSize <= |s| && name == Shifted(start, NameOf(s, f, previous, FlagsAt(s, f.digestSize)))
    ensures Shifted(start, Entry(s, f, previous)) ==
      if name.Err? then name
      else if !f.canonical(name.value.0) then Err(PathInvalid)
      else if IsDirectory(U32(s[24..28])) then Err(SparseDenied)
      else name
  {}

  lemma {:induction false} FieldsOfEntry(payload: Bytes, start: nat, f: Format)
    requires start + 42 + f.digestSize <= |payload|
    ensures payload[start + 24..start + 28] == payload[start..][24..28]
    ensures U16(payload[start + (40 + f.digestSize)..start + (42 + f.digestSize)]) ==
      FlagsAt(payload[start..], f.digestSize)
  {
    DropSlice(payload, start, 24, 28);
    DropSlice(payload, start, 40 + f.digestSize, 42 + f.digestSize);
  }

  method ReadEntry(payload: Bytes, entryStart: nat, f: Format, previous: Bytes) returns (r: Named)
    requires entryStart <= |payload|
    ensures r == Shifted(entryStart, Entry(payload[entryStart..], f, previous))
  {
    var fixedSize := 40 + f.digestSize + 2;
    if entryStart + fixedSize > |payload| { return Err(Invalid); }
    FieldsOfEntry(payload, entryStart, f);
    var mode := U32(payload[entryStart + 24..entryStart + 28]);
    var flags := U16(payload[entryStart + (40 + f.digestSize)..entryStart + (42 + f.digestSize)]);
    r := ReadName(payload, entryStart, f, previous, flags);
    EntryOfName(payload[entryStart..], f, previous, entryStart, r);
    if r.Err? { return; }
    if !f.canonical(r.value.0) { return Err(PathInvalid); }
    if IsDirectory(mode) { return Err(SparseDenied); }
  }

  lemma {:induction false} FirstEntry(s: Bytes, p: Parser, previous: Bytes, count: nat)
    requires count > 0
    ensures var entry := p(s, previous);
      Entries(s, p, previous, count) ==
        if entry.Err? then Err(entry.error)
        else Following(entry.value.0, Entries(s[entry.value.1..], p, entry.value.0, count - 1))
  {}

  /** One turn of the loop over the entries. */
  lemma {:induction false} EntryStep(payload: Bytes, cursor: nat, p: Parser, previous: Bytes, count: nat,
      paths: seq<Bytes>,
      entry: Named)
    requires cursor <= |payload| && count > 0 && entry == Shifted(cursor, p(payload[cursor..], previous))
    ensures entry.Err? ==> Continued(paths, Entries(payload[cursor..], p, previous, count)) == Err(entry.error)
    ensures entry.Ok? ==> cursor <= entry.value.1 <= |payload|
    ensures entry.Ok? ==>
      Continued(paths, Entries(payload[cursor..], p, previous, count))
      == Continued(paths + [entry.value.0], Entries(payload[entry.value.1..], p, entry.value.0, count - 1))
  {
    FirstEntry(payload[cursor..], p, previous, count);
    if entry.Ok? {
      DropDrop(payload, cursor, entry.value.1);
      ContinuedStep(paths, entry.value.0, Entries(payload[entry.value.1..], p, entry.value.0, count - 1));
    }
  }

  /** Where `count` entries from the twelfth byte on end. */
  method ReadEntries(payload: Bytes, f: Format, count: nat, ghost p: Parser) returns (r: Result<nat, IndexError>)
    requires |payload| >= 12 && Parses(p, f)
    ensures var entries := Entries(payload[12..], p, [], count);
      match r
      case Err(e) => entries == Err(e)
      case Ok(end) => end <= |payload| && EntriesEndAt(entries, payload[end..])
  {
    var cursor, previous := 12, [];
    ghost var paths: seq<Bytes> := [];
    ghost var all := Entries(payload[12..], p, [], count);
    StartOfPaths(all);
    for i := 0 to count
      invariant 12 <= cursor <= |payload|
      invariant all == Continued(paths, Entries(payload[cursor..], p, previous, count - i))
    {
      var entry := ReadEntry(payload, cursor, f, previous);
      assert p(payload[cursor..], previous) == Entry(payload[cursor..], f, previous);
      EntryStep(payload, cursor, p, previous, count - i, paths, entry);
      if entry.Err? { return Err(entry.error); }
      paths := paths + [entry.value.0];
      previous := entry.value.0;
      cursor := entry.value.1;
    }
    return Ok(cursor);
  }

  ghost predicate EntriesEndAt(entries: Result<(seq<Bytes>, Bytes), IndexError>, tail: Bytes) {
    entries.Ok? && entries.value.1 == tail
  }

  lemma {:induction false} StartOfPaths(entries: Result<(seq<Bytes>, Bytes), IndexError>)
    ensures entries == Continued([], entries)
  {
    if entries.Ok? { assert [] + entries.value.0 == entries.value.0; }
  }

  ghost function Continued(paths: seq<Bytes>, later: Result<(seq<Bytes>, Bytes), IndexError>)
    : Result<(seq<Bytes>, Bytes), IndexError>
  {
    if later.Err? then later else Ok((paths + later.value.0, later.value.1))
  }

  lemma {:induction false} ContinuedStep(paths: seq<Bytes>, path: Bytes, later: Result<(seq<Bytes>, Bytes), IndexError>)
    ensures Continued(paths, Following(path, later)) == Continued(paths + [path], later)
  {
    if later.Ok? { assert paths + ([path] + later.value.0) == paths + [path] + later.value.0; }
  }

  lemma {:induction false} ExtensionStep(payload: Bytes, cursor: nat)
    requires cursor + 8 <= |payload|
    ensures var rest, signature := payload[cursor..], payload[cursor..cursor + 4];
      var end := cursor + 8 + U32(payload[cursor + 4..cursor + 8]);
      ExtensionsFault(rest) ==
        if end > |payload| then Some(Invalid)
        else if SignatureFault(signature).Some? then SignatureFault(signature)
        else ExtensionsFault(payload[end..])
  {
    var rest := payload[cursor..];
    assert rest[..4] == payload[cursor..cursor + 4] && rest[4..8] == payload[cursor + 4..cursor + 8];
    var end := cursor + 8 + U32(payload[cursor + 4..cursor + 8]);
    if end <= |payload| { DropDrop(payload, cursor, end); }
  }

  method ReadExtensions(payload: Bytes, start: nat) returns (fault: Option<IndexError>)
    requires start <= |payload|
    ensures fault == ExtensionsFault(payload[start..])
  {
    var cursor := start;
    while cursor < |payload|
      invariant start <= cursor <= |payload|
      invariant ExtensionsFault(payload[start..]) == ExtensionsFault(payload[cursor..])
    {
      if cursor + 8 > |payload| { return Some(Invalid); }
      ExtensionStep(payload, cursor);
      var signature := payload[cursor..cursor + 4];
      var extensionSize := U32(payload[cursor + 4..cursor + 8]);
      cursor := cursor + 8;
      if cursor + extensionSize > |payload| { return Some(Invalid); }
      var fault := SignatureFault(signature);
      if fault.Some? { return fault; }
      cursor := cursor + extensionSize;
    }
    return None;
  }

  method ValidateGitIndex(raw: Bytes, digestSize: nat, digest: Bytes -> Bytes, canonical: Bytes -> bool)
    returns (fault: Option<IndexError>)
    ensures fault ==
      (match IndexPaths(raw, digestSize, digest, canonical) case Ok(_) => None case Err(e) => Some(e))
  {
    if |raw| > MAX_INDEX_BYTES { return Some(LimitExceeded); }
    if |raw| < 12 + digestSize { return Some(Invalid); }
    var payload, checksum := raw[..|raw| - digestSize], raw[|raw| - digestSize..];
    if digest(payload) != checksum { return Some(ChecksumInvalid); }
    if payload[..4] != MAGIC { return Some(Invalid); }
    var version, count := U32(payload[4..8]), U32(payload[8..12]);
    if !(version == 2 || version == 3 || version == 4) || count > MAX_ENTRIES { return Some(Invalid); }
    var f := Format(version, digestSize, canonical);
    var end := ReadEntries(payload, f, count, EntryParser(f));
    if end.Err? { return Some(end.error); }
    fault := ReadExtensions(payload, end.value);
  }
}
