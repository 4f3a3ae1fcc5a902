/**
  The NUL-separated worktree list of git-worktree(1), section "Porcelain Format"
  (src/apexcrew/adapters/repository/git.py, lines 310-367): the loops, and the theorem that they accept exactly what
  a writer of such records can produce.
*/
module WorktreePorcelain {
  import opened Wrappers
  import opened ByteStrings

  const SPACE: byte := 32
  const MAX_PORCELAIN_BYTES := 1_048_576
  const MAX_VALUE_BYTES := 32_768

  const WORKTREE: Bytes := [119, 111, 114, 107, 116, 114, 101, 101]
  const HEAD: Bytes := [72, 69, 65, 68]
  const BRANCH: Bytes := [98, 114, 97, 110, 99, 104]
  const LOCKED: Bytes := [108, 111, 99, 107, 101, 100]
  const DETACHED: Bytes := [100, 101, 116, 97, 99, 104, 101, 100]

  datatype PorcelainError = Unterminated | Invalid | NonUtf8

  datatype WorktreeRecord = WorktreeRecord(path: Bytes, headOid: Bytes, branch: Option<Bytes>, locked: bool,
      detached: bool)

  // ---------- Splitting ----------

  /** Put a byte before the first part. */
  function OntoFirst(b: byte, parts: seq<Bytes>): seq<Bytes>
    requires parts != []
  {
    [[b] + parts[0]] + parts[1..]
  }

  /** The parts between single NULs. */
  function Fields(s: Bytes): (parts: seq<Bytes>)
    ensures parts != []
  {
    if s == [] then [[]]
    else if s[0] == NUL then [[]] + Fields(s[1..])
    else OntoFirst(s[0], Fields(s[1..]))
  }

  /** The parts between pairs of NULs, from the left. */
  function Records(s: Bytes): (parts: seq<Bytes>)
    ensures parts != []
  {
    if s == [] then [[]]
    else if |s| >= 2 && s[0] == NUL && s[1] == NUL then [[]] + Records(s[2..])
    else OntoFirst(s[0], Records(s[1..]))
  }

  function Join(parts: seq<Bytes>, separator: Bytes): Bytes
    requires parts != []
  {
    if |parts| == 1 then parts[0] else parts[0] + separator + Join(parts[1..], separator)
  }

  lemma {:induction false} JoinOntoFirst(b: byte, parts: seq<Bytes>, separator: Bytes)
    requires parts != []
    ensures Join(OntoFirst(b, parts), separator) == [b] + Join(parts, separator)
  {
    var longer := OntoFirst(b, parts);
    assert longer[1..] == parts[1..];
    if |parts| > 1 {
      assert [b] + parts[0] + separator + Join(parts[1..], separator) == [b]
        + (parts[0] + separator + Join(parts[1..], separator));
    }
  }

  lemma {:induction false} JoinEmptyFirst(parts: seq<Bytes>, separator: Bytes)
    requires parts != []
    ensures Join([[]] + parts, separator) == separator + Join(parts, separator)
  {
    var longer: seq<Bytes> := [[]] + parts;
    assert longer[1..] == parts;
    assert [] + separator == separator;
  }

  lemma {:induction false} FieldsJoined(s: Bytes)
    ensures Join(Fields(s), [NUL]) == s
  {
    if s != [] {
      FieldsJoined(s[1..]);
      if s[0] == NUL { JoinEmptyFirst(Fields(s[1..]), [NUL]); } else { JoinOntoFirst(s[0], Fields(s[1..]), [NUL]); }
      assert [s[0]] + s[1..] == s;
    }
  }

  lemma {:induction false} RecordsJoined(s: Bytes)
    ensures Join(Records(s), [NUL, NUL]) == s
  {
    if s == [] {
    } else if |s| >= 2 && s[0] == NUL && s[1] == NUL {
      RecordsJoined(s[2..]);
      JoinEmptyFirst(Records(s[2..]), [NUL, NUL]);
      assert [NUL, NUL] + s[2..] == s;
    } else {
      RecordsJoined(s[1..]);
      JoinOntoFirst(s[0], Records(s[1..]), [NUL, NUL]);
      assert [s[0]] + s[1..] == s;
    }
  }

  predicate NoNul(s: Bytes) { forall b | b in s :: b != NUL }

  predicate AllNoNul(parts: seq<Bytes>) { forall p | p in parts :: NoNul(p) }

  lemma {:induction false} FieldsHaveNoNul(s: Bytes)
    ensures AllNoNul(Fields(s))
  {
    if s != [] {
      FieldsHaveNoNul(s[1..]);
      var later := Fields(s[1..]);
      if s[0] != NUL {
        assert later[0] in later && forall p | p in later[1..] :: p in later;
        forall p | p in OntoFirst(s[0], later) ensures NoNul(p) {
          if p != [s[0]] + later[0] { assert p in later[1..]; }
        }
      }
    }
  }

  lemma {:induction false} FieldsPrefix(part: Bytes, rest: Bytes)
    requires NoNul(part)
    ensures Fields(part + [NUL] + rest) == [part] + Fields(rest)
    ensures Fields(part) == [part]
  {
    if part == [] {
      assert part + [NUL] + rest == [NUL] + rest;
    } else {
      assert part[0] in part && forall b | b in part[1..] :: b in part;
      FieldsPrefix(part[1..], rest);
      assert (part + [NUL] + rest)[1..] == part[1..] + [NUL] + rest;
      assert [part[0]] + part[1..] == part;
      assert ([part[1..]] + Fields(rest))[1..] == Fields(rest);
    }
  }

  lemma {:induction false} JoinedFields(parts: seq<Bytes>)
    requires parts != [] && AllNoNul(parts)
    ensures Fields(Join(parts, [NUL])) == parts
  {
    assert parts[0] in parts;
    if |parts| == 1 {
      FieldsPrefix(parts[0], []);
    } else {
      assert forall p | p in parts[1..] :: p in parts;
      JoinedFields(parts[1..]);
      FieldsPrefix(parts[0], Join(parts[1..], [NUL]));
    }
  }

  /** No two NULs in a row. */
  predicate NoPair(s: Bytes) {
    |s| < 2 || (!(s[0] == NUL && s[1] == NUL) && NoPair(s[1..]))
  }

  /** A record's text also neither starts nor ends with a NUL. */
  predicate Tight(s: Bytes) {
    s != [] && s[0] != NUL && s[|s| - 1] != NUL && NoPair(s)
  }

  lemma {:induction false} RecordsPrefix(s: Bytes, rest: Bytes)
    requires s != [] && s[|s| - 1] != NUL && NoPair(s)
    ensures Records(s + [NUL, NUL] + rest) == [s] + Records(rest)
    ensures Records(s) == [s]
  {
    var all, tail := s + [NUL, NUL] + rest, s[1..];
    assert [s[0]] + tail == s && all[1..] == tail + [NUL, NUL] + rest;
    if tail == [] {
      assert all[1..] == [NUL, NUL] + rest && all[1..][2..] == rest;
      assert ([[]] + Records(rest))[1..] == Records(rest);
      assert Records(all[1..]) == [[]] + Records(rest);
    } else {
      RecordsPrefix(tail, rest);
      assert all[1] == s[1];
      assert ([tail] + Records(rest))[1..] == Records(rest);
    }
  }

  predicate AllTight(parts: seq<Bytes>) { forall p | p in parts :: Tight(p) }

  lemma {:induction false} JoinedRecords(parts: seq<Bytes>)
    requires parts != [] && AllTight(parts)
    ensures Records(Join(parts, [NUL, NUL])) == parts
  {
    assert Tight(parts[0]);
    if |parts| == 1 {
      RecordsPrefix(parts[0], []);
    } else {
      var later := parts[1..];
      assert forall p | p in later :: p in parts;
      JoinedRecords(later);
      RecordsPrefix(parts[0], Join(later, [NUL, NUL]));
      assert [parts[0]] + later == parts;
    }
  }

  // ---------- Fields ----------

  /** A field: a key, and what follows the first space if there is one. */
  datatype Field = Field(key: Bytes, value: Option<Bytes>)

  function SpaceIndex(s: Bytes): (n: nat)
    ensures n <= |s| && (n < |s| ==> s[n] == SPACE) && SPACE !in s[..n]
  {
    if s == [] || s[0] == SPACE then 0
    else
      var n := SpaceIndex(s[1..]);
      assert s[..n + 1] == [s[0]] + s[1..][..n];
      n + 1
  }

  function Partition(raw: Bytes): Field {
    var n := SpaceIndex(raw);
    Field(raw[..n], if n == |raw| then None else Some(raw[n + 1..]))
  }

  function FieldText(f: Field): Bytes {
    f.key + if f.value.Some? then [SPACE] + f.value.value else []
  }

  lemma {:induction false} TextOfPartition(raw: Bytes)
    ensures FieldText(Partition(raw)) == raw
  {}

  lemma {:induction false} SpaceIndexOf(key: Bytes, rest: Bytes)
    requires SPACE !in key && (rest == [] || rest[0] == SPACE)
    ensures SpaceIndex(key + rest) == |key|
  {
    if key == [] {
      assert key + rest == rest;
    } else {
      assert (key + rest)[1..] == key[1..] + rest;
      assert forall b | b in key[1..] :: b in key;
      SpaceIndexOf(key[1..], rest);
    }
  }

  lemma {:induction false} PartitionOfText(f: Field)
    requires SPACE !in f.key
    ensures Partition(FieldText(f)) == f
  {
    var rest := if f.value.Some? then [SPACE] + f.value.value else [];
    SpaceIndexOf(f.key, rest);
    assert (f.key + rest)[..|f.key|] == f.key;
    if f.value.Some? { assert (f.key + rest)[|f.key| + 1..] == f.value.value; }
  }

  predicate ValueOptional(key: Bytes) { key == LOCKED || key == DETACHED }

  predicate ValueAllowed(key: Bytes) { key == WORKTREE || key == HEAD || key == BRANCH || key == LOCKED }

  predicate FieldAllowed(f: Field) {
    (f.value == None && ValueOptional(f.key)) || (f.value.Some? && ValueAllowed(f.key)
      && |f.value.value| <= MAX_VALUE_BYTES)
  }

  function ValueOf(f: Field): Bytes { if f.value.Some? then f.value.value else [] }

  type FieldMap = map<Bytes, Bytes>

  /** The fields of one record, each key once. */
  function AddFields(raws: seq<Bytes>, fields: FieldMap): Result<FieldMap, PorcelainError> {
    if raws == [] then Ok(fields)
    else
      var f := Partition(raws[0]);
      if !FieldAllowed(f) || f.key in fields then Err(Invalid)
      else AddFields(raws[1..], fields[f.key := ValueOf(f)])
  }

  // ---------- Records ----------

  predicate IsHex(b: byte) { 48 <= b <= 57 || 97 <= b <= 102 }

  predicate BranchName(b: Bytes) {
    var heads: Bytes := [114, 101, 102, 115, 47, 104, 101, 97, 100, 115, 47];
    var runs: Bytes := [114, 101, 102, 115, 47, 97, 112, 101, 120, 99, 114, 101, 119, 47, 114, 117, 110, 115, 47];
    heads < b || runs < b
  }

  predicate Decodes(fields: FieldMap, utf8: Bytes -> bool)
    requires WORKTREE in fields && HEAD in fields
  {
    && utf8(fields[WORKTREE]) && (forall b | b in fields[HEAD] :: b < 128)
    && (BRANCH in fields ==> utf8(fields[BRANCH])) && (LOCKED in fields ==> utf8(fields[LOCKED]))
  }

  function RecordOf(fields: FieldMap, utf8: Bytes -> bool): Result<WorktreeRecord, PorcelainError> {
    if WORKTREE !in fields || HEAD !in fields || (BRANCH in fields) == (DETACHED in fields) then Err(Invalid)
    else if !Decodes(fields, utf8) then Err(NonUtf8)
    else
      var path, head := fields[WORKTREE], fields[HEAD];
      if path == [] || 13 in path || 10 in path || NUL in path || |head| != 40 || (exists b | b in head :: !IsHex(b))
         || (BRANCH in fields && !BranchName(fields[BRANCH]))
      then Err(Invalid)
      else Ok(WorktreeRecord(path, head, if BRANCH in fields then Some(fields[BRANCH])
        else None, LOCKED in fields, DETACHED in fields))
  }

  function ParseRecord(raw: Bytes, utf8: Bytes -> bool): Result<WorktreeRecord, PorcelainError> {
    if raw == [] then Err(Invalid)
    else
      var fields := AddFields(Fields(raw), map[]);
      if fields.Err? then Err(fields.error) else RecordOf(fields.value, utf8)
  }

  function ParseRecords(raws: seq<Bytes>, utf8: Bytes -> bool): Result<seq<WorktreeRecord>, PorcelainError> {
    if raws == [] then Ok([])
    else
      var first := ParseRecord(raws[0], utf8);
      if first.Err? then Err(first.error)
      else
        var later := ParseRecords(raws[1..], utf8);
        if later.Err? then later else Ok([first.value] + later.value)
  }

  predicate Terminated(output: Bytes) {
    0 < |output| <= MAX_PORCELAIN_BYTES && |output| >= 2 && output[|output| - 2..] == [NUL, NUL]
  }

  function Parse(output: Bytes, utf8: Bytes -> bool): Result<seq<WorktreeRecord>, PorcelainError> {
    if !Terminated(output) then Err(Unterminated) else ParseRecords(Records(output[..|output| - 2]), utf8)
  }

  // ---------- The loops ----------

  method CollectFields(raws: seq<Bytes>) returns (r: Result<FieldMap, PorcelainError>)
    ensures r == AddFields(raws, map[])
  {
    var fields: FieldMap := map[];
    assert raws[0..] == raws;
    for i := 0 to |raws|
      invariant AddFields(raws, map[]) == AddFields(raws[i..], fields)
    {
      assert raws[i..][1..] == raws[i + 1..];
      var f := Partition(raws[i]);
      if !FieldAllowed(f) || f.key in fields { return Err(Invalid); }
      fields := fields[f.key := ValueOf(f)];
    }
    return Ok(fields);
  }

  function Onto(records: seq<WorktreeRecord>, later: Result<seq<WorktreeRecord>, PorcelainError>)
    : Result<seq<WorktreeRecord>, PorcelainError>
  {
    if later.Err? then later else Ok(records + later.value)
  }

  method ReadRecord(raw: Bytes, utf8: Bytes -> bool) returns (r: Result<WorktreeRecord, PorcelainError>)
    ensures r == ParseRecord(raw, utf8)
  {
    if raw == [] { return Err(Invalid); }
    var fields := CollectFields(Fields(raw));
    if fields.Err? { return Err(fields.error); }
    return RecordOf(fields.value, utf8);
  }

  /** One turn of the loop over the records. */
  lemma {:induction false} RecordStep(raws: seq<Bytes>, i: nat, records: seq<WorktreeRecord>, utf8: Bytes -> bool)
    requires i < |raws|
    ensures var r := ParseRecord(raws[i], utf8);
      Onto(records, ParseRecords(raws[i..], utf8)) ==
        if r.Err? then Err(r.error) else Onto(records + [r.value], ParseRecords(raws[i + 1..], utf8))
  {
    assert raws[i..][0] == raws[i] && raws[i..][1..] == raws[i + 1..];
    var r := ParseRecord(raws[i], utf8);
    if r.Ok? { OntoAssociates(records, r.value, ParseRecords(raws[i + 1..], utf8)); }
  }

  method ParseWorktreePorcelain(output: Bytes, utf8: Bytes -> bool)
      returns (r: Result<seq<WorktreeRecord>, PorcelainError>)
    ensures r == Parse(output, utf8)
  {
    if |output| < 2 || |output| > MAX_PORCELAIN_BYTES || output[|output| - 2..] != [NUL, NUL] {
      return Err(Unterminated);
    }
    var raws := Records(output[..|output| - 2]);
    var records: seq<WorktreeRecord> := [];
    ghost var all := ParseRecords(raws, utf8);
    assert raws[0..] == raws && (all.Ok? ==> [] + all.value == all.value);
    for i := 0 to |raws|
      invariant all == Onto(records, ParseRecords(raws[i..], utf8))
    {
      RecordStep(raws, i, records, utf8);
      var record := ReadRecord(raws[i], utf8);
      if record.Err? { return Err(record.error); }
      records := records + [record.value];
    }
    assert records + [] == records;
    return Ok(records);
  }

  lemma {:induction false} OntoAssociates(records: seq<WorktreeRecord>, r: WorktreeRecord,
      later: Result<seq<WorktreeRecord>, PorcelainError>)
    ensures Onto(records, Onto([r], later)) == Onto(records + [r], later)
  {
    if later.Ok? { assert records + ([r] + later.value) == records + [r] + later.value; }
  }

  // ---------- Writing ----------

  function Texts(fields: seq<Field>): (texts: seq<Bytes>)
    ensures |texts| == |fields|
  {
    if fields == [] then [] else [FieldText(fields[0])] + Texts(fields[1..])
  }

  function RecordText(fields: seq<Field>): Bytes
    requires fields != []
  {
    Join(Texts(fields), [NUL])
  }

  /** The fields of a record in any order: allowed, each key once, and without NULs. */
  predicate Writable(fields: seq<Field>, before: FieldMap) {
    fields == [] ||
    (FieldAllowed(fields[0]) && fields[0].key !in before && NoNul(FieldText(fields[0])) &&
     Writable(fields[1..], before[fields[0].key := ValueOf(fields[0])]))
  }

  function MapOf(fields: seq<Field>, before: FieldMap): FieldMap {
    if fields == [] then before else MapOf(fields[1..], before[fields[0].key := ValueOf(fields[0])])
  }

  lemma {:induction false} AllowedText(f: Field)
    requires FieldAllowed(f)
    ensures SPACE !in f.key && FieldText(f) != []
  {}

  lemma {:induction false} WrittenFieldsAreRead(fields: seq<Field>, before: FieldMap)
    requires Writable(fields, before)
    ensures AddFields(Texts(fields), before) == Ok(MapOf(fields, before))
    ensures forall t | t in Texts(fields) :: NoNul(t) && t != []
  {
    if fields != [] {
      AllowedText(fields[0]);
      PartitionOfText(fields[0]);
      WrittenFieldsAreRead(fields[1..], before[fields[0].key := ValueOf(fields[0])]);
    }
  }

  lemma {:induction false} ReadFieldsAreWritten(raws: seq<Bytes>, before: FieldMap) returns (fields: seq<Field>)
    requires AddFields(raws, before).Ok? && AllNoNul(raws)
    ensures Writable(fields, before) && Texts(fields) == raws && AddFields(raws, before) == Ok(MapOf(fields, before))
  {
    if raws == [] {
      fields := [];
    } else {
      var f := Partition(raws[0]);
      TextOfPartition(raws[0]);
      assert raws[0] in raws;
      assert forall p | p in raws[1..] :: p in raws;
      var later := ReadFieldsAreWritten(raws[1..], before[f.key := ValueOf(f)]);
      fields := [f] + later;
      assert fields[1..] == later;
    }
  }

  lemma {:induction false} NoNulHasNoPair(s: Bytes)
    requires NoNul(s)
    ensures NoPair(s)
  {
    if |s| >= 2 {
      assert s[0] in s && forall b | b in s[1..] :: b in s;
      NoNulHasNoPair(s[1..]);
    }
  }

  /** A text without NULs, then one NUL, then a tight text. */
  lemma {:induction false} TightAfterNul(s: Bytes, rest: Bytes)
    requires NoNul(s) && Tight(rest)
    ensures NoPair(s + [NUL] + rest)
  {
    var all := s + [NUL] + rest;
    if s == [] {
      assert all == [NUL] + rest && all[1..] == rest;
    } else {
      assert all[1..] == s[1..] + [NUL] + rest && all[0] == s[0] && s[0] in s && forall b | b in s[1..] :: b in s;
      TightAfterNul(s[1..], rest);
    }
  }

  lemma {:induction false} JoinedTextsAreTight(texts: seq<Bytes>)
    requires texts != [] && forall t | t in texts :: NoNul(t) && t != []
    ensures Tight(Join(texts, [NUL]))
  {
    var first := texts[0];
    assert first in texts && first[0] in first && first[|first| - 1] in first;
    if |texts| == 1 {
      NoNulHasNoPair(first);
    } else {
      assert forall t | t in texts[1..] :: t in texts;
      JoinedTextsAreTight(texts[1..]);
      TightAfterNul(first, Join(texts[1..], [NUL]));
    }
  }

  /** A record as it is written, and what it must read as. */
  predicate RecordWritable(fields: seq<Field>, utf8: Bytes -> bool) {
    fields != [] && Writable(fields, map[]) && RecordOf(MapOf(fields, map[]), utf8).Ok?
  }

  predicate AllWritable(records: seq<seq<Field>>, utf8: Bytes -> bool) {
    records == [] || (RecordWritable(records[0], utf8) && AllWritable(records[1..], utf8))
  }

  function Meaning(records: seq<seq<Field>>, utf8: Bytes -> bool): (ws: seq<WorktreeRecord>)
    requires AllWritable(records, utf8)
    ensures |ws| == |records|
  {
    if records == [] then [] else [RecordOf(MapOf(records[0], map[]), utf8).value] + Meaning(records[1..], utf8)
  }

  function RecordTexts(records: seq<seq<Field>>, utf8: Bytes -> bool): (texts: seq<Bytes>)
    requires AllWritable(records, utf8)
    ensures |texts| == |records|
  {
    if records == [] then [] else [RecordText(records[0])] + RecordTexts(records[1..], utf8)
  }

  function Print(records: seq<seq<Field>>, utf8: Bytes -> bool): Bytes
    requires records != [] && AllWritable(records, utf8)
  {
    Join(RecordTexts(records, utf8), [NUL, NUL]) + [NUL, NUL]
  }

  lemma {:induction false} WrittenRecordIsRead(fields: seq<Field>, utf8: Bytes -> bool)
    requires RecordWritable(fields, utf8)
    ensures Tight(RecordText(fields)) && ParseRecord(RecordText(fields), utf8) == RecordOf(MapOf(fields, map[]), utf8)
  {
    WrittenFieldsAreRead(fields, map[]);
    JoinedTextsAreTight(Texts(fields));
    JoinedFields(Texts(fields));
  }

  lemma {:induction false} WrittenRecordsAreRead(records: seq<seq<Field>>, utf8: Bytes -> bool)
    requires AllWritable(records, utf8)
    ensures AllTight(RecordTexts(records, utf8))
    ensures ParseRecords(RecordTexts(records, utf8), utf8) == Ok(Meaning(records, utf8))
  {
    if records != [] {
      WrittenRecordIsRead(records[0], utf8);
      WrittenRecordsAreRead(records[1..], utf8);
    }
  }

  /** Whatever a writer of records can produce, with the fields of each in any order, is read as those records. */
  lemma {:induction false} PrintedIsParsed(records: seq<seq<Field>>, utf8: Bytes -> bool)
    requires records != [] && AllWritable(records, utf8) && |Print(records, utf8)| <= MAX_PORCELAIN_BYTES
    ensures Parse(Print(records, utf8), utf8) == Ok(Meaning(records, utf8))
  {
    WrittenRecordsAreRead(records, utf8);
    JoinedRecords(RecordTexts(records, utf8));
    var body := Join(RecordTexts(records, utf8), [NUL, NUL]);
    var output := body + [NUL, NUL];
    assert output[|output| - 2..] == [NUL, NUL] && output[..|output| - 2] == body;
  }

  lemma {:induction false} ReadRecordIsWritten(raw: Bytes, utf8: Bytes -> bool) returns (fields: seq<Field>)
    requires ParseRecord(raw, utf8).Ok?
    ensures RecordWritable(fields, utf8) && RecordText(fields) == raw
      && ParseRecord(raw, utf8) == RecordOf(MapOf(fields, map[]), utf8)
  {
    FieldsHaveNoNul(raw);
    FieldsJoined(raw);
    fields := ReadFieldsAreWritten(Fields(raw), map[]);
  }

  lemma {:induction false} ReadRecordsAreWritten(raws: seq<Bytes>, utf8: Bytes -> bool)
      returns (records: seq<seq<Field>>)
    requires ParseRecords(raws, utf8).Ok?
    ensures AllWritable(records, utf8) && RecordTexts(records, utf8) == raws
      && ParseRecords(raws, utf8) == Ok(Meaning(records, utf8))
  {
    if raws == [] {
      records := [];
    } else {
      var fields := ReadRecordIsWritten(raws[0], utf8);
      var later := ReadRecordsAreWritten(raws[1..], utf8);
      records := [fields] + later;
      assert records[1..] == later;
    }
  }

  /** Whatever is accepted, such a writer can produce. */
  lemma {:induction false} ParsedIsPrinted(output: Bytes, utf8: Bytes -> bool) returns (records: seq<seq<Field>>)
    requires Parse(output, utf8).Ok?
    ensures records != [] && AllWritable(records, utf8) && Print(records, utf8) == output
    ensures Parse(output, utf8) == Ok(Meaning(records, utf8))
  {
    var body := output[..|output| - 2];
    RecordsJoined(body);
    records := ReadRecordsAreWritten(Records(body), utf8);
    assert output == body + [NUL, NUL];
  }
}
