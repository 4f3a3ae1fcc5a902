/**
  The Git index as a writer sees it (gitformat-index, sections "The Git index file" and "Index entry"), and
  the theorem that the walk accepts exactly what such a writer can produce and visits the paths it wrote.
*/
module GitIndexFormat {
  import opened Wrappers
  import opened ByteStrings
  import opened GitVarints
  import opened GitIndex

  // ---------- Writing ----------

  function Be16(n: nat): Bytes requires n < 65536 { [n / 256, n % 256] }

  function Be32(n: nat): Bytes requires n < 0x1_0000_0000 { Be16(n / 65536) + Be16(n % 65536) }

  /** An entry: the previous path loses its last `strip` bytes and gains `suffix`. */
  datatype Record = Record(
    stat: Bytes,
    oid: Bytes,
    flags: nat,
    extended: Bytes,
    strip: nat,
    suffix: Bytes,
    padding: Bytes)

  function PathOf(r: Record, previous: Bytes): Bytes
    requires r.strip <= |previous|
  {
    previous[..|previous| - r.strip] + r.suffix
  }

  function HeaderBytes(r: Record): Bytes
    requires r.flags < 65536
  {
    r.stat + r.oid + Be16(r.flags) + r.extended
  }

  function NameBytes(r: Record, version: nat): Bytes {
    if version == 4 then Encoded(r.strip) + (r.suffix + [NUL] + []) else r.suffix + [NUL] + r.padding
  }

  function RecordBytes(r: Record, version: nat): Bytes
    requires r.flags < 65536
  {
    HeaderBytes(r) + NameBytes(r, version)
  }

  predicate HeaderFits(r: Record, f: Format) {
    && |r.stat| == 40 && |r.oid| == f.digestSize && r.flags < 65536
    && |r.extended| == (if Extended(r.flags) then 2 else 0)
    && (Extended(r.flags) ==> f.version >= 3)
  }

  /** Only version 4 shares a prefix with the previous path; only the others pad, to the next multiple of eight. */
  predicate NameFits(r: Record, f: Format, previous: Bytes) {
    && NUL !in r.suffix && r.strip <= |previous|
    && (if f.version == 4 then r.padding == []
        else
          && r.strip == |previous|
          && (DeclaredLength(r.flags) == 4095 || DeclaredLength(r.flags) == |r.suffix|)
          && |r.padding| < 8 && (HeaderSize(f.digestSize, r.flags) + |r.suffix| + 1 + |r.padding|) % 8 == 0)
  }

  predicate Acceptable(r: Record, f: Format, previous: Bytes) {
    && HeaderFits(r, f) && NameFits(r, f, previous)
    && f.canonical(PathOf(r, previous)) && !IsDirectory(U32(r.stat[24..28]))
  }

  predicate AllAcceptable(rs: seq<Record>, f: Format, previous: Bytes) {
    rs == [] || (Acceptable(rs[0], f, previous) && AllAcceptable(rs[1..], f, PathOf(rs[0], previous)))
  }

  function PathsOf(rs: seq<Record>, f: Format, previous: Bytes): seq<Bytes>
    requires AllAcceptable(rs, f, previous)
  {
    if rs == [] then [] else [PathOf(rs[0], previous)] + PathsOf(rs[1..], f, PathOf(rs[0], previous))
  }

  function RecordsBytes(rs: seq<Record>, f: Format, previous: Bytes): Bytes
    requires AllAcceptable(rs, f, previous)
  {
    if rs == [] then [] else RecordBytes(rs[0], f.version) + RecordsBytes(rs[1..], f, PathOf(rs[0], previous))
  }

  // ---------- Names ----------

  lemma {:induction false} NulIndexOf(text: Bytes, rest: Bytes)
    requires NUL !in text
    ensures NulIndex(text + [NUL] + rest) == |text|
  {
    if text == [] {
      assert text + [NUL] + rest == [NUL] + rest;
    } else {
      assert text[0] in text && forall b | b in text[1..] :: b in text;
      assert (text + [NUL] + rest)[1..] == text[1..] + [NUL] + rest;
      NulIndexOf(text[1..], rest);
    }
  }

  lemma {:induction false} PackedNameIsRead(head: Bytes, strip: nat, suffix: Bytes, rest: Bytes, previous: Bytes)
    requires NUL !in suffix && strip <= |previous| <= MAX_INDEX_BYTES
    ensures PackedName(head + (Encoded(strip) + (suffix + [NUL] + rest)), |head|, previous)
      == Ok((previous[..|previous| - strip] + suffix, |head| + |Encoded(strip)| + |suffix| + 1))
  {
    var digits, name := Encoded(strip), suffix + [NUL] + rest;
    ThreeSlices(head, digits, name);
    StripCountInvertsEncoding(digits + name, strip, |digits|);
    PackedNameFrom(head + (digits + name), |head|, previous, strip, |digits|, suffix, rest);
  }

  lemma {:induction false} PackedNameFrom(s: Bytes, at: nat, previous: Bytes, strip: nat, digits: nat, suffix: Bytes,
      rest: Bytes)
    requires at + digits <= |s| && StripCount(s[at..], 0) == Ok((strip, digits))
    requires NUL !in suffix && strip <= |previous| && s[at + digits..] == suffix + [NUL] + rest
    ensures PackedName(s, at, previous) == Ok((previous[..|previous| - strip] + suffix, at + digits + |suffix| + 1))
  {
    NulIndexOf(suffix, rest);
    assert (suffix + [NUL] + rest)[..|suffix|] == suffix;
  }

  lemma {:induction false} ThreeSlices(a: Bytes, b: Bytes, c: Bytes)
    ensures (a + (b + c))[|a|..] == b + c && (b + c)[..|b|] == b && (a + (b + c))[|a| + |b|..] == c
  {}

  lemma {:induction false} PaddedIs(size: nat, padding: nat)
    requires padding < 8 && (size + padding) % 8 == 0
    ensures Padded(size) == size + padding
  {}

  lemma {:induction false} PlainNameIsRead(head: Bytes, flags: nat, suffix: Bytes, padding: Bytes, rest: Bytes)
    requires NUL !in suffix && (DeclaredLength(flags) == 4095 || DeclaredLength(flags) == |suffix|)
    requires |padding| < 8 && (|head| + |suffix| + 1 + |padding|) % 8 == 0
    ensures PlainName(head + (suffix + [NUL] + (padding + rest)), |head|, flags)
      == Ok((suffix, |head| + |suffix| + 1 + |padding|))
  {
    var text := suffix + [NUL] + (padding + rest);
    assert (head + text)[|head|..] == text;
    NulIndexOf(suffix, padding + rest);
    assert text[..|suffix|] == suffix;
    PaddedIs(|head| + |suffix| + 1, |padding|);
  }

  // ---------- Entries ----------

  lemma {:induction false} FlagsAreRead(r: Record, rest: Bytes, f: Format)
    requires HeaderFits(r, f)
    ensures |HeaderBytes(r)| == HeaderSize(f.digestSize, r.flags)
    ensures FlagsAt(HeaderBytes(r) + rest, f.digestSize) == r.flags
    ensures (HeaderBytes(r) + rest)[24..28] == r.stat[24..28]
  {
    var s := HeaderBytes(r) + rest;
    assert s[40 + f.digestSize..42 + f.digestSize] == Be16(r.flags);
  }

  lemma {:induction false} PackedRecordName(r: Record, head: Bytes, rest: Bytes, f: Format, previous: Bytes)
    requires NameFits(r, f, previous) && |previous| <= MAX_INDEX_BYTES && f.version == 4
    ensures PackedName(head + (NameBytes(r, f.version) + rest), |head|, previous)
      == Ok((PathOf(r, previous), |head| + |NameBytes(r, f.version)|))
  {
    assert NameBytes(r, f.version) + rest == Encoded(r.strip) + (r.suffix + [NUL] + rest);
    PackedNameIsRead(head, r.strip, r.suffix, rest, previous);
  }

  lemma {:induction false} PlainRecordName(r: Record, head: Bytes, rest: Bytes, f: Format, previous: Bytes)
    requires NameFits(r, f, previous) && f.version != 4 && |head| == HeaderSize(f.digestSize, r.flags)
    ensures PlainName(head + (NameBytes(r, f.version) + rest), |head|, r.flags)
      == Ok((PathOf(r, previous), |head| + |NameBytes(r, f.version)|))
  {
    PlainBytes(r, f.version, rest);
    PlainNameIsRead(head, r.flags, r.suffix, r.padding, rest);
    UnsharedPath(r, previous);
  }

  lemma {:induction false} PlainBytes(r: Record, version: nat, rest: Bytes)
    requires version != 4
    ensures NameBytes(r, version) + rest == r.suffix + [NUL] + (r.padding + rest)
    ensures |NameBytes(r, version)| == |r.suffix| + 1 + |r.padding|
  {}

  lemma {:induction false} UnsharedPath(r: Record, previous: Bytes)
    requires r.strip == |previous|
    ensures PathOf(r, previous) == r.suffix
  {}

  lemma {:induction false} NameIsRead(r: Record, rest: Bytes, f: Format, previous: Bytes)
    requires HeaderFits(r, f) && NameFits(r, f, previous) && |previous| <= MAX_INDEX_BYTES
    ensures NameOf(HeaderBytes(r) + (NameBytes(r, f.version) + rest), f, previous, r.flags)
      == Ok((PathOf(r, previous), |HeaderBytes(r)| + |NameBytes(r, f.version)|))
  {
    FlagsAreRead(r, NameBytes(r, f.version) + rest, f);
    if f.version == 4 {
      PackedRecordName(r, HeaderBytes(r), rest, f, previous);
    } else {
      PlainRecordName(r, HeaderBytes(r), rest, f, previous);
    }
  }

  lemma {:induction false} RecordIsRead(r: Record, rest: Bytes, f: Format, previous: Bytes)
    requires Acceptable(r, f, previous) && |previous| <= MAX_INDEX_BYTES
    ensures Entry(RecordBytes(r, f.version) + rest, f, previous)
      == Ok((PathOf(r, previous), |RecordBytes(r, f.version)|))
  {
    RecordParts(r, f.version, rest);
    FlagsAreRead(r, NameBytes(r, f.version) + rest, f);
    NameIsRead(r, rest, f, previous);
  }

  lemma {:induction false} RecordParts(r: Record, version: nat, rest: Bytes)
    requires r.flags < 65536
    ensures RecordBytes(r, version) + rest == HeaderBytes(r) + (NameBytes(r, version) + rest)
    ensures |RecordBytes(r, version)| == |HeaderBytes(r)| + |NameBytes(r, version)|
  {}

  lemma {:induction false} RecordsAreRead(rs: seq<Record>, rest: Bytes, f: Format, p: Parser, previous: Bytes)
    requires AllAcceptable(rs, f, previous) && Parses(p, f)
    requires |previous| + |RecordsBytes(rs, f, previous)| <= MAX_INDEX_BYTES
    ensures Entries(RecordsBytes(rs, f, previous) + rest, p, previous, |rs|) == Ok((PathsOf(rs, f, previous), rest))
  {
    if rs == [] {
      assert RecordsBytes(rs, f, previous) + rest == rest;
    } else {
      var path := PathOf(rs[0], previous);
      var later := RecordsBytes(rs[1..], f, path) + rest;
      FirstRecord(rs, rest, f, previous);
      RecordsAreRead(rs[1..], rest, f, p, path);
      EntriesAfterRecord(rs[0], later, f, p, previous, |rs|);
    }
  }

  lemma {:induction false} FirstRecord(rs: seq<Record>, rest: Bytes, f: Format, previous: Bytes)
    requires rs != [] && AllAcceptable(rs, f, previous)
    ensures RecordsBytes(rs, f, previous) + rest ==
      RecordBytes(rs[0], f.version) + (RecordsBytes(rs[1..], f, PathOf(rs[0], previous)) + rest)
    ensures |RecordsBytes(rs, f, previous)| ==
      |RecordBytes(rs[0], f.version)| + |RecordsBytes(rs[1..], f, PathOf(rs[0], previous))|
  {}

  lemma {:induction false} EntriesAfterRecord(r: Record, later: Bytes, f: Format, p: Parser, previous: Bytes,
      count: nat)
    requires Acceptable(r, f, previous) && |previous| <= MAX_INDEX_BYTES && Parses(p, f) && count > 0
    requires Entries(later, p, PathOf(r, previous), count - 1).Ok?
    ensures var read := Entries(later, p, PathOf(r, previous), count - 1).value;
      Entries(RecordBytes(r, f.version) + later, p, previous, count) == Ok(([PathOf(r, previous)] + read.0, read.1))
  {
    var first := RecordBytes(r, f.version);
    RecordIsRead(r, later, f, previous);
    assert (first + later)[|first|..] == later;
  }

  // ---------- What is read was written ----------

  lemma {:induction false} ReadPackedIsWritten(s: Bytes, at: nat, previous: Bytes) returns (strip: nat, suffix: Bytes)
    requires at <= |s| && PackedName(s, at, previous).Ok?
    ensures var name := PackedName(s, at, previous).value;
      NUL !in suffix && strip <= |previous| && name.0 == previous[..|previous| - strip] + suffix
      && at <= name.1 && s[at..name.1] == Encoded(strip) + (suffix + [NUL] + [])
  {
    var count := StripCount(s[at..], 0).value;
    strip := count.0;
    StripCountInvertsEncoding(s[at..], strip, count.1);
    var start := at + count.1;
    suffix := s[start..][..NulIndex(s[start..])];
    UpToNul(s, start);
    JoinSlices(s, at, start, start + |suffix| + 1);
  }

  lemma {:induction false} UpToNul(s: Bytes, start: nat)
    requires start <= |s| && NulIndex(s[start..]) < |s| - start
    ensures var n := NulIndex(s[start..]);
      s[start..start + n + 1] == s[start..][..n] + [NUL] + []
  {}

  lemma {:induction false} JoinSlices(s: Bytes, a: nat, b: nat, c: nat)
    requires a <= b <= c <= |s|
    ensures s[a..c] == s[a..b] + s[b..c] && s[a..][..b - a] == s[a..b]
  {
  }

  lemma {:induction false} ReadPlainIsWritten(s: Bytes, at: nat, flags: nat) returns (suffix: Bytes, padding: Bytes)
    requires at <= |s| && PlainName(s, at, flags).Ok?
    ensures var name := PlainName(s, at, flags).value;
      NUL !in suffix && name.0 == suffix && (DeclaredLength(flags) == 4095 || DeclaredLength(flags) == |suffix|)
      && |padding| < 8 && (at + |suffix| + 1 + |padding|) % 8 == 0
      && at <= name.1 && s[at..name.1] == suffix + [NUL] + padding
  {
    var n := NulIndex(s[at..]);
    var end := Padded(at + n + 1);
    suffix, padding := s[at..][..n], s[at + n + 1..end];
    UpToNul(s, at);
    JoinSlices(s, at, at + n + 1, end);
  }

  lemma {:induction false} HeaderIsWritten(s: Bytes, f: Format, strip: nat, suffix: Bytes, padding: Bytes)
      returns (r: Record)
    requires 42 + f.digestSize <= |s| && HeaderSize(f.digestSize, FlagsAt(s, f.digestSize)) <= |s|
    requires Extended(FlagsAt(s, f.digestSize)) ==> f.version >= 3
    ensures HeaderFits(r, f) && r.flags == FlagsAt(s, f.digestSize)
    ensures HeaderBytes(r) == s[..HeaderSize(f.digestSize, r.flags)] && r.stat[24..28] == s[24..28]
    ensures r.strip == strip && r.suffix == suffix && r.padding == padding
  {
    var d := f.digestSize;
    var flags := FlagsAt(s, d);
    var end := HeaderSize(d, flags);
    var written := s[40 + d..42 + d];
    r := Record(s[..40], s[40..40 + d], flags, s[42 + d..end], strip, suffix, padding);
    ReadIsBe16(written);
    FourSlices(s, 40, 40 + d, 42 + d, end);
    assert s[..40][24..28] == s[24..28];
  }

  lemma {:induction false} FourSlices(s: Bytes, a: nat, b: nat, c: nat, d: nat)
    requires a <= b <= c <= d <= |s|
    ensures s[..a] + s[a..b] + s[b..c] + s[c..d] == s[..d]
  {}

  /** The record of an entry whose header and name have been read. */
  lemma {:induction false} RecordIsComplete(r: Record, s: Bytes, f: Format, previous: Bytes, at: nat, end: nat)
    requires HeaderFits(r, f) && NameFits(r, f, previous) && at <= end <= |s|
    requires HeaderBytes(r) == s[..at] && NameBytes(r, f.version) == s[at..end]
    ensures RecordBytes(r, f.version) == s[..end]
  {
    assert s[..end] == s[..at] + s[at..end];
  }

  lemma {:induction false} ReadIsPackedRecord(s: Bytes, f: Format, previous: Bytes, name: (Bytes, nat))
      returns (r: Record)
    requires 42 + f.digestSize <= |s| && f.version == 4 && NameOf(s, f, previous, FlagsAt(s, f.digestSize)) == Ok(name)
    ensures HeaderFits(r, f) && NameFits(r, f, previous) && PathOf(r, previous) == name.0
    ensures RecordBytes(r, f.version) == s[..name.1] && r.stat[24..28] == s[24..28]
  {
    var at := HeaderSize(f.digestSize, FlagsAt(s, f.digestSize));
    var strip, suffix := ReadPackedIsWritten(s, at, previous);
    r := HeaderIsWritten(s, f, strip, suffix, []);
    RecordIsComplete(r, s, f, previous, at, name.1);
  }

  lemma {:induction false} ReadIsPlainRecord(s: Bytes, f: Format, previous: Bytes, name: (Bytes, nat))
      returns (r: Record)
    requires 42 + f.digestSize <= |s| && f.version != 4 && NameOf(s, f, previous, FlagsAt(s, f.digestSize)) == Ok(name)
    ensures HeaderFits(r, f) && NameFits(r, f, previous) && PathOf(r, previous) == name.0
    ensures RecordBytes(r, f.version) == s[..name.1] && r.stat[24..28] == s[24..28]
  {
    var flags := FlagsAt(s, f.digestSize);
    var at := HeaderSize(f.digestSize, flags);
    var suffix, padding := ReadPlainIsWritten(s, at, flags);
    r := HeaderIsWritten(s, f, |previous|, suffix, padding);
    UnsharedPath(r, previous);
    RecordIsComplete(r, s, f, previous, at, name.1);
  }

  lemma {:induction false} ReadIsRecord(s: Bytes, f: Format, previous: Bytes) returns (r: Record)
    requires Entry(s, f, previous).Ok?
    ensures Acceptable(r, f, previous)
    ensures var entry := Entry(s, f, previous).value;
      PathOf(r, previous) == entry.0 && RecordBytes(r, f.version) == s[..entry.1]
  {
    var entry := Entry(s, f, previous).value;
    if f.version == 4 {
      r := ReadIsPackedRecord(s, f, previous, entry);
    } else {
      r := ReadIsPlainRecord(s, f, previous, entry);
    }
  }

  /** Some bytes are these records and a rest, and the records stand for these paths. */
  predicate WrittenAs(rs: seq<Record>, f: Format, previous: Bytes, s: Bytes, read: (seq<Bytes>, Bytes)) {
    AllAcceptable(rs, f, previous) && PathsOf(rs, f, previous) == read.0 && RecordsBytes(rs, f, previous) + read.1 == s
  }

  lemma {:induction false} ReadAreRecords(s: Bytes, f: Format, p: Parser, previous: Bytes, count: nat)
      returns (rs: seq<Record>)
    requires Parses(p, f) && Entries(s, p, previous, count).Ok?
    ensures |rs| == count && WrittenAs(rs, f, previous, s, Entries(s, p, previous, count).value)
    decreases count
  {
    if count == 0 {
      rs := [];
      assert RecordsBytes(rs, f, previous) + s == s;
    } else {
      var entry, read := SplitEntries(s, p, previous, count);
      var later := ReadAreRecords(s[entry.1..], f, p, entry.0, count - 1);
      rs := PrependRecord(s, f, p, previous, later, entry, read);
    }
  }

  lemma {:induction false} PrependRecord(s: Bytes, f: Format, p: Parser, previous: Bytes, later: seq<Record>,
      entry: (Bytes, nat),
      read: (seq<Bytes>, Bytes)) returns (rs: seq<Record>)
    requires Parses(p, f) && p(s, previous) == Ok(entry) && entry.1 <= |s|
    requires WrittenAs(later, f, entry.0, s[entry.1..], read)
    ensures |rs| == |later| + 1 && WrittenAs(rs, f, previous, s, ([entry.0] + read.0, read.1))
  {
    assert Entry(s, f, previous) == Ok(entry);
    var first := ReadIsRecord(s, f, previous);
    rs := [first] + later;
    JoinRecords(s, f, previous, first, later, entry, read);
  }

  lemma {:induction false} SplitEntries(s: Bytes, p: Parser, previous: Bytes, count: nat)
      returns (entry: (Bytes, nat), read: (seq<Bytes>, Bytes))
    requires count > 0 && Entries(s, p, previous, count).Ok?
    ensures p(s, previous) == Ok(entry) && entry.1 <= |s|
    ensures Entries(s[entry.1..], p, entry.0, count - 1) == Ok(read)
    ensures Entries(s, p, previous, count) == Ok(([entry.0] + read.0, read.1))
  {
    FirstEntry(s, p, previous, count);
    entry := p(s, previous).value;
    read := Entries(s[entry.1..], p, entry.0, count - 1).value;
  }

  lemma {:induction false} JoinRecords(s: Bytes, f: Format, previous: Bytes, first: Record, later: seq<Record>,
      entry: (Bytes, nat),
      read: (seq<Bytes>, Bytes))
    requires Acceptable(first, f, previous) && PathOf(first, previous) == entry.0
    requires entry.1 <= |s| && RecordBytes(first, f.version) == s[..entry.1]
      && WrittenAs(later, f, entry.0, s[entry.1..], read)
    ensures WrittenAs([first] + later, f, previous, s, ([entry.0] + read.0, read.1))
  {
    ConsRecords(first, later, f, previous);
    JoinBytes(s, RecordBytes(first, f.version), RecordsBytes(later, f, entry.0), read.1);
  }

  lemma {:induction false} ConsRecords(first: Record, later: seq<Record>, f: Format, previous: Bytes)
    requires Acceptable(first, f, previous) && AllAcceptable(later, f, PathOf(first, previous))
    ensures AllAcceptable([first] + later, f, previous)
    ensures PathsOf([first] + later, f, previous) == [PathOf(first, previous)]
      + PathsOf(later, f, PathOf(first, previous))
    ensures RecordsBytes([first] + later, f, previous) == RecordBytes(first, f.version)
      + RecordsBytes(later, f, PathOf(first, previous))
  {
    var rs := [first] + later;
    assert rs[0] == first && rs[1..] == later;
  }

  lemma {:induction false} JoinBytes(s: Bytes, first: Bytes, later: Bytes, rest: Bytes)
    requires |first| <= |s| && s[..|first|] == first && later + rest == s[|first|..]
    ensures first + later + rest == s
  {
    assert first + later + rest == first + (later + rest);
    assert s == s[..|first|] + s[|first|..];
  }

  // ---------- Extensions ----------

  datatype Extension = Extension(signature: Bytes, data: Bytes)

  /** A reader may skip an extension unless its signature starts with a lower-case letter. */
  predicate Skippable(e: Extension) {
    |e.signature| == 4 && !(97 <= e.signature[0] <= 122) && |e.data| < 0x1_0000_0000
  }

  predicate AllSkippable(es: seq<Extension>) { es == [] || (Skippable(es[0]) && AllSkippable(es[1..])) }

  function ExtensionBytes(e: Extension): Bytes
    requires Skippable(e)
  {
    e.signature + Be32(|e.data|) + e.data
  }

  function ExtensionsBytes(es: seq<Extension>): Bytes
    requires AllSkippable(es)
  {
    if es == [] then [] else ExtensionBytes(es[0]) + ExtensionsBytes(es[1..])
  }

  lemma {:induction false} Be32IsRead(n: nat)
    requires n < 0x1_0000_0000
    ensures |Be32(n)| == 4 && U32(Be32(n)) == n
  {
    assert Be32(n)[..2] == Be16(n / 65536) && Be32(n)[2..] == Be16(n % 65536);
  }

  lemma {:induction false} ReadIsBe32(s: Bytes)
    requires |s| == 4
    ensures U32(s) < 0x1_0000_0000 && Be32(U32(s)) == s
  {
    var high, low := U16(s[..2]), U16(s[2..]);
    assert high < 65536 && low < 65536;
    assert U32(s) / 65536 == high && U32(s) % 65536 == low;
    ReadIsBe16(s[..2]);
    ReadIsBe16(s[2..]);
    assert s == s[..2] + s[2..];
  }

  lemma {:induction false} ReadIsBe16(s: Bytes)
    requires |s| == 2
    ensures U16(s) < 65536 && Be16(U16(s)) == s
  {
    assert s == [s[0], s[1]];
  }

  lemma {:induction false} ExtensionsAreRead(es: seq<Extension>)
    requires AllSkippable(es)
    ensures ExtensionsFault(ExtensionsBytes(es)) == None
  {
    if es != [] {
      var e, later := es[0], ExtensionsBytes(es[1..]);
      var s := ExtensionBytes(e) + later;
      Be32IsRead(|e.data|);
      assert s[..4] == e.signature && s[4..8] == Be32(|e.data|);
      assert s[8 + |e.data|..] == later;
      ExtensionsAreRead(es[1..]);
    }
  }

  lemma {:induction false} ReadAreExtensions(s: Bytes) returns (es: seq<Extension>)
    requires ExtensionsFault(s) == None
    ensures AllSkippable(es) && ExtensionsBytes(es) == s
    decreases |s|
  {
    if s == [] {
      es := [];
    } else {
      ReadIsBe32(s[4..8]);
      var size := U32(s[4..8]);
      var first := Extension(s[..4], s[8..8 + size]);
      var later := ReadAreExtensions(s[8 + size..]);
      es := [first] + later;
      assert es[1..] == later;
      ExtensionParts(s, size);
    }
  }

  lemma {:induction false} ExtensionParts(s: Bytes, size: nat)
    requires 8 + size <= |s|
    ensures s == s[..4] + s[4..8] + s[8..8 + size] + s[8 + size..] && |s[8..8 + size]| == size
  {}

  // ---------- The whole index ----------

  /** An index of some records and extensions, before its checksum. */
  function PayloadBytes(rs: seq<Record>, es: seq<Extension>, f: Format): Bytes
    requires AllAcceptable(rs, f, []) && AllSkippable(es) && |rs| <= MAX_ENTRIES && 2 <= f.version <= 4
  {
    MAGIC + Be32(f.version) + Be32(|rs|) + (RecordsBytes(rs, f, []) + ExtensionsBytes(es))
  }

  predicate IsIndexOf(raw: Bytes, rs: seq<Record>, es: seq<Extension>, f: Format, digest: Bytes -> Bytes) {
    && AllAcceptable(rs, f, []) && AllSkippable(es) && |rs| <= MAX_ENTRIES && 2 <= f.version <= 4
    && |raw| <= MAX_INDEX_BYTES
    && var payload := PayloadBytes(rs, es, f);
      |digest(payload)| == f.digestSize && raw == payload + digest(payload)
  }

  lemma {:induction false} HeadOfPayload(rs: seq<Record>, es: seq<Extension>, f: Format)
    requires AllAcceptable(rs, f, []) && AllSkippable(es) && |rs| <= MAX_ENTRIES && 2 <= f.version <= 4
    ensures var payload := PayloadBytes(rs, es, f);
      |payload| >= 12 && payload[..4] == MAGIC && U32(payload[4..8]) == f.version && U32(payload[8..12]) == |rs|
      && payload[12..] == RecordsBytes(rs, f, []) + ExtensionsBytes(es)
  {
    var payload := PayloadBytes(rs, es, f);
    Be32IsRead(f.version);
    Be32IsRead(|rs|);
    assert payload[..4] == MAGIC && payload[4..8] == Be32(f.version) && payload[8..12] == Be32(|rs|);
  }

  /** Every index a writer can produce is accepted, and the paths visited are the paths written. */
  lemma {:induction false} WrittenIndexIsRead(raw: Bytes, rs: seq<Record>, es: seq<Extension>, f: Format,
      digest: Bytes -> Bytes)
    requires IsIndexOf(raw, rs, es, f, digest)
    ensures IndexPaths(raw, f.digestSize, digest, f.canonical) == Ok(PathsOf(rs, f, []))
  {
    var payload := PayloadBytes(rs, es, f);
    assert raw[..|raw| - f.digestSize] == payload && raw[|raw| - f.digestSize..] == digest(payload);
    HeadOfPayload(rs, es, f);
    RecordsAreRead(rs, ExtensionsBytes(es), f, EntryParser(f), []);
    ExtensionsAreRead(es);
    assert Format(f.version, f.digestSize, f.canonical) == f;
  }

  /** Every accepted index is one that a writer can produce, and the paths visited are its paths. */
  lemma {:induction false} AcceptedIndexIsWritten(raw: Bytes, digestSize: nat, digest: Bytes -> Bytes,
      canonical: Bytes -> bool)
      returns (rs: seq<Record>, es: seq<Extension>, f: Format)
    requires IndexPaths(raw, digestSize, digest, canonical).Ok?
    ensures f.digestSize == digestSize && f.canonical == canonical && IsIndexOf(raw, rs, es, f, digest)
    ensures IndexPaths(raw, digestSize, digest, canonical) == Ok(PathsOf(rs, f, []))
  {
    var payload := raw[..|raw| - digestSize];
    rs, es, f := AcceptedPayloadIsWritten(payload, digestSize, canonical);
    assert raw == payload + raw[|raw| - digestSize..];
  }

  lemma {:induction false} AcceptedPayloadIsWritten(payload: Bytes, digestSize: nat, canonical: Bytes -> bool)
      returns (rs: seq<Record>, es: seq<Extension>, f: Format)
    requires |payload| >= 12 && PayloadPaths(payload, digestSize, canonical).Ok?
    ensures f.digestSize == digestSize && f.canonical == canonical
    ensures AllAcceptable(rs, f, []) && AllSkippable(es) && |rs| <= MAX_ENTRIES && 2 <= f.version <= 4
    ensures payload == PayloadBytes(rs, es, f)
    ensures PayloadPaths(payload, digestSize, canonical) == Ok(PathsOf(rs, f, []))
  {
    f := Format(U32(payload[4..8]), digestSize, canonical);
    var count := U32(payload[8..12]);
    rs := ReadAreRecords(payload[12..], f, EntryParser(f), [], count);
    es := ReadAreExtensions(Entries(payload[12..], EntryParser(f), [], count).value.1);
    ReadIsBe32(payload[4..8]);
    ReadIsBe32(payload[8..12]);
    FourParts(payload);
  }

  lemma {:induction false} FourParts(payload: Bytes)
    requires |payload| >= 12
    ensures payload == payload[..4] + payload[4..8] + payload[8..12] + payload[12..]
  {}

  // ---------- Alignment ----------

  lemma {:induction false} PlainRecordIsAligned(r: Record, f: Format, previous: Bytes)
    requires Acceptable(r, f, previous) && f.version != 4
    ensures |RecordBytes(r, f.version)| % 8 == 0
  {
    FlagsAreRead(r, [], f);
  }

  lemma {:induction false} AlignedConcat(a: Bytes, b: Bytes)
    requires |a| % 8 == 0 && |b| % 8 == 0
    ensures |a + b| % 8 == 0
  {}

  /** In versions 2 and 3 every entry starts at a multiple of eight bytes from the first. */
  lemma {:induction false} PlainRecordsAreAligned(rs: seq<Record>, f: Format, previous: Bytes)
    requires AllAcceptable(rs, f, previous) && f.version != 4
    ensures |RecordsBytes(rs, f, previous)| % 8 == 0
  {
    if rs != [] {
      PlainRecordIsAligned(rs[0], f, previous);
      PlainRecordsAreAligned(rs[1..], f, PathOf(rs[0], previous));
      AlignedConcat(RecordBytes(rs[0], f.version), RecordsBytes(rs[1..], f, PathOf(rs[0], previous)));
    }
  }

  // ---------- A writer that shares prefixes ----------

  datatype Item = Item(stat: Bytes, oid: Bytes, flags: nat, extended: Bytes, path: Bytes)

  function CommonPrefix(a: Bytes, b: Bytes): (n: nat)
    ensures n <= |a| && n <= |b| && a[..n] == b[..n]
  {
    if a == [] || b == [] || a[0] != b[0] then 0
    else
      var n := CommonPrefix(a[1..], b[1..]);
      TakeOneMore(a, n);
      TakeOneMore(b, n);
      n + 1
  }

  lemma {:induction false} TakeOneMore(s: Bytes, n: nat)
    requires n < |s|
    ensures s[..n + 1] == [s[0]] + s[1..][..n]
  {}

  function Packed(item: Item, previous: Bytes): Record {
    var n := CommonPrefix(previous, item.path);
    Record(item.stat, item.oid, item.flags, item.extended, |previous| - n, item.path[n..], [])
  }

  function AllPacked(items: seq<Item>, previous: Bytes): (rs: seq<Record>)
    ensures |rs| == |items|
  {
    if items == [] then [] else [Packed(items[0], previous)] + AllPacked(items[1..], items[0].path)
  }

  predicate ItemFits(item: Item, f: Format) {
    && HeaderFits(Record(item.stat, item.oid, item.flags, item.extended, 0, [], []), f)
    && NUL !in item.path && f.canonical(item.path) && !IsDirectory(U32(item.stat[24..28]))
  }

  predicate AllItemsFit(items: seq<Item>, f: Format) { forall item | item in items :: ItemFits(item, f) }

  function ItemPaths(items: seq<Item>): seq<Bytes> {
    if items == [] then [] else [items[0].path] + ItemPaths(items[1..])
  }

  lemma {:induction false} PackedIsAcceptable(item: Item, f: Format, previous: Bytes)
    requires ItemFits(item, f) && f.version == 4
    ensures Acceptable(Packed(item, previous), f, previous) && PathOf(Packed(item, previous), previous) == item.path
  {
    var n := CommonPrefix(previous, item.path);
    assert item.path == item.path[..n] + item.path[n..];
  }

  lemma {:induction false} AllPackedAreAcceptable(items: seq<Item>, f: Format, previous: Bytes)
    requires AllItemsFit(items, f) && f.version == 4
    ensures AllAcceptable(AllPacked(items, previous), f, previous)
    ensures PathsOf(AllPacked(items, previous), f, previous) == ItemPaths(items)
  {
    if items != [] {
      assert items[0] in items && forall item | item in items[1..] :: item in items;
      PackedIsAcceptable(items[0], f, previous);
      AllPackedAreAcceptable(items[1..], f, items[0].path);
      var rs := AllPacked(items, previous);
      assert rs[1..] == AllPacked(items[1..], items[0].path);
    }
  }

  /** The index written with shared prefixes is accepted, and exactly the written list of paths comes back. */
  lemma {:induction false} PrefixSharingRoundTrip(items: seq<Item>, es: seq<Extension>, f: Format,
      digest: Bytes -> Bytes, raw: Bytes)
    requires AllItemsFit(items, f) && f.version == 4
    requires IsIndexOf(raw, AllPacked(items, []), es, f, digest)
    ensures IndexPaths(raw, f.digestSize, digest, f.canonical) == Ok(ItemPaths(items))
  {
    AllPackedAreAcceptable(items, f, []);
    WrittenIndexIsRead(raw, AllPacked(items, []), es, f, digest);
  }
}
