/**
  The fail-closed byte parser for Git configuration files (src/apexcrew/adapters/repository/git.py):
  every loop next to the function of the unread bytes that it computes.
*/
module GitConfig {
  import opened Wrappers
  import opened ByteStrings

  const BACKSPACE: byte := 8
  const TAB: byte := 9
  const LF: byte := 10
  const CR: byte := 13
  const SPACE: byte := 32
  const QUOTE: byte := 34
  const HASH: byte := 35
  const DASH: byte := 45
  const DOT: byte := 46
  const SEMICOLON: byte := 59
  const EQUALS: byte := 61
  const LBRACKET: byte := 91
  const BACKSLASH: byte := 92
  const RBRACKET: byte := 93

  const MAX_BYTES := 1_048_576
  const MAX_LOGICAL_LINE_BYTES := 65_536
  const MAX_PHYSICAL_LINES := 16_384
  const MAX_ENTRIES := 4_096

  datatype ConfigError = SyntaxInvalid | LimitExceeded

  datatype ConfigEntry = ConfigEntry(section: Bytes, subsection: Option<Bytes>, name: Bytes, value: Bytes)

  type Section = (Bytes, Option<Bytes>)

  // ---------- Blanks ----------

  predicate IsBlank(b: byte) { b == SPACE || b == TAB }

  function LeftStrip(s: Bytes): (r: Bytes)
    ensures |r| <= |s|
  {
    if s == [] || !IsBlank(s[0]) then s else LeftStrip(s[1..])
  }

  function RightStrip(s: Bytes): (r: Bytes)
    ensures |r| <= |s|
  {
    if s == [] || !IsBlank(s[|s| - 1]) then s else RightStrip(s[..|s| - 1])
  }

  function Strip(s: Bytes): Bytes { RightStrip(LeftStrip(s)) }

  // ---------- Comments ----------

  /** How much of a line stands before its comment. */
  function KeptLength(line: Bytes, quoted: bool, escaped: bool): (n: nat)
    ensures n <= |line|
  {
    if line == [] then 0
    else if escaped then 1 + KeptLength(line[1..], quoted, false)
    else if line[0] == BACKSLASH then 1 + KeptLength(line[1..], quoted, true)
    else if line[0] == QUOTE then 1 + KeptLength(line[1..], !quoted, false)
    else if !quoted && (line[0] == HASH || line[0] == SEMICOLON) then 0
    else 1 + KeptLength(line[1..], quoted, false)
  }

  function WithoutComment(line: Bytes): Bytes {
    line[..KeptLength(line, false, false)]
  }

  method FindWithoutComment(line: Bytes) returns (kept: Bytes)
    ensures kept == WithoutComment(line)
  {
    var quoted, escaped := false, false;
    for index := 0 to |line|
      invariant KeptLength(line, false, false) == index + KeptLength(line[index..], quoted, escaped)
    {
      var b := line[index];
      assert line[index..][1..] == line[index + 1..];
      if escaped {
        escaped := false;
      } else if b == BACKSLASH {
        escaped := true;
      } else if b == QUOTE {
        quoted := !quoted;
      } else if !quoted && (b == HASH || b == SEMICOLON) {
        return line[..index];
      }
    }
    return line;
  }

  // ---------- Physical and logical lines ----------

  /** `raw.split(b"\n")` */
  function SplitLines(raw: Bytes): (lines: seq<Bytes>)
    ensures lines != []
  {
    if raw == [] then [[]]
    else if raw[0] == LF then [[]] + SplitLines(raw[1..])
    else
      var rest := SplitLines(raw[1..]);
      [[raw[0]] + rest[0]] + rest[1..]
  }

  function WithoutReturn(line: Bytes): Bytes {
    if line != [] && line[|line| - 1] == CR then line[..|line| - 1] else line
  }

  predicate Continues(line: Bytes) {
    line != [] && line[|line| - 1] == BACKSLASH && KeptLength(line, false, false) == |line|
  }

  /** What one physical line adds to the logical line under way. */
  function Joined(pending: Bytes, physical: Bytes): Bytes {
    var line := WithoutReturn(physical);
    if pending != [] then LeftStrip(line) else line
  }

  function LogicalFrom(physical: seq<Bytes>, pending: Bytes): Result<seq<Bytes>, ConfigError>
    decreases |physical|
  {
    if physical == [] then Ok([])
    else if CR in WithoutReturn(physical[0]) then Err(SyntaxInvalid)
    else
      var line := Joined(pending, physical[0]);
      var now := pending + if Continues(line) then line[..|line| - 1] else line;
      if |now| > MAX_LOGICAL_LINE_BYTES then Err(LimitExceeded)
      else if !Continues(line) then
        var rest := LogicalFrom(physical[1..], []);
        if rest.Ok? then Ok([now] + rest.value) else rest
      else if |physical| == 1 then Err(SyntaxInvalid)
      else LogicalFrom(physical[1..], now)
  }

  function LogicalLines(raw: Bytes): Result<seq<Bytes>, ConfigError> {
    if |raw| > MAX_BYTES then Err(LimitExceeded)
    else if NUL in raw then Err(SyntaxInvalid)
    else if |SplitLines(raw)| > MAX_PHYSICAL_LINES then Err(LimitExceeded)
    else LogicalFrom(SplitLines(raw), [])
  }

  function Prepended(lines: seq<Bytes>, rest: Result<seq<Bytes>, ConfigError>): Result<seq<Bytes>, ConfigError> {
    if rest.Ok? then Ok(lines + rest.value) else rest
  }

  lemma {:induction false} PrependedNothing(rest: Result<seq<Bytes>, ConfigError>)
    ensures Prepended([], rest) == rest
  {
    if rest.Ok? { assert [] + rest.value == rest.value; }
  }

  lemma {:induction false} PrependedStep(lines: seq<Bytes>, now: Bytes, rest: Result<seq<Bytes>, ConfigError>)
    ensures Prepended(lines, if rest.Ok? then Ok([now] + rest.value) else rest) == Prepended(lines + [now], rest)
  {
    if rest.Ok? { assert lines + ([now] + rest.value) == (lines + [now]) + rest.value; }
  }

  /** `_logical_config_lines` */
  method ReadLogicalLines(raw: Bytes) returns (result: Result<seq<Bytes>, ConfigError>)
    ensures result == LogicalLines(raw)
  {
    if |raw| > MAX_BYTES { return Err(LimitExceeded); }
    if NUL in raw { return Err(SyntaxInvalid); }
    var physical := SplitLines(raw);
    if |physical| > MAX_PHYSICAL_LINES { return Err(LimitExceeded); }
    result := JoinLines(physical);
  }

  method JoinLines(physical: seq<Bytes>) returns (result: Result<seq<Bytes>, ConfigError>)
    ensures result == LogicalFrom(physical, [])
  {
    var logical: seq<Bytes> := [];
    var pending: Bytes := [];
    PrependedNothing(LogicalFrom(physical, []));
    assert physical[0..] == physical;
    for index := 0 to |physical|
      invariant LogicalFrom(physical, []) == Prepended(logical, LogicalFrom(physical[index..], pending))
      invariant index == |physical| ==> pending == []
    {
      ghost var unread := physical[index..];
      assert unread[0] == physical[index] && unread[1..] == physical[index + 1..];
      var line := WithoutReturn(physical[index]);
      if CR in line { return Err(SyntaxInvalid); }
      if pending != [] { line := LeftStrip(line); }
      var kept := FindWithoutComment(line);
      var continuation := line != [] && line[|line| - 1] == BACKSLASH && |kept| == |line|;
      pending := pending + if continuation then line[..|line| - 1] else line;
      if |pending| > MAX_LOGICAL_LINE_BYTES { return Err(LimitExceeded); }
      if continuation {
        if index == |physical| - 1 { return Err(SyntaxInvalid); }
        continue;
      }
      PrependedStep(logical, pending, LogicalFrom(unread[1..], []));
      logical := logical + [pending];
      pending := [];
    }
    assert physical[|physical|..] == [] && logical + [] == logical;
    return Ok(logical);
  }

  // ---------- Identifiers, quoted text, section headers, values ----------

  predicate IsLetter(b: byte) { 65 <= b <= 90 || 97 <= b <= 122 }

  predicate IsIdentifierByte(b: byte) { IsLetter(b) || 48 <= b <= 57 || b == DASH }

  function Lower(s: Bytes): Bytes {
    seq(|s|, i requires 0 <= i < |s| => if 65 <= s[i] <= 90 then s[i] + 32 else s[i])
  }

  predicate IsIdentifier(s: Bytes) {
    s != [] && IsLetter(s[0]) && forall i | 1 <= i < |s| :: IsIdentifierByte(s[i])
  }

  function Identifier(raw: Bytes): Result<Bytes, ConfigError> {
    if IsIdentifier(raw) then Ok(Lower(raw)) else Err(SyntaxInvalid)
  }

  /** `_QUOTED_ESCAPES` */
  function Unescaped(b: byte): Option<byte> {
    if b == QUOTE || b == BACKSLASH then Some(b)
    else if b == 110 then Some(LF)
    else if b == 116 then Some(TAB)
    else if b == 98 then Some(BACKSPACE)
    else None
  }

  predicate IsRejectedControl(b: byte) { b < 32 && b != TAB }

  function Cons(b: byte, rest: Result<(Bytes, nat), ConfigError>): Result<(Bytes, nat), ConfigError> {
    match rest
    case Err(e) => Err(e)
    case Ok((value, end)) => Ok(([b] + value, end))
  }

  /** Quoted text after its opening quote: its value and how many bytes are left after the closing one. */
  function QuotedBody(s: Bytes): (r: Result<(Bytes, nat), ConfigError>)
    ensures r.Ok? ==> r.value.1 < |s|
  {
    if s == [] then Err(SyntaxInvalid)
    else if s[0] == QUOTE then Ok(([], |s| - 1))
    else if s[0] == BACKSLASH then
      if |s| < 2 || Unescaped(s[1]).None? then Err(SyntaxInvalid)
      else Cons(Unescaped(s[1]).value, QuotedBody(s[2..]))
    else if IsRejectedControl(s[0]) then Err(SyntaxInvalid)
    else Cons(s[0], QuotedBody(s[1..]))
  }

  function Quoted(s: Bytes): (r: Result<(Bytes, nat), ConfigError>)
    ensures r.Ok? ==> r.value.1 <= |s|
  {
    if s == [] || s[0] != QUOTE then Err(SyntaxInvalid) else QuotedBody(s[1..])
  }

  function Prefixed(value: Bytes, rest: Result<(Bytes, nat), ConfigError>): Result<(Bytes, nat), ConfigError> {
    match rest
    case Err(e) => Err(e)
    case Ok((tail, end)) => Ok((value + tail, end))
  }

  lemma {:induction false} PrefixedNothing(rest: Result<(Bytes, nat), ConfigError>)
    ensures Prefixed([], rest) == rest
  {
    if rest.Ok? { assert [] + rest.value.0 == rest.value.0; }
  }

  lemma {:induction false} PrefixedCons(value: Bytes, b: byte, rest: Result<(Bytes, nat), ConfigError>)
    ensures Prefixed(value, Cons(b, rest)) == Prefixed(value + [b], rest)
  {
    if rest.Ok? { assert value + ([b] + rest.value.0) == (value + [b]) + rest.value.0; }
  }

  /** `_quoted` */
  method ReadQuoted(raw: Bytes) returns (result: Result<(Bytes, nat), ConfigError>)
    ensures result == Quoted(raw)
  {
    if raw == [] || raw[0] != QUOTE { return Err(SyntaxInvalid); }
    var value: Bytes := [];
    var offset := 1;
    PrefixedNothing(QuotedBody(raw[1..]));
    while offset < |raw|
      invariant 1 <= offset <= |raw|
      invariant QuotedBody(raw[1..]) == Prefixed(value, QuotedBody(raw[offset..]))
    {
      var b := raw[offset];
      ghost var unread := raw[offset..];
      assert unread[0] == b && unread[1..] == raw[offset + 1..];
      if b == QUOTE {
        assert value + [] == value;
        return Ok((value, |raw| - offset - 1));
      }
      if b == BACKSLASH {
        offset := offset + 1;
        if offset >= |raw| || Unescaped(raw[offset]).None? { return Err(SyntaxInvalid); }
        assert unread[1] == raw[offset] && unread[2..] == raw[offset + 1..];
        PrefixedCons(value, Unescaped(raw[offset]).value, QuotedBody(unread[2..]));
        value := value + [Unescaped(raw[offset]).value];
      } else if IsRejectedControl(b) {
        return Err(SyntaxInvalid);
      } else {
        PrefixedCons(value, b, QuotedBody(unread[1..]));
        value := value + [b];
      }
      offset := offset + 1;
    }
    return Err(SyntaxInvalid);
  }

  /** How far the section name reaches. */
  function NameLength(inner: Bytes): (n: nat)
    ensures n <= |inner|
  {
    if inner == [] || inner[0] == DOT || IsBlank(inner[0]) then 0 else 1 + NameLength(inner[1..])
  }

  function QuotedSubsection(remainder: Bytes): Result<Bytes, ConfigError> {
    match Quoted(remainder)
    case Err(e) => Err(e)
    case Ok((subsection, left)) =>
      if Strip(remainder[|remainder| - left..]) != [] || exists b | b in subsection :: b < 32 then Err(SyntaxInvalid)
      else Ok(subsection)
  }

  function HeaderInside(inner: Bytes): Result<Section, ConfigError> {
    var boundary := NameLength(inner);
    var name := Identifier(inner[..boundary]);
    if name.Err? then Err(name.error)
    else if boundary == |inner| then Ok((name.value, None))
    else if inner[boundary] == DOT then
      var subsection := inner[boundary + 1..];
      if subsection == [] || exists b | b in subsection ::
        b < 32 || b == LBRACKET || b == RBRACKET then Err(SyntaxInvalid)
      else Ok((name.value, Some(Lower(subsection))))
    else
      match QuotedSubsection(LeftStrip(inner[boundary..]))
      case Err(e) => Err(e)
      case Ok(subsection) => Ok((name.value, Some(subsection)))
  }

  function SectionHeader(line: Bytes): Result<Section, ConfigError> {
    var payload := Strip(WithoutComment(line));
    if |payload| < 2 || payload[0] != LBRACKET || payload[|payload| - 1] != RBRACKET then Err(SyntaxInvalid)
    else HeaderInside(Strip(payload[1..|payload| - 1]))
  }

  method FindNameEnd(inner: Bytes) returns (boundary: nat)
    ensures boundary == NameLength(inner)
  {
    boundary := 0;
    assert inner[0..] == inner;
    while boundary < |inner| && inner[boundary] != DOT && !IsBlank(inner[boundary])
      invariant boundary <= |inner|
      invariant NameLength(inner) == boundary + NameLength(inner[boundary..])
    {
      assert inner[boundary..][1..] == inner[boundary + 1..];
      boundary := boundary + 1;
    }
  }

  method ReadQuotedSubsection(remainder: Bytes) returns (result: Result<Bytes, ConfigError>)
    ensures result == QuotedSubsection(remainder)
  {
    var quoted := ReadQuoted(remainder);
    if quoted.Err? { return Err(quoted.error); }
    var subsection, left := quoted.value.0, quoted.value.1;
    if Strip(remainder[|remainder| - left..]) != [] || exists b | b in subsection :: b < 32 {
      return Err(SyntaxInvalid);
    }
    return Ok(subsection);
  }

  method ReadHeaderInside(inner: Bytes) returns (result: Result<Section, ConfigError>)
    ensures result == HeaderInside(inner)
  {
    var boundary := FindNameEnd(inner);
    var name := Identifier(inner[..boundary]);
    if name.Err? { return Err(name.error); }
    if boundary == |inner| { return Ok((name.value, None)); }
    if inner[boundary] == DOT {
      var dotted := inner[boundary + 1..];
      if dotted == [] || exists b | b in dotted :: b < 32 || b == LBRACKET || b == RBRACKET {
        return Err(SyntaxInvalid);
      }
      return Ok((name.value, Some(Lower(dotted))));
    }
    var subsection := ReadQuotedSubsection(LeftStrip(inner[boundary..]));
    if subsection.Err? { return Err(subsection.error); }
    return Ok((name.value, Some(subsection.value)));
  }

  /** `_section_header` */
  method ReadSectionHeader(line: Bytes) returns (result: Result<Section, ConfigError>)
    ensures result == SectionHeader(line)
  {
    var kept := FindWithoutComment(line);
    var payload := Strip(kept);
    if |payload| < 2 || payload[0] != LBRACKET || payload[|payload| - 1] != RBRACKET { return Err(SyntaxInvalid); }
    result := ReadHeaderInside(Strip(payload[1..|payload| - 1]));
  }

  function ConsValue(b: byte, rest: Result<Bytes, ConfigError>): Result<Bytes, ConfigError> {
    if rest.Ok? then Ok([b] + rest.value) else rest
  }

  function ValueFrom(s: Bytes, quoted: bool): Result<Bytes, ConfigError> {
    if s == [] then if quoted then Err(SyntaxInvalid) else Ok([])
    else if s[0] == QUOTE then ValueFrom(s[1..], !quoted)
    else if s[0] == BACKSLASH then
      if |s| < 2 || Unescaped(s[1]).None? then Err(SyntaxInvalid)
      else ConsValue(Unescaped(s[1]).value, ValueFrom(s[2..], quoted))
    else if IsRejectedControl(s[0]) then Err(SyntaxInvalid)
    else ConsValue(s[0], ValueFrom(s[1..], quoted))
  }

  function ConfigValue(raw: Bytes): Result<Bytes, ConfigError> {
    ValueFrom(Strip(raw), false)
  }

  function PrefixedValue(value: Bytes, rest: Result<Bytes, ConfigError>): Result<Bytes, ConfigError> {
    if rest.Ok? then Ok(value + rest.value) else rest
  }

  lemma {:induction false} PrefixedNoValue(rest: Result<Bytes, ConfigError>)
    ensures PrefixedValue([], rest) == rest
  {
    if rest.Ok? { assert [] + rest.value == rest.value; }
  }

  lemma {:induction false} PrefixedConsValue(value: Bytes, b: byte, rest: Result<Bytes, ConfigError>)
    ensures PrefixedValue(value, ConsValue(b, rest)) == PrefixedValue(value + [b], rest)
  {
    if rest.Ok? { assert value + ([b] + rest.value) == (value + [b]) + rest.value; }
  }

  /** `_config_value` */
  method ReadConfigValue(raw: Bytes) returns (result: Result<Bytes, ConfigError>)
    ensures result == ConfigValue(raw)
  {
    var source := Strip(raw);
    var value: Bytes := [];
    var quoted, offset := false, 0;
    PrefixedNoValue(ValueFrom(source, false));
    assert source[0..] == source;
    while offset < |source|
      invariant 0 <= offset <= |source|
      invariant ValueFrom(source, false) == PrefixedValue(value, ValueFrom(source[offset..], quoted))
    {
      var b := source[offset];
      ghost var unread := source[offset..];
      assert unread[0] == b && unread[1..] == source[offset + 1..];
      if b == QUOTE {
        quoted := !quoted;
      } else if b == BACKSLASH {
        offset := offset + 1;
        if offset >= |source| || Unescaped(source[offset]).None? { return Err(SyntaxInvalid); }
        assert unread[1] == source[offset] && unread[2..] == source[offset + 1..];
        PrefixedConsValue(value, Unescaped(source[offset]).value, ValueFrom(unread[2..], quoted));
        value := value + [Unescaped(source[offset]).value];
      } else if IsRejectedControl(b) {
        return Err(SyntaxInvalid);
      } else {
        PrefixedConsValue(value, b, ValueFrom(unread[1..], quoted));
        value := value + [b];
      }
      offset := offset + 1;
    }
    if quoted { return Err(SyntaxInvalid); }
    assert value + [] == value;
    return Ok(value);
  }

  // ---------- The file ----------

  const TRUE_TEXT: Bytes := [116, 114, 117, 101]

  /** `payload.find(b"=")`, or the length if there is none. */
  function FindEquals(s: Bytes): (n: nat)
    ensures n <= |s|
    ensures n < |s| ==> s[n] == EQUALS
  {
    if s == [] || s[0] == EQUALS then 0 else 1 + FindEquals(s[1..])
  }

  /** A line that is neither blank nor a header. */
  function EntryLine(payload: Bytes): Result<(Bytes, Bytes), ConfigError> {
    var separator := FindEquals(payload);
    var name := Identifier(Strip(payload[..separator]));
    if name.Err? then Err(name.error)
    else if separator == |payload| then Ok((name.value, TRUE_TEXT))
    else
      var value := ConfigValue(payload[separator + 1..]);
      if value.Ok? then Ok((name.value, value.value)) else Err(value.error)
  }

  /** What one logical line is, under the section in force. */
  datatype LineMeaning = Skipped | Opens(section: Section) | Sets(entry: ConfigEntry)

  function Meaning(line: Bytes, section: Option<Section>): Result<LineMeaning, ConfigError> {
    var payload := Strip(WithoutComment(line));
    if payload == [] then Ok(Skipped)
    else if payload[0] == LBRACKET then
      match SectionHeader(payload)
      case Err(e) => Err(e)
      case Ok(current) => Ok(Opens(current))
    else if section.None? then Err(SyntaxInvalid)
    else
      match EntryLine(payload)
      case Err(e) => Err(e)
      case Ok((name, value)) => Ok(Sets(ConfigEntry(section.value.0, section.value.1, name, value)))
  }

  function EntriesFrom(lines: seq<Bytes>, section: Option<Section>, count: nat): Result<seq<ConfigEntry>, ConfigError>
    decreases |lines|
  {
    if lines == [] then Ok([])
    else
      match Meaning(lines[0], section)
      case Err(e) => Err(e)
      case Ok(Skipped) => EntriesFrom(lines[1..], section, count)
      case Ok(Opens(current)) => EntriesFrom(lines[1..], Some(current), count)
      case Ok(Sets(entry)) =>
        if count + 1 > MAX_ENTRIES then Err(LimitExceeded)
        else
          var rest := EntriesFrom(lines[1..], section, count + 1);
          if rest.Ok? then Ok([entry] + rest.value) else rest
  }

  function ParseGitConfig(raw: Bytes): Result<seq<ConfigEntry>, ConfigError> {
    var lines := LogicalLines(raw);
    if lines.Ok? then EntriesFrom(lines.value, None, 0) else Err(lines.error)
  }

  function After(entries: seq<ConfigEntry>, rest: Result<seq<ConfigEntry>, ConfigError>)
    : Result<seq<ConfigEntry>, ConfigError>
  {
    if rest.Ok? then Ok(entries + rest.value) else rest
  }

  lemma {:induction false} AfterNothing(rest: Result<seq<ConfigEntry>, ConfigError>)
    ensures After([], rest) == rest
  {
    if rest.Ok? { assert [] + rest.value == rest.value; }
  }

  lemma {:induction false} AfterOne(entries: seq<ConfigEntry>, e: ConfigEntry,
      rest: Result<seq<ConfigEntry>, ConfigError>)
    ensures After(entries, if rest.Ok? then Ok([e] + rest.value) else rest) == After(entries + [e], rest)
  {
    if rest.Ok? { assert entries + ([e] + rest.value) == (entries + [e]) + rest.value; }
  }

  method ReadEntryLine(payload: Bytes) returns (result: Result<(Bytes, Bytes), ConfigError>)
    ensures result == EntryLine(payload)
  {
    var separator := FindEquals(payload);
    var name := Identifier(Strip(payload[..separator]));
    if name.Err? { return Err(name.error); }
    if separator == |payload| { return Ok((name.value, TRUE_TEXT)); }
    var value := ReadConfigValue(payload[separator + 1..]);
    if value.Err? { return Err(value.error); }
    return Ok((name.value, value.value));
  }

  method ReadMeaning(line: Bytes, section: Option<Section>) returns (result: Result<LineMeaning, ConfigError>)
    ensures result == Meaning(line, section)
  {
    var kept := FindWithoutComment(line);
    var payload := Strip(kept);
    if payload == [] { return Ok(Skipped); }
    if payload[0] == LBRACKET {
      var header := ReadSectionHeader(payload);
      if header.Err? { return Err(header.error); }
      return Ok(Opens(header.value));
    }
    if section.None? { return Err(SyntaxInvalid); }
    var entry := ReadEntryLine(payload);
    if entry.Err? { return Err(entry.error); }
    return Ok(Sets(ConfigEntry(section.value.0, section.value.1, entry.value.0, entry.value.1)));
  }

  /** What the whole file yields, after some of its lines. */
  function Outcome(entries: seq<ConfigEntry>, lines: seq<Bytes>, section: Option<Section>)
    : Result<seq<ConfigEntry>, ConfigError>
  {
    After(entries, EntriesFrom(lines, section, |entries|))
  }

  lemma {:induction false} OutcomeStep(entries: seq<ConfigEntry>, lines: seq<Bytes>, section: Option<Section>)
    requires lines != []
    ensures Outcome(entries, lines, section) ==
      match Meaning(lines[0], section)
      case Err(e) => Err(e)
      case Ok(Skipped) => Outcome(entries, lines[1..], section)
      case Ok(Opens(current)) => Outcome(entries, lines[1..], Some(current))
      case Ok(Sets(e)) =>
        if |entries| + 1 > MAX_ENTRIES then Err(LimitExceeded) else Outcome(entries + [e], lines[1..], section)
  {
    var m := Meaning(lines[0], section);
    if m.Ok? && m.value.Sets? { AfterOne(entries, m.value.entry, EntriesFrom(lines[1..], section, |entries| + 1)); }
  }

  method ReadEntries(lines: seq<Bytes>) returns (result: Result<seq<ConfigEntry>, ConfigError>)
    ensures result == EntriesFrom(lines, None, 0)
  {
    var section: Option<Section> := None;
    var entries: seq<ConfigEntry> := [];
    AfterNothing(EntriesFrom(lines, None, 0));
    assert lines[0..] == lines;
    for index := 0 to |lines|
      invariant EntriesFrom(lines, None, 0) == Outcome(entries, lines[index..], section)
    {
      OutcomeStep(entries, lines[index..], section);
      assert lines[index..][1..] == lines[index + 1..];
      var meaning := ReadMeaning(lines[index], section);
      match meaning {
        case Err(e) => return Err(e);
        case Ok(Skipped) =>
        case Ok(Opens(current)) => section := Some(current);
        case Ok(Sets(e)) =>
          entries := entries + [e];
          if |entries| > MAX_ENTRIES { return Err(LimitExceeded); }
      }
    }
    assert lines[|lines|..] == [] && entries + [] == entries;
    return Ok(entries);
  }

  /** `parse_git_config` */
  method ReadGitConfig(raw: Bytes) returns (result: Result<seq<ConfigEntry>, ConfigError>)
    ensures result == ParseGitConfig(raw)
  {
    var lines := ReadLogicalLines(raw);
    if lines.Err? { return Err(lines.error); }
    result := ReadEntries(lines.value);
  }
}
