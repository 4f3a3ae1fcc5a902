/**
  Printing configuration entries in any of many layouts, and reading them back. The syntax is that of
  git-config(1), section "Syntax".
*/
module GitConfigPrinting {
  import opened Wrappers
  import opened Sequences
  import opened ByteStrings
  import opened GitConfig

  /** A value is left out (which means "true") or written as adjacent quoted pieces, one to a physical line. */
  datatype ValueLayout = Bare | Pieces(first: Bytes, more: seq<Bytes>)

  datatype EntryLayout = EntryLayout(
    section: Bytes,
    subsection: Option<Bytes>,
    headerComment: Bytes,
    name: Bytes,
    value: ValueLayout,
    indent: Bytes,
    comment: Bytes)

  // ---------- Printing ----------

  function Escape(b: byte): Bytes {
    if b == QUOTE || b == BACKSLASH then [BACKSLASH, b]
    else if b == LF then [BACKSLASH, 110]
    else if b == TAB then [BACKSLASH, 116]
    else if b == BACKSPACE then [BACKSLASH, 98]
    else [b]
  }

  function Escaped(s: Bytes): Bytes {
    if s == [] then [] else Escape(s[0]) + Escaped(s[1..])
  }

  function InQuotes(s: Bytes): Bytes { [QUOTE] + Escaped(s) + [QUOTE] }

  function AllInQuotes(pieces: seq<Bytes>): Bytes {
    if pieces == [] then [] else InQuotes(pieces[0]) + AllInQuotes(pieces[1..])
  }

  function Trail(comment: Bytes): Bytes { if comment == [] then [] else [SPACE] + comment }

  function HeaderText(e: EntryLayout): Bytes {
    [LBRACKET] + (e.section + (if e.subsection.Some? then [SPACE] + InQuotes(e.subsection.value) else [])) + [RBRACKET]
  }

  function KeyText(e: EntryLayout): Bytes {
    match e.value
    case Bare => [TAB] + e.name
    case Pieces(first, _) => [TAB] + e.name + [SPACE, EQUALS, SPACE] + InQuotes(first)
  }

  /** The physical lines of a text and the pieces that continue it, each on a line of its own. */
  function PieceLines(lead: Bytes, text: Bytes, more: seq<Bytes>, indent: Bytes, trail: Bytes, eol: Bytes): seq<Bytes>
    decreases |more|
  {
    if more == [] then [lead + (text + trail) + eol]
    else [lead + (text + [BACKSLASH]) + eol] + PieceLines(indent, InQuotes(more[0]), more[1..], indent, trail, eol)
  }

  function MorePieces(e: EntryLayout): seq<Bytes> { if e.value.Pieces? then e.value.more else [] }

  function EntryLines(e: EntryLayout, eol: Bytes): seq<Bytes> {
    [HeaderText(e) + Trail(e.headerComment) + eol] +
    PieceLines([], KeyText(e), MorePieces(e), e.indent, Trail(e.comment), eol)
  }

  function FileLines(entries: seq<EntryLayout>, eol: Bytes): seq<Bytes> {
    if entries == [] then [] else EntryLines(entries[0], eol) + FileLines(entries[1..], eol)
  }

  function Terminated(lines: seq<Bytes>): Bytes {
    if lines == [] then [] else lines[0] + [LF] + Terminated(lines[1..])
  }

  /** The file, with `eol` before every line feed: nothing, or a carriage return. */
  function Print(entries: seq<EntryLayout>, eol: Bytes): Bytes {
    Terminated(FileLines(entries, eol))
  }

  function EntryOf(e: EntryLayout): ConfigEntry {
    ConfigEntry(e.section, e.subsection, e.name,
      match e.value case Bare => TRUE_TEXT case Pieces(first, more) => Concat([first] + more))
  }

  function EntriesOf(entries: seq<EntryLayout>): seq<ConfigEntry> {
    if entries == [] then [] else [EntryOf(entries[0])] + EntriesOf(entries[1..])
  }

  // ---------- What can be printed ----------

  predicate LowerIdentifier(s: Bytes) {
    IsIdentifier(s) && forall i | 0 <= i < |s| :: !(65 <= s[i] <= 90)
  }

  predicate Representable(s: Bytes) {
    forall b | b in s :: b >= 32 || b == LF || b == TAB || b == BACKSPACE
  }

  predicate ValidComment(c: Bytes) {
    && (c != [] ==> c[0] == HASH || c[0] == SEMICOLON)
    && NUL !in c && LF !in c && CR !in c
  }

  predicate ValidLayout(e: EntryLayout) {
    && LowerIdentifier(e.section) && LowerIdentifier(e.name)
    && (e.subsection.Some? ==> forall b | b in e.subsection.value :: b >= 32)
    && (e.value.Pieces? ==> Representable(e.value.first) && forall p | p in e.value.more :: Representable(p))
    && (forall b | b in e.indent :: IsBlank(b))
    && ValidComment(e.headerComment) && ValidComment(e.comment)
  }

  // ---------- Comments ----------

  /** The quoting state after a text, unless a comment begins in it. */
  function Scan(s: Bytes, quoted: bool, escaped: bool): Option<(bool, bool)> {
    if s == [] then Some((quoted, escaped))
    else if escaped then Scan(s[1..], quoted, false)
    else if s[0] == BACKSLASH then Scan(s[1..], quoted, true)
    else if s[0] == QUOTE then Scan(s[1..], !quoted, false)
    else if !quoted && (s[0] == HASH || s[0] == SEMICOLON) then None
    else Scan(s[1..], quoted, false)
  }

  lemma {:induction false} KeptAfter(a: Bytes, b: Bytes, quoted: bool, escaped: bool)
    requires Scan(a, quoted, escaped).Some?
    ensures KeptLength(a + b, quoted, escaped) ==
      |a| + KeptLength(b, Scan(a, quoted, escaped).value.0, Scan(a, quoted, escaped).value.1)
  {
    if a == [] {
      assert a + b == b;
    } else {
      assert (a + b)[1..] == a[1..] + b;
      if escaped { KeptAfter(a[1..], b, quoted, false); }
      else if a[0] == BACKSLASH { KeptAfter(a[1..], b, quoted, true); }
      else if a[0] == QUOTE { KeptAfter(a[1..], b, !quoted, false); }
      else { KeptAfter(a[1..], b, quoted, false); }
    }
  }

  lemma {:induction false} ScanConcat(a: Bytes, b: Bytes, quoted: bool, escaped: bool)
    requires Scan(a, quoted, escaped).Some?
    ensures Scan(a + b, quoted, escaped) == Scan(b, Scan(a, quoted, escaped).value.0, Scan(a, quoted, escaped).value.1)
  {
    if a == [] {
      assert a + b == b;
    } else {
      assert (a + b)[1..] == a[1..] + b;
      if escaped { ScanConcat(a[1..], b, quoted, false); }
      else if a[0] == BACKSLASH { ScanConcat(a[1..], b, quoted, true); }
      else if a[0] == QUOTE { ScanConcat(a[1..], b, !quoted, false); }
      else { ScanConcat(a[1..], b, quoted, false); }
    }
  }

  /** A text that neither opens a quotation nor a comment. */
  predicate Neutral(s: Bytes) { Scan(s, false, false) == Some((false, false)) }

  lemma {:induction false} NeutralConcat(a: Bytes, b: Bytes)
    requires Neutral(a)
    ensures Neutral(a + b) <==> Neutral(b)
  {
    ScanConcat(a, b, false, false);
  }

  predicate PlainByte(b: byte) { b != BACKSLASH && b != QUOTE && b != HASH && b != SEMICOLON }

  lemma {:induction false} PlainIsNeutral(s: Bytes)
    requires forall b | b in s :: PlainByte(b)
    ensures Neutral(s)
  {
    if s != [] {
      assert PlainByte(s[0]);
      assert forall b | b in s[1..] :: b in s;
      PlainIsNeutral(s[1..]);
    }
  }

  lemma {:induction false} ScanEscape(b: byte)
    ensures Scan(Escape(b), true, false) == Some((true, false))
  {
    var e := Escape(b);
    if |e| == 2 {
      assert e[1..] == [e[1]] && [e[1]][1..] == [];
      assert Scan([e[1]], true, true) == Some((true, false));
    } else {
      assert e[1..] == [];
    }
  }

  lemma {:induction false} ScanEscaped(s: Bytes)
    ensures Scan(Escaped(s), true, false) == Some((true, false))
  {
    if s != [] {
      ScanEscaped(s[1..]);
      ScanEscape(s[0]);
      ScanConcat(Escape(s[0]), Escaped(s[1..]), true, false);
    }
  }

  lemma {:induction false} QuotedIsNeutral(s: Bytes)
    ensures Neutral(InQuotes(s))
  {
    ScanEscaped(s);
    ScanConcat(Escaped(s), [QUOTE], true, false);
    assert [QUOTE][1..] == [];
    assert InQuotes(s)[1..] == Escaped(s) + [QUOTE];
  }

  // ---------- Blanks ----------

  lemma {:induction false} LeftStripBlanks(blanks: Bytes, s: Bytes)
    requires forall b | b in blanks :: IsBlank(b)
    requires s == [] || !IsBlank(s[0])
    ensures LeftStrip(blanks + s) == s
  {
    if blanks == [] {
      assert blanks + s == s;
    } else {
      assert IsBlank(blanks[0]);
      assert (blanks + s)[1..] == blanks[1..] + s;
      LeftStripBlanks(blanks[1..], s);
    }
  }

  lemma {:induction false} RightStripBlanks(s: Bytes, blanks: Bytes)
    requires forall b | b in blanks :: IsBlank(b)
    requires s == [] || !IsBlank(s[|s| - 1])
    ensures RightStrip(s + blanks) == s
  {
    if blanks == [] {
      assert s + blanks == s;
    } else {
      var n := |blanks| - 1;
      assert IsBlank(blanks[n]);
      assert (s + blanks)[..|s| + n] == s + blanks[..n];
      RightStripBlanks(s, blanks[..n]);
    }
  }

  /** Text that is not blank at either end survives stripping. */
  predicate Solid(s: Bytes) { s != [] && !IsBlank(s[0]) && !IsBlank(s[|s| - 1]) }

  lemma {:induction false} StripSolid(left: Bytes, s: Bytes, right: Bytes)
    requires Solid(s) && (forall b | b in left :: IsBlank(b)) && (forall b | b in right :: IsBlank(b))
    ensures Strip(left + (s + right)) == s
  {
    LeftStripBlanks(left, s + right);
    RightStripBlanks(s, right);
  }

  // ---------- Header lines ----------

  lemma {:induction false} UnescapeEscaped(b: byte)
    ensures |Escape(b)| == 2 ==> Escape(b)[0] == BACKSLASH && Unescaped(Escape(b)[1]) == Some(b)
    ensures |Escape(b)| == 1 ==> Escape(b) == [b] && b != BACKSLASH && b != QUOTE
    ensures |Escape(b)| == 1 || |Escape(b)| == 2
  {}

  lemma {:induction false} EscapedByteIsRead(b: byte, tail: Bytes)
    requires Representable([b])
    ensures QuotedBody(Escape(b) + tail) == Cons(b, QuotedBody(tail))
  {
    assert b in [b];
    UnescapeEscaped(b);
    assert (Escape(b) + tail)[|Escape(b)|..] == tail;
  }

  lemma {:induction false} QuotedBodyEscaped(s: Bytes, rest: Bytes)
    requires Representable(s)
    ensures QuotedBody(Escaped(s) + [QUOTE] + rest) == Ok((s, |rest|))
  {
    var text := Escaped(s) + [QUOTE] + rest;
    if s == [] {
      assert text[0] == QUOTE;
    } else {
      assert s[0] in s && forall b | b in s[1..] :: b in s;
      var tail := Escaped(s[1..]) + [QUOTE] + rest;
      assert text == Escape(s[0]) + tail;
      EscapedByteIsRead(s[0], tail);
      QuotedBodyEscaped(s[1..], rest);
      assert [s[0]] + s[1..] == s;
    }
  }

  lemma {:induction false} IdentifierIsPlain(s: Bytes)
    requires LowerIdentifier(s)
    ensures forall b | b in s :: PlainByte(b) && !IsBlank(b) && b != DOT && b != EQUALS && b >= 32
    ensures Identifier(s) == Ok(s) && Neutral(s) && Solid(s)
  {
    forall b | b in s ensures IsIdentifierByte(b) {
      var i :| 0 <= i < |s| && s[i] == b;
      if i == 0 { assert IsLetter(s[0]); }
    }
    assert Lower(s) == s;
    PlainIsNeutral(s);
  }

  lemma {:induction false} NameLengthOf(name: Bytes, rest: Bytes)
    requires forall b | b in name :: b != DOT && !IsBlank(b)
    requires rest == [] || IsBlank(rest[0])
    ensures NameLength(name + rest) == |name|
  {
    if name == [] {
      assert name + rest == rest;
    } else {
      assert name[0] in name && forall b | b in name[1..] :: b in name;
      assert (name + rest)[1..] == name[1..] + rest;
      NameLengthOf(name[1..], rest);
    }
  }

  function HeaderInner(section: Bytes, subsection: Option<Bytes>): Bytes {
    section + (if subsection.Some? then [SPACE] + InQuotes(subsection.value) else [])
  }

  lemma {:induction false} QuotedSubsectionOf(s: Bytes)
    requires forall b | b in s :: b >= 32
    ensures LeftStrip([SPACE] + InQuotes(s)) == InQuotes(s)
    ensures QuotedSubsection(InQuotes(s)) == Ok(s)
  {
    LeftStripBlanks([SPACE], InQuotes(s));
    QuotedBodyEscaped(s, []);
    assert InQuotes(s)[1..] == Escaped(s) + [QUOTE] + [];
    assert InQuotes(s)[|InQuotes(s)|..] == [];
  }

  lemma {:induction false} HeaderInsideOf(section: Bytes, subsection: Option<Bytes>)
    requires LowerIdentifier(section)
    requires subsection.Some? ==> forall b | b in subsection.value :: b >= 32
    ensures HeaderInside(HeaderInner(section, subsection)) == Ok((section, subsection))
  {
    IdentifierIsPlain(section);
    var rest := if subsection.Some? then [SPACE] + InQuotes(subsection.value) else [];
    NameLengthOf(section, rest);
    assert (section + rest)[..|section|] == section && (section + rest)[|section|..] == rest;
    if subsection.Some? { QuotedSubsectionOf(subsection.value); }
  }

  lemma {:induction false} BracketedIsNeutral(inner: Bytes)
    requires Neutral(inner)
    ensures Neutral([LBRACKET] + inner + [RBRACKET])
  {
    PlainIsNeutral([LBRACKET]);
    PlainIsNeutral([RBRACKET]);
    NeutralConcat([LBRACKET], inner);
    NeutralConcat([LBRACKET] + inner, [RBRACKET]);
  }

  lemma {:induction false} StripsToItself(s: Bytes)
    requires Solid(s)
    ensures Strip(s) == s
  {
    StripSolid([], s, []);
    assert [] + (s + []) == s;
  }

  lemma {:induction false} BracketedHeader(inner: Bytes, section: Section)
    requires Neutral(inner) && Solid(inner) && HeaderInside(inner) == Ok(section)
    ensures SectionHeader([LBRACKET] + inner + [RBRACKET]) == Ok(section)
  {
    var payload := [LBRACKET] + inner + [RBRACKET];
    BracketedIsNeutral(inner);
    NeutralHasNoComment(payload);
    StripsToItself(payload);
    assert payload[1..|payload| - 1] == inner;
    StripsToItself(inner);
  }

  lemma {:induction false} HeaderTextFacts(e: EntryLayout)
    requires ValidLayout(e)
    ensures Neutral(HeaderText(e)) && Solid(HeaderText(e)) && HeaderText(e)[0] == LBRACKET
    ensures SectionHeader(HeaderText(e)) == Ok((e.section, e.subsection))
  {
    var inner := HeaderInner(e.section, e.subsection);
    HeaderInnerFacts(e);
    HeaderInsideOf(e.section, e.subsection);
    BracketedIsNeutral(inner);
    BracketedHeader(inner, (e.section, e.subsection));
  }

  lemma {:induction false} HeaderInnerFacts(e: EntryLayout)
    requires ValidLayout(e)
    ensures Neutral(HeaderInner(e.section, e.subsection)) && Solid(HeaderInner(e.section, e.subsection))
  {
    IdentifierIsPlain(e.section);
    if e.subsection.Some? {
      QuotedIsNeutral(e.subsection.value);
      PlainIsNeutral([SPACE]);
      NeutralConcat([SPACE], InQuotes(e.subsection.value));
      NeutralConcat(e.section, [SPACE] + InQuotes(e.subsection.value));
    } else {
      assert e.section + [] == e.section;
    }
  }

  lemma {:induction false} NeutralHasNoComment(s: Bytes)
    requires Neutral(s)
    ensures WithoutComment(s) == s
  {
    KeptAfter(s, [], false, false);
    assert s + [] == s;
  }

  /** A comment after a neutral text is dropped, the blank before it stays. */
  lemma {:induction false} TrailIsDropped(s: Bytes, comment: Bytes)
    requires Neutral(s) && ValidComment(comment)
    ensures WithoutComment(s + Trail(comment)) == s + (if comment == [] then [] else [SPACE])
    ensures comment != [] ==> |WithoutComment(s + Trail(comment))| < |s + Trail(comment)|
  {
    KeptAfter(s, Trail(comment), false, false);
    if comment != [] {
      assert Trail(comment)[1..] == comment;
      assert (s + Trail(comment))[..|s| + 1] == s + [SPACE];
    } else {
      assert s + Trail(comment) == s;
    }
  }

  lemma {:induction false} PayloadOf(left: Bytes, s: Bytes, comment: Bytes)
    requires Neutral(left + s) && Solid(s) && (forall b | b in left :: IsBlank(b)) && ValidComment(comment)
    ensures Strip(WithoutComment(left + s + Trail(comment))) == s
  {
    TrailIsDropped(left + s, comment);
    var right: Bytes := if comment == [] then [] else [SPACE];
    StripSolid(left, s, right);
    assert left + s + right == left + (s + right);
  }

  lemma {:induction false} HeaderMeaning(e: EntryLayout, section: Option<Section>)
    requires ValidLayout(e)
    ensures Meaning(HeaderText(e) + Trail(e.headerComment), section) == Ok(Opens((e.section, e.subsection)))
  {
    HeaderTextFacts(e);
    assert [] + HeaderText(e) == HeaderText(e);
    PayloadOf([], HeaderText(e), e.headerComment);
  }

  // ---------- Key lines ----------

  lemma {:induction false} ValueOfEscaped(s: Bytes, rest: Bytes)
    requires Representable(s)
    ensures ValueFrom(Escaped(s) + rest, true) == PrefixedValue(s, ValueFrom(rest, true))
  {
    var text := Escaped(s) + rest;
    if s == [] {
      assert text == rest;
      PrefixedNoValue(ValueFrom(rest, true));
    } else {
      UnescapeEscaped(s[0]);
      assert s[0] in s && forall b | b in s[1..] :: b in s;
      ValueOfEscaped(s[1..], rest);
      var e := Escape(s[0]);
      assert text == e + (Escaped(s[1..]) + rest);
      assert text[|e|..] == Escaped(s[1..]) + rest;
      ConsPrefixedValue(s[0], s[1..], ValueFrom(rest, true));
      assert [s[0]] + s[1..] == s;
    }
  }

  lemma {:induction false} ConsPrefixedValue(b: byte, s: Bytes, rest: Result<Bytes, ConfigError>)
    ensures ConsValue(b, PrefixedValue(s, rest)) == PrefixedValue([b] + s, rest)
  {
    if rest.Ok? { assert [b] + (s + rest.value) == ([b] + s) + rest.value; }
  }

  lemma {:induction false} ValueOfQuoted(s: Bytes, rest: Bytes)
    requires Representable(s)
    ensures ValueFrom(InQuotes(s) + rest, false) == PrefixedValue(s, ValueFrom(rest, false))
  {
    var text := InQuotes(s) + rest;
    assert text[1..] == Escaped(s) + ([QUOTE] + rest);
    ValueOfEscaped(s, [QUOTE] + rest);
    assert ([QUOTE] + rest)[1..] == rest;
  }

  lemma {:induction false} ValueOfPieces(pieces: seq<Bytes>)
    requires forall p | p in pieces :: Representable(p)
    ensures ValueFrom(AllInQuotes(pieces), false) == Ok(Concat(pieces))
  {
    if pieces != [] {
      assert pieces[0] in pieces && forall p | p in pieces[1..] :: p in pieces;
      ValueOfPieces(pieces[1..]);
      ValueOfQuoted(pieces[0], AllInQuotes(pieces[1..]));
    }
  }

  lemma {:induction false} PiecesAreNeutral(pieces: seq<Bytes>)
    ensures Neutral(AllInQuotes(pieces))
    ensures pieces != [] ==> Solid(AllInQuotes(pieces))
  {
    if pieces != [] {
      PiecesAreNeutral(pieces[1..]);
      QuotedIsNeutral(pieces[0]);
      NeutralConcat(InQuotes(pieces[0]), AllInQuotes(pieces[1..]));
      if pieces[1..] == [] { assert AllInQuotes(pieces) == InQuotes(pieces[0]); }
    }
  }

  /** The whole key line, with its continuations joined. */
  function JoinedKey(name: Bytes, pieces: seq<Bytes>): Bytes {
    name + (if pieces == [] then [] else [SPACE, EQUALS, SPACE] + AllInQuotes(pieces))
  }

  lemma {:induction false} FindEqualsAfter(s: Bytes, rest: Bytes)
    requires EQUALS !in s
    ensures FindEquals(s + rest) == |s| + FindEquals(rest)
  {
    if s == [] {
      assert s + rest == rest;
    } else {
      assert (s + rest)[1..] == s[1..] + rest;
      FindEqualsAfter(s[1..], rest);
    }
  }

  lemma {:induction false} JoinedKeyFacts(name: Bytes, pieces: seq<Bytes>)
    requires LowerIdentifier(name)
    ensures Neutral(JoinedKey(name, pieces)) && Solid(JoinedKey(name, pieces)) && JoinedKey(name, pieces)[0] != LBRACKET
  {
    IdentifierIsPlain(name);
    if pieces != [] {
      PiecesAreNeutral(pieces);
      PlainIsNeutral([SPACE, EQUALS, SPACE]);
      NeutralConcat([SPACE, EQUALS, SPACE], AllInQuotes(pieces));
      NeutralConcat(name, [SPACE, EQUALS, SPACE] + AllInQuotes(pieces));
    } else {
      assert name + [] == name;
    }
  }

  lemma {:induction false} JoinedKeyMeansEntry(name: Bytes, pieces: seq<Bytes>)
    requires LowerIdentifier(name) && forall p | p in pieces :: Representable(p)
    ensures EntryLine(JoinedKey(name, pieces)) == Ok((name, if pieces == [] then TRUE_TEXT else Concat(pieces)))
  {
    IdentifierIsPlain(name);
    var key := JoinedKey(name, pieces);
    if pieces == [] {
      FindEqualsAfter(name, []);
      assert key == name && name + [] == name && key[..|key|] == name;
      StripSolid([], name, []);
      assert [] + (name + []) == name;
    } else {
      var quoted := AllInQuotes(pieces);
      var rest := [SPACE, EQUALS, SPACE] + quoted;
      FindEqualsAfter(name, rest);
      EqualsIsSecond(rest);
      assert key[..|name| + 1] == [] + (name + [SPACE]);
      StripSolid([], name, [SPACE]);
      assert key[|name| + 2..] == [SPACE] + (quoted + []);
      PiecesAreNeutral(pieces);
      StripSolid([SPACE], quoted, []);
      ValueOfPieces(pieces);
    }
  }

  lemma {:induction false} EqualsIsSecond(rest: Bytes)
    requires |rest| >= 2 && rest[0] == SPACE && rest[1] == EQUALS
    ensures FindEquals(rest) == 1
  {
    assert rest[1..][0] == EQUALS;
  }

  function PiecesOf(e: EntryLayout): seq<Bytes> {
    match e.value case Bare => [] case Pieces(first, more) => [first] + more
  }

  lemma {:induction false} KeyMeaning(e: EntryLayout)
    requires ValidLayout(e)
    ensures Meaning([TAB] + JoinedKey(e.name, PiecesOf(e)) + Trail(e.comment), Some((e.section, e.subsection)))
      == Ok(Sets(EntryOf(e)))
  {
    var key := JoinedKey(e.name, PiecesOf(e));
    JoinedKeyFacts(e.name, PiecesOf(e));
    JoinedKeyMeansEntry(e.name, PiecesOf(e));
    PlainIsNeutral([TAB]);
    NeutralConcat([TAB], key);
    PayloadOf([TAB], key, e.comment);
  }

  // ---------- Joining and splitting lines ----------

  predicate NoReturn(s: Bytes) { CR !in s }

  predicate Eol(eol: Bytes) { eol == [] || eol == [CR] }

  lemma {:induction false} ReturnIsDropped(s: Bytes, eol: Bytes)
    requires NoReturn(s) && Eol(eol)
    ensures WithoutReturn(s + eol) == s
  {
    if eol == [] {
      assert s + eol == s;
    } else {
      assert (s + eol)[..|s|] == s;
    }
  }

  lemma {:induction false} BackslashContinues(text: Bytes)
    requires Neutral(text)
    ensures Continues(text + [BACKSLASH])
  {
    KeptAfter(text, [BACKSLASH], false, false);
  }

  lemma {:induction false} TrailEndsLine(text: Bytes, comment: Bytes)
    requires Neutral(text) && text != [] && text[|text| - 1] != BACKSLASH && ValidComment(comment)
    ensures !Continues(text + Trail(comment))
  {
    TrailIsDropped(text, comment);
    if comment == [] { assert text + Trail(comment) == text; }
  }

  /** A printed physical line, and what it adds to the logical line under way. */
  predicate Prints(pending: Bytes, lead: Bytes, line: Bytes) {
    && line != [] && NoReturn(lead) && NoReturn(line)
    && if pending == [] then lead == [] else !IsBlank(line[0]) && forall b | b in lead :: IsBlank(b)
  }

  lemma {:induction false} PrintedJoins(pending: Bytes, lead: Bytes, line: Bytes, eol: Bytes)
    requires Prints(pending, lead, line) && Eol(eol)
    ensures WithoutReturn(lead + line + eol) == lead + line && CR !in lead + line
    ensures Joined(pending, lead + line + eol) == line
  {
    ReturnIsDropped(lead + line, eol);
    if pending == [] { assert lead + line == line; } else { LeftStripBlanks(lead, line); }
  }

  /** A line that ends the logical line. */
  lemma {:induction false} LastLineJoins(pending: Bytes, lead: Bytes, line: Bytes, eol: Bytes, rest: seq<Bytes>)
    requires Prints(pending, lead, line) && Eol(eol) && !Continues(line)
    requires |pending + line| <= MAX_LOGICAL_LINE_BYTES
    ensures LogicalFrom([lead + line + eol] + rest, pending) == Prepended([pending + line], LogicalFrom(rest, []))
  {
    PrintedJoins(pending, lead, line, eol);
    assert ([lead + line + eol] + rest)[1..] == rest;
  }

  /** A line that is continued on the next one. */
  lemma {:induction false} ContinuedLineJoins(pending: Bytes, lead: Bytes, text: Bytes, eol: Bytes, rest: seq<Bytes>)
    requires Prints(pending, lead, text + [BACKSLASH]) && Eol(eol) && Neutral(text)
    requires |pending + text| <= MAX_LOGICAL_LINE_BYTES && rest != []
    ensures LogicalFrom([lead + (text + [BACKSLASH]) + eol] + rest, pending) == LogicalFrom(rest, pending + text)
  {
    BackslashContinues(text);
    PrintedJoins(pending, lead, text + [BACKSLASH], eol);
    assert ([lead + (text + [BACKSLASH]) + eol] + rest)[1..] == rest;
    assert (text + [BACKSLASH])[..|text|] == text;
  }

  /** The logical line that the physical lines of an entry make. */
  function JoinedPieces(text: Bytes, more: seq<Bytes>, trail: Bytes): Bytes
    decreases |more|
  {
    if more == [] then text + trail else text + JoinedPieces(InQuotes(more[0]), more[1..], trail)
  }

  /** A text that may begin a physical line. */
  predicate LineText(text: Bytes) {
    Neutral(text) && text != [] && text[|text| - 1] != BACKSLASH && NoReturn(text)
  }

  lemma {:induction false} QuotedLineText(s: Bytes)
    requires Representable(s)
    ensures LineText(InQuotes(s))
  {
    QuotedIsNeutral(s);
    EscapedIsPrintable(s);
  }

  lemma {:induction false} EscapedIsPrintable(s: Bytes)
    requires Representable(s)
    ensures forall b | b in Escaped(s) :: b >= 32
  {
    if s != [] {
      assert s[0] in s && forall b | b in s[1..] :: b in s;
      EscapedIsPrintable(s[1..]);
    }
  }

  predicate BlankIndent(indent: Bytes) { forall b | b in indent :: IsBlank(b) }

  /** The physical lines after the first one. */
  function LaterLines(more: seq<Bytes>, indent: Bytes, trail: Bytes, eol: Bytes): seq<Bytes>
    requires more != []
  {
    PieceLines(indent, InQuotes(more[0]), more[1..], indent, trail, eol)
  }

  lemma {:induction false} FirstPieceJoins(pending: Bytes, lead: Bytes, text: Bytes, more: seq<Bytes>, indent: Bytes,
      trail: Bytes, eol: Bytes, rest: seq<Bytes>)
    requires LineText(text) && Prints(pending, lead, text) && Eol(eol) && more != []
    requires |pending + text| <= MAX_LOGICAL_LINE_BYTES
    ensures LogicalFrom(PieceLines(lead, text, more, indent, trail, eol) + rest, pending)
      == LogicalFrom(LaterLines(more, indent, trail, eol) + rest, pending + text)
  {
    var first := lead + (text + [BACKSLASH]) + eol;
    var later := LaterLines(more, indent, trail, eol);
    assert PieceLines(lead, text, more, indent, trail, eol) + rest == [first] + (later + rest);
    ContinuedLineJoins(pending, lead, text, eol, later + rest);
  }

  /** The continuation lines of an entry are joined to what came before, each without its indentation. */
  lemma {:induction false} PiecesJoin(pending: Bytes, lead: Bytes, text: Bytes, more: seq<Bytes>, indent: Bytes,
      comment: Bytes, eol: Bytes, rest: seq<Bytes>)
    requires LineText(text) && Prints(pending, lead, text) && BlankIndent(indent) && ValidComment(comment) && Eol(eol)
    requires forall p | p in more :: Representable(p)
    requires |pending| + |JoinedPieces(text, more, Trail(comment))| <= MAX_LOGICAL_LINE_BYTES
    ensures LogicalFrom(PieceLines(lead, text, more, indent, Trail(comment), eol) + rest, pending)
      == Prepended([pending + JoinedPieces(text, more, Trail(comment))], LogicalFrom(rest, []))
    decreases |more|, 1
  {
    if more == [] {
      TrailEndsLine(text, comment);
      LastLineJoins(pending, lead, text + Trail(comment), eol, rest);
    } else {
      FirstPieceJoins(pending, lead, text, more, indent, Trail(comment), eol, rest);
      LaterPiecesJoin(pending, text, more, indent, comment, eol, rest);
    }
  }

  lemma {:induction false} LaterPiecesJoin(pending: Bytes, text: Bytes, more: seq<Bytes>, indent: Bytes,
      comment: Bytes, eol: Bytes, rest: seq<Bytes>)
    requires text != [] && BlankIndent(indent) && ValidComment(comment) && Eol(eol)
    requires more != [] && forall p | p in more :: Representable(p)
    requires |pending| + |JoinedPieces(text, more, Trail(comment))| <= MAX_LOGICAL_LINE_BYTES
    ensures LogicalFrom(LaterLines(more, indent, Trail(comment), eol) + rest, pending + text)
      == Prepended([pending + JoinedPieces(text, more, Trail(comment))], LogicalFrom(rest, []))
    decreases |more|, 0
  {
    var next, joined := InQuotes(more[0]), JoinedPieces(InQuotes(more[0]), more[1..], Trail(comment));
    assert more[0] in more && forall p | p in more[1..] :: p in more;
    QuotedLineText(more[0]);
    assert (pending + text) + joined == pending + (text + joined);
    PiecesJoin(pending + text, indent, next, more[1..], indent, comment, eol, rest);
  }

  // ---------- Whole files ----------

  function KeyLine(e: EntryLayout): Bytes {
    [TAB] + JoinedKey(e.name, PiecesOf(e)) + Trail(e.comment)
  }

  function HeaderLine(e: EntryLayout): Bytes {
    HeaderText(e) + Trail(e.headerComment)
  }

  lemma {:induction false} JoinedPiecesText(text: Bytes, more: seq<Bytes>, trail: Bytes)
    ensures JoinedPieces(text, more, trail) == text + (AllInQuotes(more) + trail)
    decreases |more|
  {
    if more == [] {
      assert [] + trail == trail;
    } else {
      JoinedPiecesText(InQuotes(more[0]), more[1..], trail);
      assert InQuotes(more[0]) + (AllInQuotes(more[1..]) + trail) == AllInQuotes(more) + trail;
    }
  }

  lemma {:induction false} KeyTextFacts(e: EntryLayout)
    requires ValidLayout(e)
    ensures LineText(KeyText(e)) && Prints([], [], KeyText(e))
    ensures JoinedPieces(KeyText(e), MorePieces(e), Trail(e.comment)) == KeyLine(e)
  {
    JoinedPiecesText(KeyText(e), MorePieces(e), Trail(e.comment));
    match e.value {
      case Bare =>
        IdentifierIsPlain(e.name);
        PlainIsNeutral([TAB]);
        NeutralConcat([TAB], e.name);
        assert e.name + [] == e.name && [] + Trail(e.comment) == Trail(e.comment);
      case Pieces(first, more) =>
        FirstPieceFacts(e.name, first);
        assert PiecesOf(e)[1..] == more;
        KeyAssociates(e.name, InQuotes(first), AllInQuotes(more), Trail(e.comment));
    }
  }

  lemma {:induction false} FirstPieceFacts(name: Bytes, first: Bytes)
    requires LowerIdentifier(name) && Representable(first)
    ensures LineText([TAB] + name + [SPACE, EQUALS, SPACE] + InQuotes(first))
  {
    IdentifierIsPlain(name);
    QuotedLineText(first);
    PlainIsNeutral([TAB]);
    NeutralConcat([TAB], name);
    PlainIsNeutral([SPACE, EQUALS, SPACE]);
    NeutralConcat([SPACE, EQUALS, SPACE], InQuotes(first));
    NeutralConcat([TAB] + name, [SPACE, EQUALS, SPACE] + InQuotes(first));
    assert [TAB] + name + [SPACE, EQUALS, SPACE] + InQuotes(first) == ([TAB] + name)
      + ([SPACE, EQUALS, SPACE] + InQuotes(first));
  }

  lemma {:induction false} KeyAssociates(name: Bytes, first: Bytes, more: Bytes, trail: Bytes)
    ensures ([TAB] + name + [SPACE, EQUALS, SPACE] + first) + (more + trail)
      == [TAB] + (name + ([SPACE, EQUALS, SPACE] + (first + more))) + trail
  {}

  lemma {:induction false} HeaderIsPrintable(e: EntryLayout)
    requires ValidLayout(e)
    ensures forall b | b in HeaderText(e) :: b >= 32
  {
    IdentifierIsPlain(e.section);
    if e.subsection.Some? { EscapedIsPrintable(e.subsection.value); }
  }

  lemma {:induction false} HeaderLineFacts(e: EntryLayout)
    requires ValidLayout(e)
    ensures !Continues(HeaderLine(e)) && Prints([], [], HeaderLine(e))
  {
    HeaderTextFacts(e);
    HeaderIsPrintable(e);
    var text := HeaderText(e);
    assert text[|text| - 1] == RBRACKET;
    TrailEndsLine(text, e.headerComment);
    assert NoReturn(text) && NoReturn(Trail(e.headerComment));
  }

  lemma {:induction false} EntryJoins(e: EntryLayout, eol: Bytes, rest: seq<Bytes>)
    requires ValidLayout(e) && Eol(eol)
    requires |HeaderLine(e)| <= MAX_LOGICAL_LINE_BYTES && |KeyLine(e)| <= MAX_LOGICAL_LINE_BYTES
    ensures LogicalFrom(EntryLines(e, eol) + rest, []) ==
      Prepended([HeaderLine(e)], Prepended([KeyLine(e)], LogicalFrom(rest, [])))
  {
    var header := HeaderLine(e) + eol;
    var keys := PieceLines([], KeyText(e), MorePieces(e), e.indent, Trail(e.comment), eol);
    assert EntryLines(e, eol) + rest == [header] + (keys + rest);
    assert header == [] + HeaderLine(e) + eol && [] + HeaderLine(e) == HeaderLine(e);
    HeaderLineFacts(e);
    LastLineJoins([], [], HeaderLine(e), eol, keys + rest);
    KeyTextFacts(e);
    assert [] + KeyLine(e) == KeyLine(e);
    PiecesJoin([], [], KeyText(e), MorePieces(e), e.indent, e.comment, eol, rest);
  }

  /** What follows the last line feed. */
  lemma {:induction false} LastEmptyLine()
    ensures LogicalFrom([[]], []) == Ok([[]])
  {
    var lines: seq<Bytes> := [[]];
    assert lines[1..] == [];
    assert LogicalFrom(lines[1..], []) == Ok([]);
    assert Joined([], []) == [] && !Continues([]);
    var none: seq<Bytes> := [];
    assert [[]] + none == lines;
  }

  function LogicalOf(entries: seq<EntryLayout>): seq<Bytes> {
    if entries == [] then [[]] else [HeaderLine(entries[0])] + ([KeyLine(entries[0])] + LogicalOf(entries[1..]))
  }

  predicate FitsLines(e: EntryLayout) {
    |HeaderLine(e)| <= MAX_LOGICAL_LINE_BYTES && |KeyLine(e)| <= MAX_LOGICAL_LINE_BYTES
  }

  /** Every entry is valid and its two logical lines fit. */
  predicate AllFit(entries: seq<EntryLayout>) {
    entries == [] || (ValidLayout(entries[0]) && FitsLines(entries[0]) && AllFit(entries[1..]))
  }

  lemma {:induction false} FileJoins(entries: seq<EntryLayout>, eol: Bytes)
    requires AllFit(entries) && Eol(eol)
    ensures LogicalFrom(FileLines(entries, eol) + [[]], []) == Ok(LogicalOf(entries))
  {
    if entries == [] {
      LastEmptyLine();
      assert FileLines(entries, eol) + [[]] == [[]];
    } else {
      FileJoins(entries[1..], eol);
      FirstEntryJoins(entries[0], FileLines(entries[1..], eol) + [[]], LogicalOf(entries[1..]), eol);
      assert FileLines(entries, eol) + [[]] == EntryLines(entries[0], eol) + (FileLines(entries[1..], eol) + [[]]);
    }
  }

  lemma {:induction false} FirstEntryJoins(e: EntryLayout, later: seq<Bytes>, logical: seq<Bytes>, eol: Bytes)
    requires ValidLayout(e) && FitsLines(e) && Eol(eol)
    requires LogicalFrom(later, []) == Ok(logical)
    ensures LogicalFrom(EntryLines(e, eol) + later, []) == Ok([HeaderLine(e)] + ([KeyLine(e)] + logical))
  {
    EntryJoins(e, eol, later);
    PrependedOk([KeyLine(e)], logical);
    PrependedOk([HeaderLine(e)], [KeyLine(e)] + logical);
  }

  lemma {:induction false} PrependedOk(lines: seq<Bytes>, later: seq<Bytes>)
    ensures Prepended(lines, Ok(later)) == Ok(lines + later)
  {}

  lemma {:induction false} LogicalMeansEntries(entries: seq<EntryLayout>, section: Option<Section>, count: nat)
    requires AllFit(entries) && count + |entries| <= MAX_ENTRIES
    ensures EntriesFrom(LogicalOf(entries), section, count) == Ok(EntriesOf(entries))
    decreases |entries|
  {
    if entries == [] {
      EmptyMeansNothing(section, count);
    } else {
      LogicalMeansEntries(entries[1..], Some((entries[0].section, entries[0].subsection)), count + 1);
      EntryLinesMean(entries[0], LogicalOf(entries[1..]), section, count);
    }
  }

  lemma {:induction false} EmptyMeansNothing(section: Option<Section>, count: nat)
    requires count <= MAX_ENTRIES
    ensures EntriesFrom([[]], section, count) == Ok([])
  {
    var lines: seq<Bytes> := [[]];
    assert lines[1..] == [];
    BlankIsSkipped(section);
  }

  /** The two logical lines of an entry: its section is opened, and the entry set in it. */
  lemma {:induction false} EntryLinesMean(e: EntryLayout, rest: seq<Bytes>, section: Option<Section>, count: nat)
    requires ValidLayout(e) && count + 1 <= MAX_ENTRIES
    requires EntriesFrom(rest, Some((e.section, e.subsection)), count + 1).Ok?
    ensures EntriesFrom([HeaderLine(e)] + ([KeyLine(e)] + rest), section, count)
      == Ok([EntryOf(e)] + EntriesFrom(rest, Some((e.section, e.subsection)), count + 1).value)
  {
    HeaderMeaning(e, section);
    KeyMeaning(e);
    OpeningLine(HeaderLine(e), [KeyLine(e)] + rest, section, count, (e.section, e.subsection));
    SettingLine(KeyLine(e), rest, (e.section, e.subsection), count, EntryOf(e));
  }

  lemma {:induction false} BlankIsSkipped(section: Option<Section>)
    ensures Meaning([], section) == Ok(Skipped)
  {
    assert WithoutComment([]) == [];
  }

  lemma {:induction false} OpeningLine(line: Bytes, rest: seq<Bytes>, section: Option<Section>, count: nat,
      current: Section)
    requires Meaning(line, section) == Ok(Opens(current))
    ensures EntriesFrom([line] + rest, section, count) == EntriesFrom(rest, Some(current), count)
  {
    assert ([line] + rest)[1..] == rest;
  }

  lemma {:induction false} SettingLine(line: Bytes, rest: seq<Bytes>, section: Section, count: nat, entry: ConfigEntry)
    requires Meaning(line, Some(section)) == Ok(Sets(entry)) && count + 1 <= MAX_ENTRIES
    requires EntriesFrom(rest, Some(section), count + 1).Ok?
    ensures EntriesFrom([line] + rest, Some(section), count) ==
      Ok([entry] + EntriesFrom(rest, Some(section), count + 1).value)
  {
    assert ([line] + rest)[1..] == rest;
  }

  // ---------- Splitting the printed text ----------

  lemma {:induction false} SplitOneLine(line: Bytes, rest: Bytes)
    requires LF !in line
    ensures SplitLines(line + [LF] + rest) == [line] + SplitLines(rest)
  {
    var text := line + [LF] + rest;
    if line == [] {
      assert text == [LF] + rest && text[1..] == rest;
    } else {
      assert text[1..] == line[1..] + [LF] + rest;
      SplitOneLine(line[1..], rest);
      assert [line[0]] + line[1..] == line;
      assert ([line[1..]] + SplitLines(rest))[1..] == SplitLines(rest);
    }
  }

  lemma {:induction false} SplitTerminated(lines: seq<Bytes>)
    requires forall l | l in lines :: LF !in l
    ensures SplitLines(Terminated(lines)) == lines + [[]]
  {
    if lines == [] {
      assert lines + [[]] == [[]];
    } else {
      assert lines[0] in lines && forall l | l in lines[1..] :: l in lines;
      SplitTerminated(lines[1..]);
      SplitOneLine(lines[0], Terminated(lines[1..]));
      assert [lines[0]] + (lines[1..] + [[]]) == lines + [[]];
    }
  }

  predicate LineBytes(s: Bytes) { forall b | b in s :: b != LF && b != NUL }

  lemma {:induction false} PieceLinesBytes(lead: Bytes, text: Bytes, more: seq<Bytes>, indent: Bytes, trail: Bytes,
      eol: Bytes)
    requires LineBytes(lead) && LineBytes(text) && LineBytes(indent) && LineBytes(trail) && LineBytes(eol)
    requires forall p | p in more :: Representable(p)
    ensures forall l | l in PieceLines(lead, text, more, indent, trail, eol) :: LineBytes(l)
    decreases |more|
  {
    if more != [] {
      assert more[0] in more && forall p | p in more[1..] :: p in more;
      EscapedIsPrintable(more[0]);
      PieceLinesBytes(indent, InQuotes(more[0]), more[1..], indent, trail, eol);
    }
  }

  lemma {:induction false} KeyTextBytes(e: EntryLayout)
    requires ValidLayout(e)
    ensures LineBytes(KeyText(e))
  {
    IdentifierIsPlain(e.name);
    if e.value.Pieces? { EscapedIsPrintable(e.value.first); }
  }

  lemma {:induction false} TrailBytes(comment: Bytes)
    requires ValidComment(comment)
    ensures LineBytes(Trail(comment))
  {}

  lemma {:induction false} EntryLinesBytes(e: EntryLayout, eol: Bytes)
    requires ValidLayout(e) && Eol(eol)
    ensures forall l | l in EntryLines(e, eol) :: LineBytes(l)
  {
    HeaderIsPrintable(e);
    KeyTextBytes(e);
    TrailBytes(e.headerComment);
    TrailBytes(e.comment);
    assert LineBytes(HeaderText(e) + Trail(e.headerComment) + eol);
    PieceLinesBytes([], KeyText(e), MorePieces(e), e.indent, Trail(e.comment), eol);
  }

  lemma {:induction false} FileLinesBytes(entries: seq<EntryLayout>, eol: Bytes)
    requires AllFit(entries) && Eol(eol)
    ensures forall l | l in FileLines(entries, eol) :: LineBytes(l)
  {
    if entries != [] {
      EntryLinesBytes(entries[0], eol);
      FileLinesBytes(entries[1..], eol);
    }
  }

  lemma {:induction false} TerminatedHasNoNul(lines: seq<Bytes>)
    requires forall l | l in lines :: LineBytes(l)
    ensures NUL !in Terminated(lines)
  {
    if lines != [] {
      assert LineBytes(lines[0]) && forall l | l in lines[1..] :: l in lines;
      TerminatedHasNoNul(lines[1..]);
    }
  }

  /** The limits of the parser, on the printed file. */
  predicate WithinLimits(entries: seq<EntryLayout>, eol: Bytes) {
    && |Print(entries, eol)| <= MAX_BYTES
    && |FileLines(entries, eol)| < MAX_PHYSICAL_LINES
    && |entries| <= MAX_ENTRIES
  }

  /**
    Printing entries in any layout (continued values, comments, omitted values, indentation, either line
    ending) and parsing the file gives the same entries back.
  */
  lemma {:induction false} ParsePrinted(entries: seq<EntryLayout>, eol: Bytes)
    requires AllFit(entries) && Eol(eol) && WithinLimits(entries, eol)
    ensures ParseGitConfig(Print(entries, eol)) == Ok(EntriesOf(entries))
  {
    var lines := FileLines(entries, eol);
    FileLinesBytes(entries, eol);
    TerminatedHasNoNul(lines);
    SplitTerminated(lines);
    FileJoins(entries, eol);
    LogicalMeansEntries(entries, None, 0);
  }

  // ---------- What is read can be printed ----------

  predicate PrintableSection(section: Section) {
    LowerIdentifier(section.0) && (section.1.Some? ==> forall b | b in section.1.value :: b >= 32)
  }

  predicate PrintableEntry(e: ConfigEntry) {
    PrintableSection((e.section, e.subsection)) && LowerIdentifier(e.name) && Representable(e.value)
  }

  /** The plainest layout of an entry: its own header, and the value in one piece. */
  function PlainLayout(e: ConfigEntry): EntryLayout {
    EntryLayout(e.section, e.subsection, [], e.name, Pieces(e.value, []), [], [])
  }

  function PlainLayouts(entries: seq<ConfigEntry>): seq<EntryLayout> {
    if entries == [] then [] else [PlainLayout(entries[0])] + PlainLayouts(entries[1..])
  }

  lemma {:induction false} LoweredIsLower(raw: Bytes)
    requires IsIdentifier(raw)
    ensures LowerIdentifier(Lower(raw))
  {}

  lemma {:induction false} HeaderIsPrintableSection(inner: Bytes)
    requires HeaderInside(inner).Ok?
    ensures PrintableSection(HeaderInside(inner).value)
  {
    var boundary := NameLength(inner);
    LoweredIsLower(inner[..boundary]);
    if boundary < |inner| && inner[boundary] == DOT {
      var dotted := inner[boundary + 1..];
      forall b | b in Lower(dotted) ensures b >= 32 {
        var i :| 0 <= i < |dotted| && Lower(dotted)[i] == b;
        assert dotted[i] in dotted;
      }
    }
  }

  lemma {:induction false} ValueIsRepresentable(s: Bytes, quoted: bool)
    requires ValueFrom(s, quoted).Ok?
    ensures Representable(ValueFrom(s, quoted).value)
    decreases |s|
  {
    if s != [] {
      if s[0] == QUOTE { ValueIsRepresentable(s[1..], !quoted); }
      else if s[0] == BACKSLASH { ValueIsRepresentable(s[2..], quoted); }
      else { ValueIsRepresentable(s[1..], quoted); }
    }
  }

  lemma {:induction false} EntryIsPrintable(payload: Bytes)
    requires EntryLine(payload).Ok?
    ensures LowerIdentifier(EntryLine(payload).value.0) && Representable(EntryLine(payload).value.1)
  {
    var separator := FindEquals(payload);
    LoweredIsLower(Strip(payload[..separator]));
    if separator < |payload| { ValueIsRepresentable(Strip(payload[separator + 1..]), false); }
  }

  lemma {:induction false} MeaningIsPrintable(line: Bytes, section: Option<Section>)
    requires Meaning(line, section).Ok? && (section.Some? ==> PrintableSection(section.value))
    ensures Meaning(line, section).value.Opens? ==> PrintableSection(Meaning(line, section).value.section)
    ensures Meaning(line, section).value.Sets? ==> PrintableEntry(Meaning(line, section).value.entry)
  {
    var payload := Strip(WithoutComment(line));
    if payload != [] {
      if payload[0] == LBRACKET {
        var inside := Strip(WithoutComment(payload));
        HeaderIsPrintableSection(Strip(inside[1..|inside| - 1]));
      } else {
        EntryIsPrintable(payload);
      }
    }
  }

  predicate AllPrintable(entries: seq<ConfigEntry>) {
    entries == [] || (PrintableEntry(entries[0]) && AllPrintable(entries[1..]))
  }

  lemma {:induction false} ReadEntriesArePrintable(lines: seq<Bytes>, section: Option<Section>, count: nat)
    requires EntriesFrom(lines, section, count).Ok? && (section.Some? ==> PrintableSection(section.value))
    requires count <= MAX_ENTRIES
    ensures AllPrintable(EntriesFrom(lines, section, count).value)
    ensures count + |EntriesFrom(lines, section, count).value| <= MAX_ENTRIES
    decreases |lines|
  {
    if lines != [] {
      MeaningIsPrintable(lines[0], section);
      match Meaning(lines[0], section).value {
        case Skipped => ReadEntriesArePrintable(lines[1..], section, count);
        case Opens(current) => ReadEntriesArePrintable(lines[1..], Some(current), count);
        case Sets(entry) =>
          ReadEntriesArePrintable(lines[1..], section, count + 1);
          var rest := EntriesFrom(lines[1..], section, count + 1).value;
          assert ([entry] + rest)[1..] == rest;
      }
    }
  }

  lemma {:induction false} PlainLayoutIsValid(e: ConfigEntry)
    requires PrintableEntry(e)
    ensures ValidLayout(PlainLayout(e)) && EntryOf(PlainLayout(e)) == e
  {
    var pieces: seq<Bytes> := [e.value] + [];
    assert pieces[0] == e.value && pieces[1..] == [];
    assert Concat(pieces) == e.value + Concat(pieces[1..]) == e.value;
  }

  /** The printed lines of every entry fit; the only thing that a printable entry can still lack. */
  predicate AllLinesFit(entries: seq<ConfigEntry>) {
    forall e | e in entries :: FitsLines(PlainLayout(e))
  }

  lemma {:induction false} PlainLayoutsFit(entries: seq<ConfigEntry>)
    requires AllPrintable(entries) && AllLinesFit(entries)
    ensures AllFit(PlainLayouts(entries)) && EntriesOf(PlainLayouts(entries)) == entries
    ensures |PlainLayouts(entries)| == |entries|
  {
    if entries != [] {
      assert entries[0] in entries;
      assert AllLinesFit(entries[1..]) by { assert forall e | e in entries[1..] :: e in entries; }
      PlainLayoutIsValid(entries[0]);
      PlainLayoutsFit(entries[1..]);
      var layouts := PlainLayouts(entries);
      assert layouts[1..] == PlainLayouts(entries[1..]);
      assert [entries[0]] + entries[1..] == entries;
    }
  }

  lemma {:induction false} TwoLinesEach(entries: seq<ConfigEntry>, eol: Bytes)
    ensures |FileLines(PlainLayouts(entries), eol)| == 2 * |entries|
  {
    if entries != [] {
      TwoLinesEach(entries[1..], eol);
      assert PlainLayouts(entries)[1..] == PlainLayouts(entries[1..]);
      assert |EntryLines(PlainLayout(entries[0]), eol)| == 2;
    }
  }

  /**
    The entries of every accepted file are printable, and there are not too many of them; if the printed lines and
    the printed file are not too long, reading them again gives the same entries.
  */
  lemma {:induction false} ParsedIsPrintable(raw: Bytes, eol: Bytes)
    requires ParseGitConfig(raw).Ok? && Eol(eol)
    ensures var entries := ParseGitConfig(raw).value;
      && AllPrintable(entries) && |entries| <= MAX_ENTRIES
      && (AllLinesFit(entries) && |Print(PlainLayouts(entries), eol)| <= MAX_BYTES ==>
          ParseGitConfig(Print(PlainLayouts(entries), eol)) == Ok(entries))
  {
    var entries := ParseGitConfig(raw).value;
    ReadEntriesArePrintable(LogicalLines(raw).value, None, 0);
    if AllLinesFit(entries) && |Print(PlainLayouts(entries), eol)| <= MAX_BYTES {
      PlainLayoutsFit(entries);
      TwoLinesEach(entries, eol);
      ParsePrinted(PlainLayouts(entries), eol);
    }
  }
}
