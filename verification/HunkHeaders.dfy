/**
  The hunk header line of a unified diff, as src/apexcrew/adapters/repository/granted_workspace.py
  recognises it with a regular expression and prints it when it reverses a patch.
*/
module HunkHeaders {
  import opened Wrappers

  datatype Header = Header(oldStart: nat, oldCount: nat, newStart: nat, newCount: nat)

  predicate IsDigit(c: char) { '0' <= c <= '9' }

  /** Length of the run of digits that starts the text. */
  function DigitRun(text: string): (n: nat)
    ensures n <= |text|
    ensures forall i | 0 <= i < n :: IsDigit(text[i])
    ensures n < |text| ==> !IsDigit(text[n])
  {
    if text == "" || !IsDigit(text[0]) then 0 else 1 + DigitRun(text[1..])
  }

  /** `int(text)` */
  function NatOf(digits: string): nat
    requires forall i | 0 <= i < |digits| :: IsDigit(digits[i])
  {
    if digits == "" then 0
    else
      assert IsDigit(digits[|digits| - 1]);
      10 * NatOf(digits[..|digits| - 1]) + (digits[|digits| - 1] as int - '0' as int)
  }

  function Digits(n: nat): (digits: string)
    ensures digits != "" && forall i | 0 <= i < |digits| :: IsDigit(digits[i])
  {
    if n < 10 then [('0' as int + n) as char] else Digits(n / 10) + [('0' as int + n % 10) as char]
  }

  lemma {:induction false} NatOfDigits(n: nat)
    ensures NatOf(Digits(n)) == n
  {
    if n >= 10 {
      NatOfDigits(n / 10);
      assert Digits(n)[..|Digits(n)| - 1] == Digits(n / 10);
    } else {
      assert Digits(n)[..0] == "";
    }
  }

  /** `(\d+)`: a number and what follows it. */
  function ScanNat(text: string): Option<(nat, string)> {
    var n := DigitRun(text);
    if n == 0 then None else Some((NatOf(text[..n]), text[n..]))
  }

  /** `(\d+)(?:,(\d+))?` with an absent count read as 1. */
  function ScanRange(text: string): Option<((nat, nat), string)> {
    match ScanNat(text)
    case None => None
    case Some((start, rest)) =>
      if rest != "" && rest[0] == ',' then
        match ScanNat(rest[1..])
        case None => Some(((start, 1), rest))
        case Some((count, tail)) => Some(((start, count), tail))
      else Some(((start, 1), rest))
  }

  predicate HasPrefix(text: string, prefix: string) {
    prefix <= text
  }

  function WithoutNewline(text: string): string {
    if text != "" && text[|text| - 1] == '\n' then text[..|text| - 1] else text
  }

  /** `(?: .*)?\n?$`; the dollar sign accepts one more line feed at the very end. */
  predicate HeaderTail(text: string) {
    var core := WithoutNewline(WithoutNewline(text));
    core == "" || (core[0] == ' ' && '\n' !in core)
  }

  function ParseNewRange(oldRange: (nat, nat), rest: string): Option<Header> {
    if !HasPrefix(rest, " +") then None else
    match ScanRange(rest[2..])
    case None => None
    case Some((newRange, tail)) =>
      if HasPrefix(tail, " @@") && HeaderTail(tail[3..])
      then Some(Header(oldRange.0, oldRange.1, newRange.0, newRange.1))
      else None
  }

  /** The line begins `@@ -`. */
  predicate OpensHeader(line: string) {
    |line| >= 4 && line[0] == line[1] == '@' && line[2] == ' ' && line[3] == '-'
  }

  /** `_HUNK_HEADER.match(line)` */
  function ParseHeader(line: string): (header: Option<Header>)
    ensures header.Some? ==> OpensHeader(line)
  {
    if !OpensHeader(line) then None else
    match ScanRange(line[4..])
    case None => None
    case Some((oldRange, rest)) => ParseNewRange(oldRange, rest)
  }

  function PrintRange(start: nat, count: nat): string {
    Digits(start) + "," + Digits(count)
  }

  /** The header that a reversal prints: both counts explicit, the line ending kept. */
  function PrintHeader(h: Header, newline: string): string {
    "@@ -" + (PrintRange(h.oldStart, h.oldCount) + (" +" + (PrintRange(h.newStart, h.newCount) + (" @@" + newline))))
  }

  lemma {:induction false} DigitRunOf(digits: string, rest: string)
    requires forall i | 0 <= i < |digits| :: IsDigit(digits[i])
    requires rest == "" || !IsDigit(rest[0])
    ensures DigitRun(digits + rest) == |digits|
  {
    if digits == "" {
      assert digits + rest == rest;
    } else {
      assert (digits + rest)[1..] == digits[1..] + rest;
      DigitRunOf(digits[1..], rest);
    }
  }

  lemma {:induction false} ScanPrintedNat(n: nat, rest: string)
    requires rest == "" || !IsDigit(rest[0])
    ensures ScanNat(Digits(n) + rest) == Some((n, rest))
  {
    DigitRunOf(Digits(n), rest);
    NatOfDigits(n);
    assert (Digits(n) + rest)[..|Digits(n)|] == Digits(n);
    assert (Digits(n) + rest)[|Digits(n)|..] == rest;
  }

  lemma {:induction false} ScanPrintedRange(start: nat, count: nat, rest: string)
    requires rest == "" || !IsDigit(rest[0])
    ensures ScanRange(PrintRange(start, count) + rest) == Some(((start, count), rest))
  {
    var tail := "," + (Digits(count) + rest);
    assert Digits(start) + "," + Digits(count) + rest == Digits(start) + tail;
    ScanPrintedNat(start, tail);
    assert tail[1..] == Digits(count) + rest;
    ScanPrintedNat(count, rest);
  }

  lemma {:induction false} ParsePrintedNewRange(oldRange: (nat, nat), start: nat, count: nat, newline: string)
    requires newline in {"", "\n"}
    ensures ParseNewRange(oldRange, " +" + (PrintRange(start, count) + (" @@" + newline)))
      == Some(Header(oldRange.0, oldRange.1, start, count))
  {
    var tail := " @@" + newline;
    var rest := " +" + (PrintRange(start, count) + tail);
    assert rest[..2] == " +" && rest[2..] == PrintRange(start, count) + tail;
    ScanPrintedRange(start, count, tail);
    assert tail[..3] == " @@" && tail[3..] == newline;
    assert WithoutNewline(WithoutNewline(newline)) == "";
  }

  lemma {:induction false} HeaderOpening(body: string)
    ensures OpensHeader("@@ -" + body) && ("@@ -" + body)[4..] == body
  {}

  /** A printed header is read back unchanged. */
  lemma {:induction false} ParsePrintedHeader(h: Header, newline: string)
    requires newline in {"", "\n"}
    ensures ParseHeader(PrintHeader(h, newline)) == Some(h)
  {
    var line := PrintHeader(h, newline);
    var rest := " +" + (PrintRange(h.newStart, h.newCount) + (" @@" + newline));
    var body := PrintRange(h.oldStart, h.oldCount) + rest;
    HeaderOpening(body);
    ScanPrintedRange(h.oldStart, h.oldCount, rest);
    ParsePrintedNewRange((h.oldStart, h.oldCount), h.newStart, h.newCount, newline);
  }
}
