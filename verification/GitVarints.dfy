/**
  The strip count of a version 4 index entry (src/apexcrew/adapters/repository/git.py, lines 633-644) and the
  encoder that it inverts: the variable width encoding of gitformat-index, section "Index entry", in which
  every number has exactly one byte string.
*/
module GitVarints {
  import opened Wrappers
  import opened ByteStrings

  const MAX_INDEX_BYTES := 67_108_864

  // ---------- Writing ----------

  /** The bytes before the last one; each carries the continuation bit and one is taken off before each. */
  function EncodedHigh(high: nat): Bytes {
    if high == 0 then [] else EncodedHigh((high - 1) / 128) + [128 + (high - 1) % 128]
  }

  function Encoded(value: nat): Bytes {
    EncodedHigh(value / 128) + [value % 128]
  }

  // ---------- Reading ----------

  /** The number at the start of some bytes and how many bytes it takes, `high` having been read. */
  function StripCount(s: Bytes, high: nat): (r: Result<(nat, nat), ()>)
    ensures r.Ok? ==> 1 <= r.value.1 <= |s|
  {
    if s == [] then Err(())
    else if s[0] < 128 then Ok((high * 128 + s[0], 1))
    else
      var next := high * 128 + (s[0] - 128) + 1;
      if next > MAX_INDEX_BYTES then Err(())
      else
        var later := StripCount(s[1..], next);
        if later.Err? then later else Ok((later.value.0, later.value.1 + 1))
  }

  method ReadStripCount(raw: Bytes, start: nat) returns (r: Result<(nat, nat), ()>)
    requires start <= |raw|
    ensures r == (match StripCount(raw[start..], 0)
                  case Ok(count) => Ok((count.0, start + count.1))
                  case Err(e) => Err(e))
  {
    var value: nat, offset := 0, start;
    while offset < |raw|
      invariant start <= offset <= |raw|
      invariant StripCount(raw[start..], 0) ==
        (match StripCount(raw[offset..], value)
         case Ok(count) => Ok((count.0, count.1 + (offset - start)))
         case Err(e) => Err(e))
    {
      var b := raw[offset];
      assert raw[offset..][1..] == raw[offset + 1..];
      offset := offset + 1;
      value := value * 128 + b % 128;
      if b < 128 {
        return Ok((value, offset));
      }
      value := value + 1;
      if value > MAX_INDEX_BYTES {
        break;
      }
    }
    return Err(());
  }

  // ---------- The two are inverse ----------

  lemma {:induction false} HighBytesContinue(high: nat)
    ensures forall i | 0 <= i < |EncodedHigh(high)| :: EncodedHigh(high)[i] >= 128
  {
    if high > 0 { HighBytesContinue((high - 1) / 128); }
  }

  /** Only the last byte of an encoding lacks the continuation bit. */
  lemma {:induction false} OnlyLastEnds(value: nat)
    ensures var text := Encoded(value); var last := |text| - 1;
      text[last] < 128 && text[..last] == EncodedHigh(value / 128) && forall i | 0 <= i < last :: text[i] >= 128
  {
    HighBytesContinue(value / 128);
  }

  lemma {:induction false} HighStep(high: nat, b: byte)
    requires b >= 128
    ensures EncodedHigh(high * 128 + (b - 128) + 1) == EncodedHigh(high) + [b]
  {}

  lemma {:induction false} LastStep(high: nat, b: byte)
    requires b < 128
    ensures Encoded(high * 128 + b) == EncodedHigh(high) + [b] && (high * 128 + b) / 128 == high
  {}

  lemma {:induction false} HighIsInjective(a: nat, b: nat)
    requires EncodedHigh(a) == EncodedHigh(b)
    ensures a == b
  {
    if a > 0 && b > 0 {
      var x, y := EncodedHigh(a), EncodedHigh(b);
      assert x[..|x| - 1] == EncodedHigh((a - 1) / 128) && y[..|y| - 1] == EncodedHigh((b - 1) / 128);
      assert x[|x| - 1] == y[|y| - 1];
      HighIsInjective((a - 1) / 128, (b - 1) / 128);
    }
  }

  /** Bytes read so far never stand for more than the whole number's high part. */
  lemma {:induction false} HighPrefixIsSmaller(a: nat, b: nat)
    requires EncodedHigh(a) <= EncodedHigh(b)
    ensures a <= b
  {
    if |EncodedHigh(a)| == |EncodedHigh(b)| {
      HighIsInjective(a, b);
    } else {
      var y := EncodedHigh(b);
      assert y[..|y| - 1] == EncodedHigh((b - 1) / 128);
      HighPrefixIsSmaller(a, (b - 1) / 128);
    }
  }

  /** What is read is the encoding of the number returned. */
  lemma {:induction false} ReadIsEncoded(s: Bytes, high: nat)
    requires StripCount(s, high).Ok? && high <= MAX_INDEX_BYTES
    ensures var count := StripCount(s, high).value;
      EncodedHigh(high) + s[..count.1] == Encoded(count.0) && count.0 / 128 <= MAX_INDEX_BYTES
  {
    if s[0] < 128 {
      LastStep(high, s[0]);
      assert s[..1] == [s[0]];
    } else {
      var next := high * 128 + (s[0] - 128) + 1;
      ReadIsEncoded(s[1..], next);
      HighStep(high, s[0]);
      var n := StripCount(s, high).value.1;
      assert s[..n] == [s[0]] + s[1..][..n - 1];
    }
  }

  /** An encoded number within the limit is read back. */
  lemma {:induction false} EncodedIsRead(s: Bytes, high: nat, value: nat, n: nat)
    requires n <= |s| && EncodedHigh(high) + s[..n] == Encoded(value)
    requires value / 128 <= MAX_INDEX_BYTES
    ensures StripCount(s, high) == Ok((value, n))
    decreases n
  {
    var text, before := Encoded(value), EncodedHigh(high);
    OnlyLastEnds(value);
    HighBytesContinue(high);
    assert forall i | 0 <= i < |before| :: text[i] == before[i];
    assert n > 0;
    assert s[0] == text[|before|];
    if s[0] < 128 {
      assert |before| == |text| - 1;
      assert before == text[..|before|];
      HighIsInjective(high, value / 128);
    } else {
      NextStep(s, high, value, n);
    }
  }

  lemma {:induction false} NextStep(s: Bytes, high: nat, value: nat, n: nat)
    requires 0 < n <= |s| && EncodedHigh(high) + s[..n] == Encoded(value) && s[0] >= 128
    requires value / 128 <= MAX_INDEX_BYTES
    ensures StripCount(s, high) == Ok((value, n))
    decreases n, 0
  {
    var next := high * 128 + (s[0] - 128) + 1;
    assert s[..n] == [s[0]] + s[1..][..n - 1];
    NextHigh(high, s[0], s[1..][..n - 1], value);
    EncodedIsRead(s[1..], next, value, n - 1);
  }

  /** One more continuation byte: the number so far still begins the whole one. */
  lemma {:induction false} NextHigh(high: nat, b: byte, rest: Bytes, value: nat)
    requires b >= 128 && EncodedHigh(high) + ([b] + rest) == Encoded(value)
    ensures var next := high * 128 + (b - 128) + 1;
      EncodedHigh(next) + rest == Encoded(value) && next <= value / 128
  {
    var text, longer := Encoded(value), EncodedHigh(high) + [b];
    HighStep(high, b);
    OnlyLastEnds(value);
    assert longer + rest == text && text[|longer| - 1] == b;
    assert |longer| < |text|;
    assert longer == text[..|text| - 1][..|longer|];
    HighPrefixIsSmaller(high * 128 + (b - 128) + 1, value / 128);
  }

  /**
    The reader inverts the encoder, on every number whose part above the last seven bits is within the
    limit, and accepts nothing else.
  */
  lemma {:induction false} StripCountInvertsEncoding(s: Bytes, value: nat, n: nat)
    ensures StripCount(s, 0) == Ok((value, n)) <==>
      n <= |s| && s[..n] == Encoded(value) && value / 128 <= MAX_INDEX_BYTES
  {
    if n <= |s| { assert EncodedHigh(0) + s[..n] == s[..n]; }
    if StripCount(s, 0) == Ok((value, n)) {
      ReadIsEncoded(s, 0);
    } else if n <= |s| && s[..n] == Encoded(value) && value / 128 <= MAX_INDEX_BYTES {
      EncodedIsRead(s, 0, value, n);
    }
  }

  /** Each number has one encoding, and no encoding begins another. */
  lemma {:induction false} EncodingIsPrefixFree(a: nat, b: nat)
    requires Encoded(a) <= Encoded(b)
    ensures a == b
  {
    var x, y := Encoded(a), Encoded(b);
    OnlyLastEnds(a);
    OnlyLastEnds(b);
    assert x[|x| - 1] == y[|x| - 1];
    HighIsInjective(a / 128, b / 128);
  }
}
