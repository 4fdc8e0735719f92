/** The UTF-8 bytes `parse_string` writes for a `\u` escape (config.c), the
    code-point ranges of section 3 of RFC 3629, and the combination of a
    UTF-16 surrogate pair of section 2.2 of RFC 2781. Each byte is a `char`
    below 256. The C writes `0xC0 | (uc >> 6)` and `0x80 | (uc & 0x3F)`;
    with the operand ranges below, `|` of disjoint bits is `+`, `>> k` is
    division by 2^k and `& 0x3F` is `% 64`. */
module Utf8 {
  import opened Support

  /** One past the largest code point the escape decoder can produce. */
  const Limit: nat := 0x11_0000

  /** The byte sequence written for code point cp. */
  function Encode(cp: nat): (bytes: seq<char>)
    requires cp < Limit
    ensures 1 <= |bytes| <= 4
    ensures forall i | 0 <= i < |bytes| :: bytes[i] as int < 256
    ensures |bytes| == (if cp < 0x80 then 1 else if cp < 0x800 then 2 else if cp < 0x1_0000 then 3 else 4)
  {
    if cp < 0x80 then
      [cp as char]
    else if cp < 0x800 then
      [(0xC0 + cp / 64) as char, (0x80 + cp % 64) as char]
    else if cp < 0x1_0000 then
      [(0xE0 + cp / 4096) as char, (0x80 + (cp / 64) % 64) as char, (0x80 + cp % 64) as char]
    else
      [(0xF0 + cp / 262144) as char, (0x80 + (cp / 4096) % 64) as char,
       (0x80 + (cp / 64) % 64) as char, (0x80 + cp % 64) as char]
  }

  predicate IsContinuation(c: char) { 0x80 <= c as int < 0xC0 }

  /** The reference decoder: the lead byte announces the length
      (0xxxxxxx, 110xxxxx, 1110xxxx, 11110xxx) and every continuation byte
      carries six bits (10xxxxxx). */
  function Decode(b: seq<char>): (cp: Option<nat>)
  {
    if |b| == 1 && b[0] as int < 0x80 then
      Some(b[0] as int)
    else if |b| == 2 && 0xC0 <= b[0] as int < 0xE0 && IsContinuation(b[1]) then
      Some((b[0] as int - 0xC0) * 64 + (b[1] as int - 0x80))
    else if |b| == 3 && 0xE0 <= b[0] as int < 0xF0 && IsContinuation(b[1]) && IsContinuation(b[2]) then
      Some(((b[0] as int - 0xE0) * 64 + (b[1] as int - 0x80)) * 64 + (b[2] as int - 0x80))
    else if |b| == 4 && 0xF0 <= b[0] as int < 0xF8 && IsContinuation(b[1]) && IsContinuation(b[2]) && IsContinuation(b[3]) then
      Some((((b[0] as int - 0xF0) * 64 + (b[1] as int - 0x80)) * 64 + (b[2] as int - 0x80)) * 64 + (b[3] as int - 0x80))
    else
      None
  }

  /** Every code point the decoder can produce comes back from its bytes:
      the encoding is the UTF-8 one. */
  lemma DecodeEncode(cp: nat)
    requires cp < Limit
    ensures Decode(Encode(cp)) == Some(cp)
  {
    var b := Encode(cp);
    if cp < 0x80 {
    } else if cp < 0x800 {
      assert (b[0] as int - 0xC0) * 64 + (b[1] as int - 0x80) == (cp / 64) * 64 + cp % 64;
    } else if cp < 0x1_0000 {
      var q := cp / 64;
      assert q / 64 == cp / 4096;
      assert (b[0] as int - 0xE0) * 64 + (b[1] as int - 0x80) == (q / 64) * 64 + q % 64 == q;
    } else {
      var q := cp / 64;
      var r := q / 64;
      assert r == cp / 4096;
      assert r / 64 == cp / 262144;
      assert (b[0] as int - 0xF0) * 64 + (b[1] as int - 0x80) == (r / 64) * 64 + r % 64 == r;
      assert r * 64 + q % 64 == q;
    }
  }

  /** The lead byte alone tells the length: no encoding is a prefix of
      another, so the bytes of consecutive escapes can be split again. */
  lemma LeadByteGivesLength(cp: nat)
    requires cp < Limit
    ensures var b := Encode(cp);
      (b[0] as int < 0x80 <==> |b| == 1) &&
      (0xC0 <= b[0] as int < 0xE0 <==> |b| == 2) &&
      (0xE0 <= b[0] as int < 0xF0 <==> |b| == 3) &&
      (0xF0 <= b[0] as int < 0xF8 <==> |b| == 4)
  {
  }

  /** `0x10000 + (((hi & 0x3FF) << 10) | (lo & 0x3FF))`. */
  function CombineSurrogates(hi: nat, lo: nat): (cp: nat)
    ensures 0x1_0000 <= cp < Limit
  {
    0x1_0000 + (hi % 1024) * 1024 + lo % 1024
  }

  /** UTF-16 encoding of a supplementary code point as a surrogate pair. */
  function HighSurrogate(cp: nat): nat
    requires 0x1_0000 <= cp < Limit
  {
    0xD800 + (cp - 0x1_0000) / 1024
  }

  function LowSurrogate(cp: nat): nat
    requires 0x1_0000 <= cp < Limit
  {
    0xDC00 + (cp - 0x1_0000) % 1024
  }

  /** The combination inverts the UTF-16 encoding: every supplementary code
      point is recovered from its surrogate pair. */
  lemma CombineInvertsPair(cp: nat)
    requires 0x1_0000 <= cp < Limit
    ensures 0xD800 <= HighSurrogate(cp) <= 0xDBFF
    ensures 0xDC00 <= LowSurrogate(cp) <= 0xDFFF
    ensures CombineSurrogates(HighSurrogate(cp), LowSurrogate(cp)) == cp
  {
    var d := cp - 0x1_0000;
    assert HighSurrogate(cp) % 1024 == d / 1024;
    assert LowSurrogate(cp) % 1024 == d % 1024;
  }

  /** For a high surrogate followed by a low one, the combination is the
      decoding of section 2.2 of RFC 2781. */
  lemma CombineDecodesPair(hi: nat, lo: nat)
    requires 0xD800 <= hi <= 0xDBFF && 0xDC00 <= lo <= 0xDFFF
    ensures CombineSurrogates(hi, lo) == 0x1_0000 + (hi - 0xD800) * 1024 + (lo - 0xDC00)
    ensures HighSurrogate(CombineSurrogates(hi, lo)) == hi && LowSurrogate(CombineSurrogates(hi, lo)) == lo
  {
    assert hi % 1024 == hi - 0xD800;
    assert lo % 1024 == lo - 0xDC00;
  }
}
