/** The parser routines of config.c as cursor loops over the text, each
    proved to compute the specification of module Json. `parse_string`
    decodes into a buffer of the size its first loop counts, and every write
    into it is proved in bounds for the corrected decoder, so these loops
    compute the `strict` specification; `JsonLaws.ParseDecodersAgree` shows it
    equals the program as written on every text whose escapes are complete.
    Allocation never fails here; `cJSON_New_Item` returning NULL is not
    modelled. */
module JsonParser {
  import opened Support
  import opened Json
  import JsonLaws
  import Utf8

  /** `skip_whitespace`. */
  method SkipWhitespace(t: seq<char>, p: nat) returns (q: nat)
    requires p <= |t|
    ensures q == SkipWs(t, p)
  {
    q := p;
    while At(t, q) != NUL && IsSpace(At(t, q))
      invariant p <= q <= |t|
      invariant SkipWs(t, q) == SkipWs(t, p)
      decreases |t| - q
    {
      q := q + 1;
    }
  }

  /** Writes the UTF-8 bytes of cp at out[k..], with the four cases of
      `parse_string`'s `\u` branch. */
  method WriteUtf8(out: array<char>, k: nat, cp: nat) returns (k': nat)
    requires cp < Utf8.Limit
    requires k + |Utf8.Encode(cp)| <= out.Length
    modifies out
    ensures k' == k + |Utf8.Encode(cp)|
    ensures out[..k'] == old(out[..k]) + Utf8.Encode(cp)
  {
    if cp < 0x80 {
      out[k] := cp as char;
      k' := k + 1;
    } else if cp < 0x800 {
      out[k] := (0xC0 + cp / 64) as char;
      out[k + 1] := (0x80 + cp % 64) as char;
      k' := k + 2;
    } else if cp < 0x1_0000 {
      out[k] := (0xE0 + cp / 4096) as char;
      out[k + 1] := (0x80 + (cp / 64) % 64) as char;
      out[k + 2] := (0x80 + cp % 64) as char;
      k' := k + 3;
    } else {
      out[k] := (0xF0 + cp / 262144) as char;
      out[k + 1] := (0x80 + (cp / 4096) % 64) as char;
      out[k + 2] := (0x80 + (cp / 64) % 64) as char;
      out[k + 3] := (0x80 + cp % 64) as char;
      k' := k + 4;
    }
  }

  /** One pass of the switch after a backslash at q - 1: writes the bytes of
      the escape at out[k..] and returns the cursor before the `ptr++`. */
  method DecodeEscape(t: seq<char>, q: nat, out: array<char>, k: nat) returns (q': nat, k': nat)
    requires q < |t| && t[q] != NUL
    requires k + |Escape(t, q, true).0| <= out.Length
    modifies out
    ensures k' == k + |Escape(t, q, true).0| && q' == Escape(t, q, true).1
    ensures out[..k'] == old(out[..k]) + Escape(t, q, true).0
  {
    var c := t[q];
    q', k' := q, k;
    if c == 'b' || c == 'f' || c == 'n' || c == 'r' || c == 't' {
      out[k] := if c == 'b' then 8 as char else if c == 'f' then 12 as char
                else if c == 'n' then '\n' else if c == 'r' then '\r' else '\t';
      k' := k + 1;
    } else if c == 'u' {
      q', k' := DecodeUnicode(t, q, out, k);
    } else {
      out[k] := c;
      k' := k + 1;
    }
  }

  /** A `\u` escape: four hex digits, and a second `\u` escape after a high
      surrogate, written as UTF-8. Without four hex digits nothing is
      written and the cursor stays on the `u`. */
  method DecodeUnicode(t: seq<char>, q: nat, out: array<char>, k: nat) returns (q': nat, k': nat)
    requires q < |t| && t[q] == 'u'
    requires k + |Escape(t, q, true).0| <= out.Length
    modifies out
    ensures k' == k + |Escape(t, q, true).0| && q' == Escape(t, q, true).1
    ensures out[..k'] == old(out[..k]) + Escape(t, q, true).0
  {
    q', k' := q, k;
    var uc := ScanHex4(t, q + 1, true);
    if uc.Some? {
      var code;
      code, q' := CodePoint(t, q, uc.value);
      k' := WriteUtf8(out, k, code);
    }
  }

  /** The code point of a `\u` escape whose four hex digits gave `uc`, and
      where its last digit is: a high surrogate followed by a second `\u`
      escape combines with it. */
  method CodePoint(t: seq<char>, q: nat, uc: nat) returns (code: nat, q': nat)
    requires q < |t| && t[q] == 'u' && ScanHex4(t, q + 1, true) == Some(uc)
    ensures code < Utf8.Limit && Escape(t, q, true) == (Utf8.Encode(code), q')
  {
    code := uc;
    q' := Adv(t, q, 4);
    if 0xD800 <= code <= 0xDBFF && At(t, q' + 1) == '\\' && At(t, q' + 2) == 'u' {
      var uc2 := ScanHex4(t, q' + 3, true);
      if uc2.Some? {
        q' := Adv(t, q', 6);
        code := Utf8.CombineSurrogates(code, uc2.value);
      }
    }
  }

  /** `parse_string`: the first loop counts `len`, a buffer of `len + 1`
      bytes receives the decoded text and its terminator, and the cursor ends
      just past the closing quote. */
  method ParseString(t: seq<char>, p: nat) returns (r: Option<(seq<char>, nat)>)
    requires p <= |t|
    ensures r == PString(t, p, true)
  {
    if At(t, p) != '"' {
      return None;
    }
    var len := CountLength(t, p + 1);
    var out := new char[len + 1];
    var ptr, ptr2 := DecodeInto(t, p + 1, out);
    var decoded := out[..ptr2];
    out[ptr2] := NUL;
    if At(t, ptr) == '"' {
      ptr := ptr + 1;
    }
    return Some((decoded, ptr));
  }

  /** The first loop of `parse_string`: a backslash and the character after
      it count as one byte, up to the closing quote or the terminator. */
  method CountLength(t: seq<char>, start: nat) returns (len: nat)
    requires start <= |t|
    ensures len == CountFrom(t, start)
  {
    var ptr := start;
    len := 0;
    while At(t, ptr) != '"' && At(t, ptr) != NUL
      invariant start <= ptr <= |t|
      invariant len + CountFrom(t, ptr) == CountFrom(t, start)
      decreases |t| - ptr
    {
      if t[ptr] == '\\' {
        ptr := ptr + 1;
      }
      if At(t, ptr) != NUL {
        ptr := ptr + 1;
      }
      len := len + 1;
    }
  }

  /** The second loop of `parse_string`, in a buffer with room for the
      count of the first loop and a terminator: the bytes written and the
      position where the loop stops. */
  method DecodeInto(t: seq<char>, start: nat, out: array<char>) returns (ptr: nat, ptr2: nat)
    requires start <= |t| && CountFrom(t, start) < out.Length
    modifies out
    ensures ptr2 < out.Length && (out[..ptr2], ptr) == DecodeFrom(t, start, [], true)
  {
    ptr, ptr2 := start, 0;
    while At(t, ptr) != '"' && At(t, ptr) != NUL
      invariant start <= ptr <= |t|
      invariant ptr2 + CountFrom(t, ptr) < out.Length
      invariant DecodeFrom(t, ptr, out[..ptr2], true) == DecodeFrom(t, start, [], true)
      decreases |t| - ptr
    {
      if t[ptr] != '\\' {
        out[ptr2] := t[ptr];
        assert out[..ptr2 + 1] == out[..ptr2] + [t[ptr]];
        ptr2 := ptr2 + 1;
        ptr := ptr + 1;
      } else {
        if At(t, ptr + 1) == NUL {
          ptr := ptr + 1;
          break;
        }
        JsonLaws.EscapeFits(t, ptr);
        var q;
        q, ptr2 := DecodeEscape(t, ptr + 1, out, ptr2);
        ptr := Adv(t, q, 1);
      }
    }
  }

  /** The digit loops of `parse_number`: `n = n * 10 + digit` while a digit
      follows; the value and the position of the first non-digit. */
  method ScanDigits(t: seq<char>, p: nat, acc: nat) returns (n: nat, e: nat)
    requires p <= |t|
    ensures (n, e) == DigitsFrom(t, p, acc)
  {
    n, e := acc, p;
    while IsDigit(At(t, e))
      invariant p <= e <= |t|
      invariant DigitsFrom(t, e, n) == DigitsFrom(t, p, acc)
      decreases |t| - e
    {
      n := n * 10 + DigitValue(t[e]);
      e := e + 1;
    }
  }

  /** The fraction step of `parse_number` at e: a '.' followed by a digit,
      then every digit appended to the mantissa n, each one lowering
      `scale`. */
  method ScanFraction(t: seq<char>, e: nat, n: nat) returns (n': nat, scale: int, e': nat)
    requires e <= |t|
    ensures (n', scale, e') == Fraction(t, e, n)
  {
    n', scale, e' := n, 0, e;
    if At(t, e) == '.' && IsDigit(At(t, e + 1)) {
      n', e' := ScanDigits(t, e + 1, n);
      scale := (e + 1) as int - e' as int;
    }
  }

  /** The exponent step of `parse_number` at e: 'e' or 'E', an optional
      sign, and the digits of `subscale`. */
  method ScanExponent(t: seq<char>, e: nat) returns (subscale: nat, signsubscale: int, e': nat)
    requires e <= |t|
    ensures (subscale, signsubscale, e') == Exponent(t, e)
  {
    subscale, signsubscale, e' := 0, 1, e;
    if At(t, e') == 'e' || At(t, e') == 'E' {
      e' := e' + 1;
      if At(t, e') == '+' {
        e' := e' + 1;
      } else if At(t, e') == '-' {
        signsubscale := -1;
        e' := e' + 1;
      }
      subscale, e' := ScanDigits(t, e', 0);
    }
  }

  /** `parse_number`: the sign, the integer digits, the fraction, then the
      exponent. */
  method ParseNumber(t: seq<char>, p: nat) returns (r: Option<Parsed>)
    requires p <= |t|
    ensures r == PNumber(t, p)
  {
    var num := p;
    var neg := false;
    if At(t, num) == '-' {
      neg := true;
      num := num + 1;
    }
    var n: nat := 0;
    if At(t, num) == '0' {
      num := num + 1;
    } else if '1' <= At(t, num) <= '9' {
      n, num := ScanDigits(t, num, 0);
    } else {
      return None;
    }
    var n', scale, e2 := ScanFraction(t, num, n);
    var subscale, signsubscale, end := ScanExponent(t, e2);
    return Some(Parsed(Number(Decimal(neg, n', scale + subscale * signsubscale)), end));
  }

  /** `parse_value`. */
  method ParseValue(t: seq<char>, p: nat) returns (r: Option<Parsed>)
    requires p <= |t|
    ensures r == PValue(t, p, true)
    decreases |t| - p, 2
  {
    if LiteralAt(t, p, "null") {
      JsonLaws.LiteralsConsume(t, p, true);
      return Some(Parsed(Null, p + 4));
    }
    if LiteralAt(t, p, "false") {
      JsonLaws.LiteralsConsume(t, p, true);
      return Some(Parsed(False, p + 5));
    }
    if LiteralAt(t, p, "true") {
      JsonLaws.LiteralsConsume(t, p, true);
      return Some(Parsed(True, p + 4));
    }
    if At(t, p) == '"' {
      var s := ParseString(t, p);
      return Some(Parsed(String(CStr(s.value.0)), s.value.1));
    }
    if At(t, p) == '-' || IsDigit(At(t, p)) {
      r := ParseNumber(t, p);
      return;
    }
    if At(t, p) == '[' {
      r := ParseArray(t, p);
      return;
    }
    if At(t, p) == '{' {
      r := ParseObject(t, p);
      return;
    }
    return None;
  }

  /** `parse_array`: the first element, then one more after each comma. */
  method ParseArray(t: seq<char>, p: nat) returns (r: Option<Parsed>)
    requires p <= |t|
    ensures r == PArray(t, p, true)
    decreases |t| - p, 1
  {
    if At(t, p) != '[' {
      return None;
    }
    var q := SkipWhitespace(t, p + 1);
    if At(t, q) == ']' {
      return Some(Parsed(Array([]), q + 1));
    }
    var s := SkipWhitespace(t, q);
    var first := ParseValue(t, s);
    if first.None? {
      return None;
    }
    var pos := SkipWhitespace(t, first.value.end);
    r := ParseElements(t, pos, [Member(None, first.value.value)]);
  }

  /** The `while (*value == ',')` loop of `parse_array`, from the elements
      parsed so far. */
  method ParseElements(t: seq<char>, p: nat, acc: seq<Member>) returns (r: Option<Parsed>)
    requires p <= |t|
    ensures r == PElements(t, p, acc, true)
    decreases |t| - p, 0
  {
    var pos, items := p, acc;
    while At(t, pos) == ','
      invariant p <= pos <= |t|
      invariant PElements(t, pos, items, true) == PElements(t, p, acc, true)
      decreases |t| - pos
    {
      var s := SkipWhitespace(t, pos + 1);
      var next := ParseValue(t, s);
      if next.None? {
        return None;
      }
      items := items + [Member(None, next.value.value)];
      pos := SkipWhitespace(t, next.value.end);
    }
    if At(t, pos) == ']' {
      return Some(Parsed(Array(items), pos + 1));
    }
    return None;
  }

  /** The key, ':', value sequence `parse_object` reads for each member. */
  method ParseMember(t: seq<char>, p: nat) returns (r: Option<(Member, nat)>)
    requires p <= |t|
    ensures r == PMember(t, p, true)
    decreases |t| - p, 2
  {
    var key := ParseString(t, p);
    if key.None? {
      return None;
    }
    var colon := SkipWhitespace(t, key.value.1);
    if At(t, colon) != ':' {
      return None;
    }
    var s := SkipWhitespace(t, colon + 1);
    var v := ParseValue(t, s);
    if v.None? {
      return None;
    }
    var e := SkipWhitespace(t, v.value.end);
    return Some((Member(Some(CStr(key.value.0)), v.value.value), e));
  }

  /** `parse_object`: the first member, then one more after each comma. */
  method ParseObject(t: seq<char>, p: nat) returns (r: Option<Parsed>)
    requires p <= |t|
    ensures r == PObject(t, p, true)
    decreases |t| - p, 1
  {
    if At(t, p) != '{' {
      return None;
    }
    var q := SkipWhitespace(t, p + 1);
    if At(t, q) == '}' {
      return Some(Parsed(Object([]), q + 1));
    }
    var s := SkipWhitespace(t, q);
    var first := ParseMember(t, s);
    if first.None? {
      return None;
    }
    r := ParseMembers(t, first.value.1, [first.value.0]);
  }

  /** The `while (*value == ',')` loop of `parse_object`, from the members
      parsed so far. */
  method ParseMembers(t: seq<char>, p: nat, acc: seq<Member>) returns (r: Option<Parsed>)
    requires p <= |t|
    ensures r == PMembers(t, p, acc, true)
    decreases |t| - p, 0
  {
    var pos, items := p, acc;
    while At(t, pos) == ','
      invariant p <= pos <= |t|
      invariant PMembers(t, pos, items, true) == PMembers(t, p, acc, true)
      decreases |t| - pos
    {
      var s := SkipWhitespace(t, pos + 1);
      var next := ParseMember(t, s);
      if next.None? {
        return None;
      }
      items := items + [next.value.0];
      pos := next.value.1;
    }
    if At(t, pos) == '}' {
      return Some(Parsed(Object(items), pos + 1));
    }
    return None;
  }

  /** `cJSON_Parse`. */
  method CJsonParse(t: seq<char>) returns (r: Option<Value>)
    ensures r == Parse(t, true)
  {
    var p := SkipWhitespace(t, 0);
    var v := ParseValue(t, p);
    return if v.Some? then Some(v.value.value) else None;
  }
}
