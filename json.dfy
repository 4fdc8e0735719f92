/** The small cJSON-style parser of config.c, as a specification over the
    text: each function returns what the corresponding C routine builds and
    the position its cursor reaches. The text is the NUL-terminated buffer
    `config_load_file` reads; `At` yields the terminator at index |t|. A
    cursor never goes past |t|: the C parser moves past the terminator only on
    inputs where it would then read outside the buffer.

    The string decoder takes a flag `strict`. With `strict` false it is the
    second loop of `parse_string` as written (`sscanf` accepts one to four
    hex digits after `\u`, and a backslash before the terminator steps over
    it), except that the leading whitespace, sign and `0x` prefix `%4x` also
    accepts are not modelled; with `strict` true it is the corrected decoder,
    which needs four hex digits and stops at the terminator. Every routine
    from `parse_value` up passes the flag on, so `Parse(t, false)` is
    `cJSON_Parse` as written except for those forms. */
module Json {
  import opened Support
  import Utf8

  /** A parsed node. The linked `child`/`next`/`prev` lists become sequences
      in input order; a member's `string` (its key) is None for an array
      element and Some for an object member. A number keeps its exact decimal
      value; `valuedouble` would be its nearest double. */
  datatype Value =
    | Null
    | False
    | True
    | Number(num: real)
    | String(chars: seq<char>)
    | Array(items: seq<Member>)
    | Object(items: seq<Member>)

  datatype Member = Member(key: Option<seq<char>>, value: Value)

  /** A node and the cursor just after the text it was parsed from. */
  datatype Parsed = Parsed(value: Value, end: nat)

  /** `isspace` in the C locale: space, \t, \n, \v, \f, \r. */
  predicate IsSpace(c: char) { c == ' ' || '\t' <= c <= '\r' }

  predicate IsDigit(c: char) { '0' <= c <= '9' }

  function DigitValue(c: char): nat
    requires IsDigit(c)
  {
    c as int - '0' as int
  }

  /** The cursor moved n places, stopped at the terminator. */
  function Adv(t: seq<char>, p: nat, n: nat): (q: nat)
    requires p <= |t|
    ensures p <= q <= |t|
  {
    Min(p + n, |t|) as nat
  }

  /** `skip_whitespace`. */
  function SkipWs(t: seq<char>, p: nat): (q: nat)
    requires p <= |t|
    ensures p <= q <= |t|
    ensures !IsSpace(At(t, q))
    decreases |t| - p
  {
    if p < |t| && IsSpace(t[p]) then SkipWs(t, p + 1) else p
  }

  // ---------------------------------------------------------------- strings

  predicate IsHex(c: char) { IsDigit(c) || 'a' <= c <= 'f' || 'A' <= c <= 'F' }

  function HexValue(c: char): (d: nat)
    requires IsHex(c)
    ensures d < 16
  {
    if IsDigit(c) then DigitValue(c)
    else if 'a' <= c <= 'f' then c as int - 'a' as int + 10
    else c as int - 'A' as int + 10
  }

  /** The number of hex digits at p, at most k. */
  function HexRun(t: seq<char>, p: nat, k: nat): (n: nat)
    ensures n <= k
    ensures forall j | p <= j < p + n :: IsHex(At(t, j))
    ensures n < k ==> !IsHex(At(t, p + n))
    decreases k
  {
    if k > 0 && IsHex(At(t, p)) then 1 + HexRun(t, p + 1, k - 1) else 0
  }

  /** The value of the n hex digits at p, most significant first. */
  function HexNumber(t: seq<char>, p: nat, n: nat): (v: nat)
    requires forall j | p <= j < p + n :: IsHex(At(t, j))
    ensures v < Pow(16, n)
  {
    if n == 0 then 0 else HexNumber(t, p, n - 1) * 16 + HexValue(At(t, p + n - 1))
  }

  /** `sscanf(text + p, "%4x", &uc) == 1` for a run of one to four hex
      digits; the leading whitespace, sign and `0x` prefix that `%4x` also
      accepts are not modelled. With
      `strict` (the corrected decoder), only a full four-digit group is
      accepted, as section 7 of RFC 8259 writes `\u` with four hex digits. */
  function ScanHex4(t: seq<char>, p: nat, strict: bool): (r: Option<nat>)
    ensures r.Some? ==> r.value < 0x1_0000
    ensures r.Some? <==> IsHex(At(t, p)) && (strict ==> HexRun(t, p, 4) == 4)
  {
    var n := HexRun(t, p, 4);
    if n == 0 || (strict && n < 4) then None
    else
      assert Pow(16, n) <= Pow(16, 4) by { PowMonotone(16, n, 4); }
      Some(HexNumber(t, p, n))
  }

  lemma {:induction false} PowMonotone(b: nat, m: nat, n: nat)
    requires b > 0 && m <= n
    ensures Pow(b, m) <= Pow(b, n)
    decreases n - m
  {
    if m < n {
      PowMonotone(b, m + 1, n);
    }
  }

  /** The `switch` on the character after a backslash, at q: the bytes it
      writes and where the cursor stands before the `ptr++` that follows.
      `\b \f \n \r \t` become control characters, `\u` a UTF-8 sequence
      (the cursor skips four characters, then six more for a second escape
      after a high surrogate), a `\u` that does not scan writes nothing, and
      any other character stands for itself. */
  function Escape(t: seq<char>, q: nat, strict: bool): (r: (seq<char>, nat))
    requires q <= |t|
    ensures q <= r.1 <= |t|
  {
    var c := At(t, q);
    if c == 'b' then ([8 as char], q)
    else if c == 'f' then ([12 as char], q)
    else if c == 'n' then (['\n'], q)
    else if c == 'r' then (['\r'], q)
    else if c == 't' then (['\t'], q)
    else if c == 'u' then
      match ScanHex4(t, q + 1, strict)
      case None => ([], q)
      case Some(uc) =>
        var q1 := Adv(t, q, 4);
        if 0xD800 <= uc <= 0xDBFF && At(t, q1 + 1) == '\\' && At(t, q1 + 2) == 'u'
           && ScanHex4(t, q1 + 3, strict).Some?
        then (Utf8.Encode(Utf8.CombineSurrogates(uc, ScanHex4(t, q1 + 3, strict).value)), Adv(t, q1, 6))
        else (Utf8.Encode(uc), q1)
    else ([c], q)
  }

  /** The second loop of `parse_string` from p, having written `out`: the
      bytes written when it stops at the closing quote or the terminator,
      and the position where it stopped. As written (`strict` false), a
      backslash just before a NUL writes that NUL and steps over it; the
      corrected decoder stops there, as the first loop does. */
  function DecodeFrom(t: seq<char>, p: nat, out: seq<char>, strict: bool): (r: (seq<char>, nat))
    requires p <= |t|
    ensures p <= r.1 <= |t|
    ensures At(t, r.1) == '"' || At(t, r.1) == NUL
    decreases |t| - p
  {
    if At(t, p) == '"' || At(t, p) == NUL then (out, p)
    else if t[p] != '\\' then DecodeFrom(t, p + 1, out + [t[p]], strict)
    else if strict && At(t, p + 1) == NUL then (out, p + 1)
    else
      var (bytes, q) := Escape(t, p + 1, strict);
      DecodeFrom(t, Adv(t, q, 1), out + bytes, strict)
  }

  /** The first loop of `parse_string` from p: `len`, the number of bytes it
      allocates room for (plus one for the terminator). A backslash and the
      character after it count once. */
  function CountFrom(t: seq<char>, p: nat): nat
    requires p <= |t|
    decreases |t| - p
  {
    if At(t, p) == '"' || At(t, p) == NUL then 0
    else
      var p1 := if t[p] == '\\' then p + 1 else p;
      var p2 := if At(t, p1) != NUL then p1 + 1 else p1;
      1 + CountFrom(t, p2)
  }

  /** `parse_string` at p: None unless the text starts with a quote;
      otherwise every byte the decoding loop writes, and the cursor just past
      the closing quote (or at the terminator when there is none). */
  function PString(t: seq<char>, p: nat, strict: bool): (r: Option<(seq<char>, nat)>)
    requires p <= |t|
    ensures r.Some? <==> At(t, p) == '"'
    ensures r.Some? ==> p < r.value.1 <= |t|
    ensures r.Some? ==> (p + 1 < r.value.1 && At(t, r.value.1 - 1) == '"') || At(t, r.value.1) == NUL
  {
    if At(t, p) != '"' then None
    else
      var (out, q) := DecodeFrom(t, p + 1, [], strict);
      Some((out, if At(t, q) == '"' then q + 1 else q))
  }

  // ---------------------------------------------------------------- numbers

  /** A run of digits from p accumulated as `n = n * 10 + digit` onto acc:
      the value and the position of the first non-digit. */
  function DigitsFrom(t: seq<char>, p: nat, acc: nat): (r: (nat, nat))
    requires p <= |t|
    ensures p <= r.1 <= |t| && !IsDigit(At(t, r.1))
    decreases |t| - p
  {
    if IsDigit(At(t, p)) then DigitsFrom(t, p + 1, acc * 10 + DigitValue(t[p])) else (acc, p)
  }

  /** `pow(10.0, e)` in exact arithmetic. */
  function Pow10(e: int): (r: real)
    ensures r > 0.0
  {
    if e >= 0 then Pow(10, e) as real else 1.0 / (Pow(10, -e) as real)
  }

  /** The integer digits of `parse_number` at s: '0' alone, or a run of
      digits starting 1-9; the value and the position after them. */
  function IntegerPart(t: seq<char>, s: nat): (r: Option<(nat, nat)>)
    requires s <= |t|
    ensures r.Some? ==> s < r.value.1 <= |t|
  {
    if At(t, s) == '0' then Some((0, s + 1))
    else if '1' <= At(t, s) <= '9' then Some(DigitsFrom(t, s, 0))
    else None
  }

  /** The fraction of `parse_number` at e, after the integer part n: '.'
      and its digits only when a digit follows the point. The mantissa with
      every fraction digit appended, `scale` (minus the number of fraction
      digits) and the position after them. */
  function Fraction(t: seq<char>, e: nat, n: nat): (r: (nat, int, nat))
    requires e <= |t|
    ensures e <= r.2 <= |t| && r.1 <= 0
  {
    if At(t, e) == '.' && IsDigit(At(t, e + 1)) then
      var (m, f) := DigitsFrom(t, e + 1, n);
      (m, -(f - (e + 1)), f)
    else (n, 0, e)
  }

  /** The exponent of `parse_number` at e: 'e' or 'E', an optional sign and
      any number of digits; `subscale`, `signsubscale` and the position after
      them. */
  function Exponent(t: seq<char>, e: nat): (r: (nat, int, nat))
    requires e <= |t|
    ensures e <= r.2 <= |t| && (r.1 == 1 || r.1 == -1)
  {
    if At(t, e) == 'e' || At(t, e) == 'E' then
      var e3 := e + 1;
      var negExp := At(t, e3) == '-';
      var e4 := if At(t, e3) == '+' || negExp then e3 + 1 else e3;
      var (sub, f) := DigitsFrom(t, e4, 0);
      (sub, if negExp then -1 else 1, f)
    else (0, 1, e)
  }

  /** sign * mantissa * 10^exponent, the value `parse_number` computes. */
  function Decimal(neg: bool, mantissa: nat, exponent: int): real
  {
    var sign := if neg then -1.0 else 1.0;
    sign * (mantissa as real) * Pow10(exponent)
  }

  /** `parse_number` at p: an optional '-', the integer part (None when it
      is missing), the fraction and the exponent. The value is sign *
      mantissa * 10^(scale + subscale * signsubscale). */
  function PNumber(t: seq<char>, p: nat): (r: Option<Parsed>)
    requires p <= |t|
    ensures r.Some? ==> p < r.value.end <= |t| && r.value.value.Number?
  {
    var neg := At(t, p) == '-';
    var s := if neg then p + 1 else p;
    if s > |t| then None
    else
      match IntegerPart(t, s)
      case None => None
      case Some((n, e)) =>
        var (mantissa, scale, e2) := Fraction(t, e, n);
        var (subscale, signsubscale, end) := Exponent(t, e2);
        Some(Parsed(Number(Decimal(neg, mantissa, scale + subscale * signsubscale)), end))
  }

  // ----------------------------------------------------------------- values

  /** `strncmp(text + p, lit, |lit|) == 0` for a literal without NUL. */
  predicate LiteralAt(t: seq<char>, p: nat, lit: seq<char>)
  {
    forall i | 0 <= i < |lit| :: At(t, p + i) == lit[i]
  }

  lemma LiteralFits(t: seq<char>, p: nat, lit: seq<char>)
    requires |lit| > 0 && NUL !in lit && LiteralAt(t, p, lit)
    ensures p + |lit| <= |t|
  {
    assert At(t, p + |lit| - 1) == lit[|lit| - 1];
  }

  /** `parse_value` at p: the literals null, false and true (4, 5 and 4
      characters), then dispatch on '"', on '-' or a digit, on '[' and on
      '{'; None for anything else. */
  function PValue(t: seq<char>, p: nat, strict: bool): (r: Option<Parsed>)
    requires p <= |t|
    ensures r.Some? ==> p < r.value.end <= |t|
    decreases |t| - p, 2
  {
    if LiteralAt(t, p, "null") then
      LiteralFits(t, p, "null");
      Some(Parsed(Null, p + 4))
    else if LiteralAt(t, p, "false") then
      LiteralFits(t, p, "false");
      Some(Parsed(False, p + 5))
    else if LiteralAt(t, p, "true") then
      LiteralFits(t, p, "true");
      Some(Parsed(True, p + 4))
    else if At(t, p) == '"' then
      var (s, e) := PString(t, p, strict).value;
      Some(Parsed(String(CStr(s)), e))
    else if At(t, p) == '-' || IsDigit(At(t, p)) then PNumber(t, p)
    else if At(t, p) == '[' then PArray(t, p, strict)
    else if At(t, p) == '{' then PObject(t, p, strict)
    else None
  }

  /** `parse_array` at p. */
  function PArray(t: seq<char>, p: nat, strict: bool): (r: Option<Parsed>)
    requires p <= |t|
    ensures r.Some? ==> p < r.value.end <= |t| && r.value.value.Array?
    decreases |t| - p, 1
  {
    if At(t, p) != '[' then None
    else
      var q := SkipWs(t, p + 1);
      if At(t, q) == ']' then Some(Parsed(Array([]), q + 1))
      else
        match PValue(t, SkipWs(t, q), strict)
        case None => None
        case Some(first) => PElements(t, SkipWs(t, first.end), [Member(None, first.value)], strict)
  }

  /** The `while (*value == ',')` loop of `parse_array` at p, with the
      elements parsed so far: another element after each comma, then the
      closing bracket. */
  function PElements(t: seq<char>, p: nat, acc: seq<Member>, strict: bool): (r: Option<Parsed>)
    requires p <= |t|
    ensures r.Some? ==> p < r.value.end <= |t| && r.value.value.Array?
    decreases |t| - p, 0
  {
    if At(t, p) == ',' then
      match PValue(t, SkipWs(t, p + 1), strict)
      case None => None
      case Some(next) => PElements(t, SkipWs(t, next.end), acc + [Member(None, next.value)], strict)
    else if At(t, p) == ']' then Some(Parsed(Array(acc), p + 1))
    else None
  }

  /** One object member at p, as `parse_object` reads it for the first member
      and after each comma: a string key, ':', a value, and the whitespace
      after it. */
  function PMember(t: seq<char>, p: nat, strict: bool): (r: Option<(Member, nat)>)
    requires p <= |t|
    ensures r.Some? ==> p < r.value.1 <= |t| && r.value.0.key.Some?
    decreases |t| - p, 2
  {
    match PString(t, p, strict)
    case None => None
    case Some((key, e)) =>
      var colon := SkipWs(t, e);
      if At(t, colon) != ':' then None
      else
        match PValue(t, SkipWs(t, colon + 1), strict)
        case None => None
        case Some(v) => Some((Member(Some(CStr(key)), v.value), SkipWs(t, v.end)))
  }

  /** `parse_object` at p. */
  function PObject(t: seq<char>, p: nat, strict: bool): (r: Option<Parsed>)
    requires p <= |t|
    ensures r.Some? ==> p < r.value.end <= |t| && r.value.value.Object?
    decreases |t| - p, 1
  {
    if At(t, p) != '{' then None
    else
      var q := SkipWs(t, p + 1);
      if At(t, q) == '}' then Some(Parsed(Object([]), q + 1))
      else
        match PMember(t, SkipWs(t, q), strict)
        case None => None
        case Some((m, e)) => PMembers(t, e, [m], strict)
  }

  /** The `while (*value == ',')` loop of `parse_object`. */
  function PMembers(t: seq<char>, p: nat, acc: seq<Member>, strict: bool): (r: Option<Parsed>)
    requires p <= |t|
    ensures r.Some? ==> p < r.value.end <= |t| && r.value.value.Object?
    decreases |t| - p, 0
  {
    if At(t, p) == ',' then
      match PMember(t, SkipWs(t, p + 1), strict)
      case None => None
      case Some((m, e)) => PMembers(t, e, acc + [m], strict)
    else if At(t, p) == '}' then Some(Parsed(Object(acc), p + 1))
    else None
  }

  /** `cJSON_Parse`: leading whitespace, one value, and nothing checked after
      it. */
  function Parse(t: seq<char>, strict: bool): Option<Value>
  {
    match PValue(t, SkipWs(t, 0), strict)
    case None => None
    case Some(r) => Some(r.value)
  }
}
