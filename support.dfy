/** Small shared vocabulary: optional values, 8-bit values and C-string views. */
module Support {

  datatype Option<T> = None | Some(value: T)

  /** An unsigned 8-bit value (a `uint8_t` pixel sample or a byte of text). */
  type Byte = b: int | 0 <= b < 256

  const NUL: char := 0 as char

  /** The byte at index i of a NUL-terminated buffer whose contents are s.
      Index |s| is the terminator; indices beyond it are also read as NUL
      (C would read past the buffer there). */
  function At(s: seq<char>, i: int): (c: char)
    ensures 0 <= i < |s| ==> c == s[i]
    ensures (i < 0 || i >= |s|) ==> c == NUL
  {
    if 0 <= i < |s| then s[i] else NUL
  }

  /** The C string a buffer holds: everything before its first NUL. */
  function CStr(s: seq<char>): (r: seq<char>)
    ensures |r| <= |s| && r == s[..|r|]
    ensures NUL !in r
    ensures |r| < |s| ==> s[|r|] == NUL
  {
    if |s| == 0 || s[0] == NUL then [] else [s[0]] + CStr(s[1..])
  }

  lemma {:induction false} CStrOfNulFree(s: seq<char>)
    requires NUL !in s
    ensures CStr(s) == s
  {
    if |s| > 0 {
      assert NUL !in s[1..];
      CStrOfNulFree(s[1..]);
    }
  }

  /** `strncpy(dest, src, n)` followed by `dest[n] = 0`, seen as a C string. */
  function StrNCopy(src: seq<char>, n: nat): (r: seq<char>)
    ensures |r| <= n && NUL !in r
    ensures |CStr(src)| <= n ==> r == CStr(src)
    ensures |CStr(src)| > n ==> r == CStr(src)[..n]
  {
    var c := CStr(src);
    if |c| <= n then c else c[..n]
  }

  /** Left-to-right sum, the order in which the C loops accumulate. */
  function Sum(s: seq<real>): real
  {
    if |s| == 0 then 0.0 else Sum(s[..|s| - 1]) + s[|s| - 1]
  }

  /** A C `(int)` cast of a value in range: truncation toward zero. */
  function TruncToInt(v: real): (n: int)
    ensures v >= 0.0 ==> n as real <= v < n as real + 1.0
    ensures v < 0.0 ==> n as real - 1.0 < v <= n as real
  {
    if v >= 0.0 then v.Floor else -((-v).Floor)
  }

  function Pow(b: nat, e: nat): (r: nat)
    ensures b > 0 ==> r > 0
  {
    if e == 0 then 1 else b * Pow(b, e - 1)
  }

  function Min(a: int, b: int): int { if a <= b then a else b }
  function Max(a: int, b: int): int { if a >= b then a else b }
}
