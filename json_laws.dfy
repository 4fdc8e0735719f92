/** Properties of the parser specification in module Json: the two ways the
    string decoder as written outgrows the buffer its first loop sized, the
    bound the corrected decoder keeps, and the dispatch and shape facts of
    `parse_value`, `parse_array`, `parse_object` and `parse_number`. */
module JsonLaws {
  import opened Support
  import opened Json
  import Utf8

  // ------------------------------------------------- the string buffer bound

  /** `"\u1"xyzw"`: the first loop counts two bytes, but the escape scans one
      hex digit and then skips four characters, over the closing quote, so
      the second loop writes three bytes (then the terminator) into a buffer
      of three. */
  lemma ShortUnicodeEscapeOverruns()
    ensures var t := ['"', '\\', 'u', '1', '"', 'x', 'y', 'z', 'w', '"'];
      CountFrom(t, 1) == 2 && DecodeFrom(t, 1, [], false).0 == [1 as char, 'z', 'w']
  {
    var t := ['"', '\\', 'u', '1', '"', 'x', 'y', 'z', 'w', '"'];
    assert HexRun(t, 4, 3) == 0;
    assert HexRun(t, 3, 4) == 1;
    assert ScanHex4(t, 3, false) == Some(1);
    assert Escape(t, 2, false) == ([1 as char], 6);
    var o1, o2, o3 := [1 as char], [1 as char, 'z'], [1 as char, 'z', 'w'];
    assert o1 + ['z'] == o2 && o2 + ['w'] == o3;
    assert At(t, 9) == '"' && At(t, 8) == 'w' && At(t, 7) == 'z';
    assert DecodeFrom(t, 9, o3, false) == (o3, 9);
    assert DecodeFrom(t, 8, o2, false) == DecodeFrom(t, 9, o3, false);
    assert DecodeFrom(t, 7, o1, false) == DecodeFrom(t, 8, o2, false);
    assert DecodeFrom(t, 1, [], false) == DecodeFrom(t, 7, [] + o1, false);
    assert [] + o1 == o1;
    assert CountFrom(t, 4) == 0;
    assert CountFrom(t, 3) == 1;
  }

  /** A backslash followed by a NUL byte in the file: the first loop counts
      one byte, the second writes the NUL, steps over it and goes on copying
      up to the next quote. */
  lemma EscapedTerminatorOverruns()
    ensures var t := ['"', '\\', NUL, 'a', 'b', '"'];
      CountFrom(t, 1) == 1 && DecodeFrom(t, 1, [], false).0 == [NUL, 'a', 'b']
  {
    var t := ['"', '\\', NUL, 'a', 'b', '"'];
    assert Escape(t, 2, false) == ([NUL], 2);
    var o1, o2, o3 := [NUL], [NUL, 'a'], [NUL, 'a', 'b'];
    assert o1 + ['a'] == o2 && o2 + ['b'] == o3;
    assert At(t, 5) == '"' && At(t, 4) == 'b' && At(t, 3) == 'a';
    assert DecodeFrom(t, 5, o3, false) == (o3, 5);
    assert DecodeFrom(t, 4, o2, false) == DecodeFrom(t, 5, o3, false);
    assert DecodeFrom(t, 3, o1, false) == DecodeFrom(t, 4, o2, false);
    assert DecodeFrom(t, 1, [], false) == DecodeFrom(t, 3, [] + o1, false);
    assert [] + o1 == o1;
    assert CountFrom(t, 2) == 0;
  }

  /** Characters that are neither a quote, a backslash nor NUL count one
      each in the first loop. */
  lemma {:induction false} CountOverPlain(t: seq<char>, a: nat, k: nat)
    requires a + k <= |t|
    requires forall j | a <= j < a + k :: t[j] != '"' && t[j] != '\\' && t[j] != NUL
    ensures CountFrom(t, a) == k + CountFrom(t, a + k)
    decreases k
  {
    if k > 0 {
      CountOverPlain(t, a + 1, k - 1);
    }
  }

  lemma HexIsPlain(c: char)
    requires IsHex(c)
    ensures c != '"' && c != '\\' && c != NUL
  {
  }

  /** Four hex digits at a: each counts one byte in the first loop. */
  lemma CountOverHex(t: seq<char>, a: nat)
    requires a + 4 <= |t| && HexRun(t, a, 4) == 4
    ensures CountFrom(t, a) == 4 + CountFrom(t, a + 4)
  {
    forall j | a <= j < a + 4
      ensures t[j] != '"' && t[j] != '\\' && t[j] != NUL
    {
      HexIsPlain(At(t, j));
    }
    CountOverPlain(t, a, 4);
  }

  lemma HexRunFits(t: seq<char>, a: nat)
    requires HexRun(t, a, 4) == 4
    ensures a + 4 <= |t|
  {
    assert IsHex(At(t, a + 3));
  }

  /** One escape of the corrected decoder writes no more bytes than the
      first loop counted for the characters it consumes. */
  lemma EscapeFits(t: seq<char>, p: nat)
    requires p + 1 < |t| && t[p] == '\\' && t[p + 1] != NUL
    ensures var (bytes, q) := Escape(t, p + 1, true);
      |bytes| + CountFrom(t, Adv(t, q, 1)) <= CountFrom(t, p)
  {
    assert CountFrom(t, p) == 1 + CountFrom(t, p + 2);
    if t[p + 1] == 'u' && ScanHex4(t, p + 2, true).Some? {
      UnicodeEscapeFits(t, p);
    }
  }

  /** The `\\u` case: five counted characters for at most three bytes, or
      ten for the four bytes of a surrogate pair. */
  lemma UnicodeEscapeFits(t: seq<char>, p: nat)
    requires p + 1 < |t| && t[p] == '\\' && t[p + 1] == 'u'
    requires ScanHex4(t, p + 2, true).Some?
    ensures var (bytes, q) := Escape(t, p + 1, true);
      |bytes| + CountFrom(t, Adv(t, q, 1)) <= 1 + CountFrom(t, p + 2)
  {
    var uc := ScanHex4(t, p + 2, true).value;
    HexRunFits(t, p + 2);
    CountOverHex(t, p + 2);
    assert Adv(t, p + 1, 4) == p + 5;
    if 0xD800 <= uc <= 0xDBFF && At(t, p + 6) == '\\' && At(t, p + 7) == 'u'
       && ScanHex4(t, p + 8, true).Some? {
      SurrogatePairFits(t, p, uc);
    } else {
      var bytes := Utf8.Encode(uc);
      assert Escape(t, p + 1, true) == (bytes, p + 5);
      assert |bytes| <= 3;
    }
  }

  lemma SurrogatePairFits(t: seq<char>, p: nat, uc: nat)
    requires p + 6 <= |t| && t[p] == '\\' && t[p + 1] == 'u'
    requires ScanHex4(t, p + 2, true) == Some(uc) && 0xD800 <= uc <= 0xDBFF
    requires At(t, p + 6) == '\\' && At(t, p + 7) == 'u' && ScanHex4(t, p + 8, true).Some?
    requires CountFrom(t, p + 2) == 4 + CountFrom(t, p + 6)
    ensures var (bytes, q) := Escape(t, p + 1, true);
      |bytes| + CountFrom(t, Adv(t, q, 1)) <= 1 + CountFrom(t, p + 2)
  {
    HexRunFits(t, p + 8);
    var cp := Utf8.CombineSurrogates(uc, ScanHex4(t, p + 8, true).value);
    assert Escape(t, p + 1, true) == (Utf8.Encode(cp), p + 11) by {
      assert Adv(t, p + 1, 4) == p + 5;
      assert Adv(t, p + 5, 6) == p + 11;
    }
    assert CountFrom(t, p + 6) == 5 + CountFrom(t, p + 12) by {
      CountOverHex(t, p + 8);
      assert CountFrom(t, p + 6) == 1 + CountFrom(t, p + 8);
    }
  }

  /** The corrected decoder never writes more bytes than the first loop
      allocated room for: the buffer of `len + 1` bytes always holds the
      output and its terminator. */
  lemma {:induction false} DecodedFitsCount(t: seq<char>, p: nat, out: seq<char>)
    requires p <= |t|
    ensures |DecodeFrom(t, p, out, true).0| <= |out| + CountFrom(t, p)
    decreases |t| - p
  {
    if At(t, p) == '"' || At(t, p) == NUL {
    } else if t[p] != '\\' {
      DecodedFitsCount(t, p + 1, out + [t[p]]);
    } else if At(t, p + 1) == NUL {
    } else {
      var (bytes, q) := Escape(t, p + 1, true);
      EscapeFits(t, p);
      DecodedFitsCount(t, Adv(t, q, 1), out + bytes);
    }
  }

  // -------------------------------------------------------- string contents

  /** The character `\c` stands for when c is not `u`: the five control
      escapes, and c itself for every other character (so `\"`, `\\` and
      `\/` give a quote, a backslash and a slash). */
  function EscapedChar(c: char): (e: char)
    ensures c !in "bfnrt" ==> e == c
  {
    match c
    case 'b' => 8 as char
    case 'f' => 12 as char
    case 'n' => 10 as char
    case 'r' => 13 as char
    case 't' => 9 as char
    case _ => c
  }

  /** A backslash and a character other than `u` and NUL write the one byte
      `EscapedChar` gives, and decoding goes on after the pair. */
  lemma SimpleEscapeStep(t: seq<char>, p: nat, out: seq<char>, strict: bool)
    requires p + 1 < |t| && t[p] == '\\' && t[p + 1] != 'u' && t[p + 1] != NUL
    ensures DecodeFrom(t, p, out, strict) == DecodeFrom(t, p + 2, out + [EscapedChar(t[p + 1])], strict)
  {
    assert Escape(t, p + 1, strict) == ([EscapedChar(t[p + 1])], p + 1);
  }

  /** Characters other than a quote, a backslash and NUL are copied as they
      are. */
  lemma {:induction false} PlainRunCopied(t: seq<char>, p: nat, k: nat, out: seq<char>, strict: bool)
    requires p + k <= |t|
    requires forall j | p <= j < p + k :: t[j] != '"' && t[j] != '\\' && t[j] != NUL
    ensures DecodeFrom(t, p, out, strict) == DecodeFrom(t, p + k, out + t[p..p + k], strict)
    decreases k
  {
    if k > 0 {
      assert DecodeFrom(t, p, out, strict) == DecodeFrom(t, p + 1, out + [t[p]], strict);
      PlainRunCopied(t, p + 1, k - 1, out + [t[p]], strict);
      assert out + [t[p]] + t[p + 1..p + k] == out + t[p..p + k];
    } else {
      assert out + t[p..p + k] == out;
    }
  }

  /** A quoted run of plain characters parses as itself, and the cursor ends
      just past the closing quote. */
  lemma PlainStringParses(s: seq<char>, strict: bool)
    requires forall j | 0 <= j < |s| :: s[j] != '"' && s[j] != '\\' && s[j] != NUL
    ensures PString(['"'] + s + ['"'], 0, strict) == Some((s, |s| + 2))
  {
    var t := ['"'] + s + ['"'];
    PlainRunCopied(t, 1, |s|, [], strict);
    assert [] + t[1..1 + |s|] == s;
    assert At(t, |s| + 1) == '"';
    assert DecodeFrom(t, |s| + 1, s, strict) == (s, |s| + 1);
  }

  /** `"\c"` for c other than `u` and NUL is the one character
      `EscapedChar(c)`: `"\n"` is a newline and `"\""` a quote. */
  lemma EscapedStringParses(c: char, strict: bool)
    requires c != 'u' && c != NUL
    ensures PString(['"', '\\', c, '"'], 0, strict) == Some(([EscapedChar(c)], 4))
  {
    var t := ['"', '\\', c, '"'];
    SimpleEscapeStep(t, 1, [], strict);
    assert [] + [EscapedChar(c)] == [EscapedChar(c)];
    assert DecodeFrom(t, 3, [EscapedChar(c)], strict) == ([EscapedChar(c)], 3);
  }

  // ------------------------------------------------------ values and shapes

  lemma LiteralHead(t: seq<char>, p: nat, lit: seq<char>)
    requires |lit| > 0 && LiteralAt(t, p, lit)
    ensures At(t, p) == lit[0]
  {
    assert At(t, p + 0) == lit[0];
  }

  lemma NotLiteral(t: seq<char>, p: nat, lit: seq<char>)
    requires |lit| > 0 && At(t, p) != lit[0]
    ensures !LiteralAt(t, p, lit)
  {
    if LiteralAt(t, p, lit) {
      LiteralHead(t, p, lit);
    }
  }

  /** The literals consume exactly 4, 5 and 4 characters. */
  lemma LiteralsConsume(t: seq<char>, p: nat, strict: bool)
    requires p <= |t|
    ensures LiteralAt(t, p, "null") ==> PValue(t, p, strict) == Some(Parsed(Null, p + 4))
    ensures LiteralAt(t, p, "false") ==> PValue(t, p, strict) == Some(Parsed(False, p + 5))
    ensures LiteralAt(t, p, "true") ==> PValue(t, p, strict) == Some(Parsed(True, p + 4))
  {
    if LiteralAt(t, p, "false") {
      LiteralHead(t, p, "false");
      NotLiteral(t, p, "null");
    }
    if LiteralAt(t, p, "true") {
      LiteralHead(t, p, "true");
      NotLiteral(t, p, "null");
      NotLiteral(t, p, "false");
    }
  }

  /** A value starts with one of n f t " - 0-9 [ {; anything else fails. */
  lemma ValueNeedsKnownStart(t: seq<char>, p: nat, strict: bool)
    requires p <= |t|
    requires PValue(t, p, strict).Some?
    ensures At(t, p) in "nft\"-[{" || IsDigit(At(t, p))
  {
    if LiteralAt(t, p, "null") {
      LiteralHead(t, p, "null");
    } else if LiteralAt(t, p, "false") {
      LiteralHead(t, p, "false");
    } else if LiteralAt(t, p, "true") {
      LiteralHead(t, p, "true");
    }
  }

  /** `parse_number` fails when no digit follows the optional minus sign. */
  lemma NumberNeedsDigit(t: seq<char>, p: nat, strict: bool)
    requires p < |t| && t[p] == '-' && !IsDigit(At(t, p + 1))
    ensures PValue(t, p, strict) == None
  {
    assert !LiteralAt(t, p, "null") by { NotLiteral(t, p, "null"); }
    assert !LiteralAt(t, p, "false") by { NotLiteral(t, p, "false"); }
    assert !LiteralAt(t, p, "true") by { NotLiteral(t, p, "true"); }
  }

  /** `[]` and `{}`, with any whitespace inside, have no children. */
  lemma EmptyContainers(t: seq<char>, p: nat, strict: bool)
    requires p < |t|
    ensures t[p] == '[' && At(t, SkipWs(t, p + 1)) == ']' ==>
      PValue(t, p, strict) == Some(Parsed(Array([]), SkipWs(t, p + 1) + 1))
    ensures t[p] == '{' && At(t, SkipWs(t, p + 1)) == '}' ==>
      PValue(t, p, strict) == Some(Parsed(Object([]), SkipWs(t, p + 1) + 1))
  {
    if t[p] == '[' || t[p] == '{' {
      assert !LiteralAt(t, p, "null") by { NotLiteral(t, p, "null"); }
      assert !LiteralAt(t, p, "false") by { NotLiteral(t, p, "false"); }
      assert !LiteralAt(t, p, "true") by { NotLiteral(t, p, "true"); }
    }
  }

  /** Every member of a parsed object had a ':' after its key. */
  lemma MemberNeedsColon(t: seq<char>, p: nat, strict: bool)
    requires p <= |t|
    requires PMember(t, p, strict).Some?
    ensures PString(t, p, strict).Some?
    ensures At(t, SkipWs(t, PString(t, p, strict).value.1)) == ':'
  {
  }

  /** Array elements carry no key and object members always do, so the
      children of a parsed node are told apart by their key. */
  lemma {:induction false} ElementsHaveNoKey(t: seq<char>, p: nat, acc: seq<Member>, strict: bool)
    requires p <= |t|
    requires forall i | 0 <= i < |acc| :: acc[i].key.None?
    requires PElements(t, p, acc, strict).Some?
    ensures var items := PElements(t, p, acc, strict).value.value.items;
      |items| >= |acc| && items[..|acc|] == acc &&
      forall i | 0 <= i < |items| :: items[i].key.None?
    decreases |t| - p
  {
    if At(t, p) == ',' {
      var next := PValue(t, SkipWs(t, p + 1), strict).value;
      var acc' := acc + [Member(None, next.value)];
      ElementsHaveNoKey(t, SkipWs(t, next.end), acc', strict);
      var items := PElements(t, p, acc, strict).value.value.items;
      assert items[..|acc'|] == acc';
      assert items[..|acc|] == acc'[..|acc|];
    }
  }

  lemma {:induction false} MembersHaveKeys(t: seq<char>, p: nat, acc: seq<Member>, strict: bool)
    requires p <= |t|
    requires forall i | 0 <= i < |acc| :: acc[i].key.Some?
    requires PMembers(t, p, acc, strict).Some?
    ensures var items := PMembers(t, p, acc, strict).value.value.items;
      |items| >= |acc| && items[..|acc|] == acc &&
      forall i | 0 <= i < |items| :: items[i].key.Some?
    decreases |t| - p
  {
    if At(t, p) == ',' {
      var (m, e) := PMember(t, SkipWs(t, p + 1), strict).value;
      var acc' := acc + [m];
      MembersHaveKeys(t, e, acc', strict);
      var items := PMembers(t, p, acc, strict).value.value.items;
      assert items[..|acc'|] == acc';
      assert items[..|acc|] == acc'[..|acc|];
    }
  }

  /** The children of a parsed array have no key and those of a parsed
      object all have one. */
  lemma ParsedKeys(t: seq<char>, p: nat, strict: bool)
    requires p <= |t| && PValue(t, p, strict).Some?
    ensures var v := PValue(t, p, strict).value.value;
      (v.Array? ==> forall i | 0 <= i < |v.items| :: v.items[i].key.None?) &&
      (v.Object? ==> forall i | 0 <= i < |v.items| :: v.items[i].key.Some?)
  {
    if !LiteralAt(t, p, "null") && !LiteralAt(t, p, "false") && !LiteralAt(t, p, "true") && At(t, p) != '"'
       && !(At(t, p) == '-' || IsDigit(At(t, p))) {
      if At(t, p) == '[' {
        var q := SkipWs(t, p + 1);
        if At(t, q) != ']' {
          var first := PValue(t, SkipWs(t, q), strict).value;
          ElementsHaveNoKey(t, SkipWs(t, first.end), [Member(None, first.value)], strict);
        }
      } else if At(t, p) == '{' {
        var q := SkipWs(t, p + 1);
        if At(t, q) != '}' {
          var (m, e) := PMember(t, SkipWs(t, q), strict).value;
          MembersHaveKeys(t, e, [m], strict);
        }
      }
    }
  }

  /** `cJSON_Parse` checks nothing after the value: "0123" is the number 0. */
  lemma TrailingTextIgnored(strict: bool)
    ensures Parse("0123", strict) == Some(Number(0.0))
  {
    var t := "0123";
    assert SkipWs(t, 0) == 0;
    assert !LiteralAt(t, 0, "null") by { NotLiteral(t, 0, "null"); }
    assert !LiteralAt(t, 0, "false") by { NotLiteral(t, 0, "false"); }
    assert !LiteralAt(t, 0, "true") by { NotLiteral(t, 0, "true"); }
    assert PNumber(t, 0) == Some(Parsed(Number(0.0), 1));
  }

  // -------------------------------------- the two decoders on well-formed text

  /** `"\u41zz"`: the decoder as written reads the two hex digits there are
      and stores "A"; the corrected one refuses the short escape, drops the
      backslash and copies the rest as text. */
  lemma ShortUnicodeEscapeDiffers()
    ensures var t := ['"', '\\', 'u', '4', '1', 'z', 'z', '"'];
      PString(t, 0, false) == Some((['A'], 8)) && PString(t, 0, true) == Some((['4', '1', 'z', 'z'], 8))
  {
    var t := ['"', '\\', 'u', '4', '1', 'z', 'z', '"'];
    ShortEscapeAsWritten(t);
    ShortEscapeCorrected(t);
  }

  lemma ShortEscapeHexRun(t: seq<char>)
    requires t == ['"', '\\', 'u', '4', '1', 'z', 'z', '"']
    ensures HexRun(t, 3, 4) == 2
  {
    assert HexRun(t, 5, 2) == 0;
  }

  lemma ShortEscapeAsWritten(t: seq<char>)
    requires t == ['"', '\\', 'u', '4', '1', 'z', 'z', '"']
    ensures PString(t, 0, false) == Some((['A'], 8))
  {
    ShortEscapeHexRun(t);
    assert HexNumber(t, 3, 1) == 4;
    assert HexNumber(t, 3, 2) == 0x41;
    assert ScanHex4(t, 3, false) == Some(0x41);
    assert Utf8.Encode(0x41) == ['A'];
    assert Escape(t, 2, false) == (['A'], 6);
    assert Adv(t, 6, 1) == 7 && [] + ['A'] == ['A'];
    assert DecodeFrom(t, 1, [], false) == DecodeFrom(t, 7, ['A'], false);
  }

  lemma ShortEscapeCorrected(t: seq<char>)
    requires t == ['"', '\\', 'u', '4', '1', 'z', 'z', '"']
    ensures PString(t, 0, true) == Some((['4', '1', 'z', 'z'], 8))
  {
    ShortEscapeHexRun(t);
    assert ScanHex4(t, 3, true) == None;
    assert Escape(t, 2, true) == ([], 2);
    assert Adv(t, 2, 1) == 3;
    var none: seq<char> := [];
    assert none + none == none;
    assert DecodeFrom(t, 1, [], true) == DecodeFrom(t, 3, [], true);
    PlainRunCopied(t, 3, 4, [], true);
    assert [] + t[3..7] == ['4', '1', 'z', 'z'];
  }

  /** The number of backslashes directly before position i. */
  function BackslashesBefore(t: seq<char>, i: nat): (n: nat)
    requires i <= |t|
    ensures n <= i
  {
    if i == 0 || t[i - 1] != '\\' then 0 else 1 + BackslashesBefore(t, i - 1)
  }

  /** Every backslash that starts an escape, one with an even number of
      backslashes before it, is followed by a character other than NUL, and
      every `\u` by four hex digits. */
  predicate EscapesWellFormed(t: seq<char>)
  {
    forall i {:trigger EscapeWellFormedAt(t, i)} | 0 <= i < |t| && t[i] == '\\' && BackslashesBefore(t, i) % 2 == 0 ::
      EscapeWellFormedAt(t, i)
  }

  /** The escape whose backslash is at i is complete. */
  predicate EscapeWellFormedAt(t: seq<char>, i: nat)
  {
    At(t, i + 1) != NUL && (At(t, i + 1) == 'u' ==> HexRun(t, i + 2, 4) == 4)
  }

  /** At a backslash that starts an escape of a well-formed text both
      decoders read the same escape, and the next position again starts
      with an even number of backslashes. */
  lemma EscapeAgrees(t: seq<char>, p: nat)
    requires p < |t| && t[p] == '\\' && BackslashesBefore(t, p) % 2 == 0 && EscapesWellFormed(t)
    ensures At(t, p + 1) != NUL
    ensures Escape(t, p + 1, true) == Escape(t, p + 1, false)
    ensures BackslashesBefore(t, Adv(t, Escape(t, p + 1, true).1, 1)) % 2 == 0
  {
    assert EscapeWellFormedAt(t, p);
    if t[p + 1] == 'u' {
      UnicodeEscapeAgrees(t, p);
    } else {
      assert Escape(t, p + 1, true) == ([EscapedChar(t[p + 1])], p + 1) == Escape(t, p + 1, false);
      assert Adv(t, p + 1, 1) == p + 2;
      if t[p + 1] == '\\' {
        assert BackslashesBefore(t, p + 2) == BackslashesBefore(t, p) + 2;
      } else {
        assert BackslashesBefore(t, p + 2) == 0;
      }
    }
  }

  /** The `\u` case of `EscapeAgrees`: four hex digits follow, so both
      decoders scan the same code unit, and the same second one after a high
      surrogate; the escape ends on a hex digit. */
  lemma UnicodeEscapeAgrees(t: seq<char>, p: nat)
    requires p + 1 < |t| && t[p] == '\\' && t[p + 1] == 'u' && HexRun(t, p + 2, 4) == 4
    requires EscapesWellFormed(t)
    ensures Escape(t, p + 1, true) == Escape(t, p + 1, false)
    ensures BackslashesBefore(t, Adv(t, Escape(t, p + 1, true).1, 1)) == 0
  {
    HexRunFits(t, p + 2);
    assert ScanHex4(t, p + 2, true) == ScanHex4(t, p + 2, false);
    assert IsHex(At(t, p + 5));
    assert BackslashesBefore(t, p + 6) == 0;
    if At(t, p + 6) == '\\' && At(t, p + 7) == 'u' {
      assert EscapeWellFormedAt(t, p + 6);
      HexRunFits(t, p + 8);
      assert ScanHex4(t, p + 8, true) == ScanHex4(t, p + 8, false);
      assert IsHex(At(t, p + 11));
      assert BackslashesBefore(t, p + 12) == 0;
    }
  }

  /** On a well-formed text the two decoders agree from every position that
      starts with an even number of backslashes. */
  lemma {:induction false} DecodersAgreeFrom(t: seq<char>, p: nat, out: seq<char>)
    requires p <= |t| && BackslashesBefore(t, p) % 2 == 0 && EscapesWellFormed(t)
    ensures DecodeFrom(t, p, out, true) == DecodeFrom(t, p, out, false)
    decreases |t| - p
  {
    if At(t, p) == '"' || At(t, p) == NUL {
    } else if t[p] != '\\' {
      assert BackslashesBefore(t, p + 1) == 0;
      DecodersAgreeFrom(t, p + 1, out + [t[p]]);
    } else {
      EscapeAgrees(t, p);
      var (bytes, q) := Escape(t, p + 1, true);
      DecodersAgreeFrom(t, Adv(t, q, 1), out + bytes);
    }
  }

  lemma StringDecodersAgree(t: seq<char>, p: nat)
    requires p <= |t| && EscapesWellFormed(t)
    ensures PString(t, p, true) == PString(t, p, false)
  {
    if At(t, p) == '"' {
      assert BackslashesBefore(t, p + 1) == 0;
      DecodersAgreeFrom(t, p + 1, []);
    }
  }

  lemma {:induction false} ValueDecodersAgree(t: seq<char>, p: nat)
    requires p <= |t| && EscapesWellFormed(t)
    ensures PValue(t, p, true) == PValue(t, p, false)
    decreases |t| - p, 2
  {
    if !LiteralAt(t, p, "null") && !LiteralAt(t, p, "false") && !LiteralAt(t, p, "true") {
      if At(t, p) == '"' {
        StringDecodersAgree(t, p);
      } else if At(t, p) == '-' || IsDigit(At(t, p)) {
      } else if At(t, p) == '[' {
        ArrayDecodersAgree(t, p);
      } else if At(t, p) == '{' {
        ObjectDecodersAgree(t, p);
      }
    }
  }

  lemma {:induction false} ArrayDecodersAgree(t: seq<char>, p: nat)
    requires p <= |t| && EscapesWellFormed(t)
    ensures PArray(t, p, true) == PArray(t, p, false)
    decreases |t| - p, 1
  {
    if At(t, p) == '[' {
      var q := SkipWs(t, p + 1);
      if At(t, q) != ']' {
        ValueDecodersAgree(t, SkipWs(t, q));
        if PValue(t, SkipWs(t, q), true).Some? {
          var first := PValue(t, SkipWs(t, q), true).value;
          ElementsDecodersAgree(t, SkipWs(t, first.end), [Member(None, first.value)]);
        }
      }
    }
  }

  lemma {:induction false} ElementsDecodersAgree(t: seq<char>, p: nat, acc: seq<Member>)
    requires p <= |t| && EscapesWellFormed(t)
    ensures PElements(t, p, acc, true) == PElements(t, p, acc, false)
    decreases |t| - p, 0
  {
    if At(t, p) == ',' {
      ValueDecodersAgree(t, SkipWs(t, p + 1));
      if PValue(t, SkipWs(t, p + 1), true).Some? {
        var next := PValue(t, SkipWs(t, p + 1), true).value;
        ElementsDecodersAgree(t, SkipWs(t, next.end), acc + [Member(None, next.value)]);
      }
    }
  }

  lemma {:induction false} MemberDecodersAgree(t: seq<char>, p: nat)
    requires p <= |t| && EscapesWellFormed(t)
    ensures PMember(t, p, true) == PMember(t, p, false)
    decreases |t| - p, 2
  {
    StringDecodersAgree(t, p);
    if PString(t, p, true).Some? {
      var (key, e) := PString(t, p, true).value;
      var colon := SkipWs(t, e);
      if At(t, colon) == ':' {
        ValueDecodersAgree(t, SkipWs(t, colon + 1));
      }
    }
  }

  lemma {:induction false} ObjectDecodersAgree(t: seq<char>, p: nat)
    requires p <= |t| && EscapesWellFormed(t)
    ensures PObject(t, p, true) == PObject(t, p, false)
    decreases |t| - p, 1
  {
    if At(t, p) == '{' {
      var q := SkipWs(t, p + 1);
      if At(t, q) != '}' {
        MemberDecodersAgree(t, SkipWs(t, q));
        if PMember(t, SkipWs(t, q), true).Some? {
          var (m, e) := PMember(t, SkipWs(t, q), true).value;
          MembersDecodersAgree(t, e, [m]);
        }
      }
    }
  }

  lemma {:induction false} MembersDecodersAgree(t: seq<char>, p: nat, acc: seq<Member>)
    requires p <= |t| && EscapesWellFormed(t)
    ensures PMembers(t, p, acc, true) == PMembers(t, p, acc, false)
    decreases |t| - p, 0
  {
    if At(t, p) == ',' {
      MemberDecodersAgree(t, SkipWs(t, p + 1));
      if PMember(t, SkipWs(t, p + 1), true).Some? {
        var (m, e) := PMember(t, SkipWs(t, p + 1), true).value;
        MembersDecodersAgree(t, e, acc + [m]);
      }
    }
  }

  /** Where every escape is well formed, the corrected decoder changes
      nothing: both parse the text to the same value. */
  lemma ParseDecodersAgree(t: seq<char>)
    requires EscapesWellFormed(t)
    ensures Parse(t, true) == Parse(t, false)
  {
    ValueDecodersAgree(t, SkipWs(t, 0));
  }
}
