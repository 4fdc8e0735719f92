/** The `getopt_long` config.c defines for Windows builds. Its static
    `optind` and `optarg` are passed in and returned; `argc` is |argv|, and
    each argument is a C string. `longopts` holds the entries before the
    all-zero terminator. */
module Getopt {
  import opened Support

  /** A `struct option`: name, has_arg (0 for none) and the value returned. */
  datatype LongOption = LongOption(name: seq<char>, hasArg: int, val: int)

  const Unknown: int := '?' as int
  const Done: int := -1

  /** The index of the first long option named `name`, if any. */
  function LongMatch(longopts: seq<LongOption>, name: seq<char>): (m: Option<nat>)
    ensures m.Some? ==> m.value < |longopts| && CStr(longopts[m.value].name) == name
    ensures m.Some? ==> forall j | 0 <= j < m.value :: CStr(longopts[j].name) != name
    ensures m.None? ==> forall j | 0 <= j < |longopts| :: CStr(longopts[j].name) != name
  {
    if |longopts| == 0 then None
    else if CStr(longopts[0].name) == name then Some(0)
    else match LongMatch(longopts[1..], name)
      case None => None
      case Some(k) => Some(k + 1)
  }

  /** `strchr(optstring, c)` as an index: the first c in the C string, and
      the terminator's index for c = NUL. */
  function ShortIndex(optstring: seq<char>, c: char): (k: Option<nat>)
    ensures k.Some? ==> k.value <= |CStr(optstring)| && At(CStr(optstring), k.value) == c
    ensures k.Some? ==> forall j | 0 <= j < k.value :: CStr(optstring)[j] != c
    ensures k.None? ==> c != NUL && c !in CStr(optstring)
  {
    FirstIndexFrom(CStr(optstring), c, 0)
  }

  function FirstIndexFrom(s: seq<char>, c: char, i: nat): (k: Option<nat>)
    requires i <= |s| && NUL !in s
    requires forall j | 0 <= j < i :: s[j] != c
    ensures k.Some? ==> i <= k.value <= |s| && At(s, k.value) == c
    ensures k.Some? ==> forall j | 0 <= j < k.value :: s[j] != c
    ensures k.None? ==> c != NUL && c !in s
    decreases |s| - i
  {
    if i == |s| then (if c == NUL then Some(i) else None)
    else if s[i] == c then Some(i)
    else FirstIndexFrom(s, c, i + 1)
  }

  /** One call of `getopt_long`. It returns -1 (leaving the state alone)
      when the arguments are used up or the next one does not start with
      '-'. Otherwise it consumes that argument: `--name` returns the `val`
      of the first long option of that name and reports its index, `-c`
      returns c when c occurs in `optstring`; an option that takes an
      argument consumes the next one as `optarg`. An unknown option, or a
      missing argument, gives '?'. */
  method GetoptLong(optind: int, optarg: Option<seq<char>>, argv: seq<seq<char>>,
                    optstring: seq<char>, longopts: seq<LongOption>)
    returns (r: int, optind': int, optarg': Option<seq<char>>, longindex: Option<nat>)
    requires optind >= 0
    ensures optind >= |argv| || At(argv[optind], 0) != '-' ==>
      r == Done && optind' == optind && optarg' == optarg && longindex.None?
    ensures optind < |argv| && At(argv[optind], 0) == '-' ==>
      (optind' == optind + 1 && optarg' == optarg) ||
      (optind' == optind + 2 && optind + 1 < |argv| && optarg' == Some(argv[optind + 1]))
    ensures optind < |argv| && At(argv[optind], 0) == '-' && At(argv[optind], 1) == '-' ==>
      var m := LongMatch(longopts, CStr(argv[optind][2..]));
      longindex == m &&
      (m.None? ==> r == Unknown && optind' == optind + 1) &&
      (m.Some? ==>
        var opt := longopts[m.value];
        if opt.hasArg == 0 then r == opt.val && optind' == optind + 1
        else if optind + 1 < |argv| then r == opt.val && optind' == optind + 2
        else r == Unknown && optind' == optind + 1)
    ensures optind < |argv| && At(argv[optind], 0) == '-' && At(argv[optind], 1) != '-' ==>
      var c := At(argv[optind], 1);
      var k := ShortIndex(optstring, c);
      longindex.None? &&
      (k.None? ==> r == Unknown && optind' == optind + 1) &&
      (k.Some? ==>
        if At(CStr(optstring), k.value + 1) != ':' then r == c as int && optind' == optind + 1
        else if optind + 1 < |argv| then r == c as int && optind' == optind + 2
        else r == Unknown && optind' == optind + 1)
  {
    optind', optarg', longindex := optind, optarg, None;
    if optind' >= |argv| {
      return Done, optind', optarg', longindex;
    }
    var arg := argv[optind'];
    if At(arg, 0) != '-' {
      return Done, optind', optarg', longindex;
    }
    optind' := optind' + 1;
    if At(arg, 1) == '-' {
      var name := CStr(arg[2..]);
      var i := 0;
      while i < |longopts|
        invariant 0 <= i <= |longopts|
        invariant forall j | 0 <= j < i :: CStr(longopts[j].name) != name
      {
        if CStr(longopts[i].name) == name {
          assert LongMatch(longopts, name) == Some(i) by {
            MatchIsFirst(longopts, name, i);
          }
          longindex := Some(i);
          if longopts[i].hasArg != 0 {
            if optind' < |argv| {
              optarg' := Some(argv[optind']);
              optind' := optind' + 1;
            } else {
              return Unknown, optind', optarg', longindex;
            }
          }
          return longopts[i].val, optind', optarg', longindex;
        }
        i := i + 1;
      }
      return Unknown, optind', optarg', longindex;
    }
    var c := At(arg, 1);
    var pos := ShortIndex(optstring, c);
    if pos.None? {
      return Unknown, optind', optarg', longindex;
    }
    if At(CStr(optstring), pos.value + 1) == ':' {
      if optind' < |argv| {
        optarg' := Some(argv[optind']);
        optind' := optind' + 1;
      } else {
        return Unknown, optind', optarg', longindex;
      }
    }
    return c as int, optind', optarg', longindex;
  }

  /** A name that matches at i and at no earlier entry is the first match. */
  lemma {:induction false} MatchIsFirst(longopts: seq<LongOption>, name: seq<char>, i: nat)
    requires i < |longopts| && CStr(longopts[i].name) == name
    requires forall j | 0 <= j < i :: CStr(longopts[j].name) != name
    ensures LongMatch(longopts, name) == Some(i)
  {
    if i > 0 {
      MatchIsFirst(longopts[1..], name, i - 1);
    }
  }
}
