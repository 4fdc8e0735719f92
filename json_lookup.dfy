/** The tree accessors and typed loaders of config.c: `cJSON_GetObjectItem`,
    `cJSON_GetArraySize`, `cJSON_GetArrayItem`, the `cJSON_Is*` tests and the
    `load_json_*` helpers. A node pointer that may be NULL is an
    Option<Value>; walking `child` then `next` visits a node's children in
    order. */
module JsonLookup {
  import opened Support
  import opened Json
  import JsonLaws

  /** The `child`/`next` list of a node: the members of an array or object,
      nothing for any other node or for NULL. */
  function Children(node: Option<Value>): (items: seq<Member>)
    ensures node.Some? && (node.value.Array? || node.value.Object?) ==> items == node.value.items
  {
    if node.Some? && (node.value.Array? || node.value.Object?) then node.value.items else []
  }

  /** Where the `cJSON_GetObjectItem` loop stops: a child without a key (an
      array element) or one whose key equals the name as a C string. */
  predicate Stops(m: Member, name: seq<char>)
  {
    m.key.None? || m.key.value == CStr(name)
  }

  /** The first child the lookup loop stops at, as a reference. */
  function FirstStop(items: seq<Member>, name: seq<char>): Option<Value>
  {
    if |items| == 0 then None
    else if Stops(items[0], name) then Some(items[0].value)
    else FirstStop(items[1..], name)
  }

  /** The reference lookup finds the value of the first stopping child, and
      nothing exactly when no child stops. */
  lemma {:induction false} FirstStopIsFirstMatch(items: seq<Member>, name: seq<char>)
    ensures FirstStop(items, name).None? <==> forall i | 0 <= i < |items| :: !Stops(items[i], name)
    ensures FirstStop(items, name).Some? ==>
      exists i | 0 <= i < |items| :: Stops(items[i], name) && FirstStop(items, name) == Some(items[i].value)
        && forall j | 0 <= j < i :: !Stops(items[j], name)
  {
    if |items| > 0 && !Stops(items[0], name) {
      FirstStopIsFirstMatch(items[1..], name);
      if FirstStop(items, name).Some? {
        var i :| 0 <= i < |items| - 1 && Stops(items[1..][i], name)
          && FirstStop(items[1..], name) == Some(items[1..][i].value)
          && forall j | 0 <= j < i :: !Stops(items[1..][j], name);
        assert forall j | 0 <= j < i + 1 :: !Stops(items[j], name) by {
          forall j | 0 <= j < i + 1
            ensures !Stops(items[j], name)
          {
            if j > 0 {
              assert items[j] == items[1..][j - 1];
            }
          }
        }
        assert Stops(items[i + 1], name) && FirstStop(items, name) == Some(items[i + 1].value);
      } else {
        forall i | 0 <= i < |items|
          ensures !Stops(items[i], name)
        {
          if i > 0 {
            assert items[i] == items[1..][i - 1];
          }
        }
      }
    }
  }

  /** `cJSON_GetObjectItem`. */
  method GetObjectItem(node: Option<Value>, name: seq<char>) returns (item: Option<Value>)
    ensures item == FirstStop(Children(node), name)
  {
    var children := Children(node);
    var c := 0;
    while c < |children| && !Stops(children[c], name)
      invariant 0 <= c <= |children|
      invariant FirstStop(children[c..], name) == FirstStop(children, name)
    {
      assert children[c..][1..] == children[c + 1..];
      c := c + 1;
    }
    if c < |children| {
      return Some(children[c].value);
    }
    return None;
  }

  /** In a parsed object, the lookup yields the value of the first member
      with that key; in a parsed non-empty array it yields the first element
      whatever the name, since elements have no key. */
  lemma LookupInParsed(t: seq<char>, p: nat, name: seq<char>, strict: bool)
    requires p <= |t| && PValue(t, p, strict).Some?
    ensures var v := PValue(t, p, strict).value.value;
      v.Object? ==> FirstStop(v.items, name).Some? ==>
        exists i | 0 <= i < |v.items| :: v.items[i].key == Some(CStr(name)) && FirstStop(v.items, name) == Some(v.items[i].value)
    ensures var v := PValue(t, p, strict).value.value;
      v.Array? && |v.items| > 0 ==> FirstStop(v.items, name) == Some(v.items[0].value)
  {
    var v := PValue(t, p, strict).value.value;
    JsonLaws.ParsedKeys(t, p, strict);
    if v.Array? || v.Object? {
      FirstStopIsFirstMatch(v.items, name);
    }
  }

  /** `cJSON_GetArraySize`: the number of children. */
  method GetArraySize(node: Option<Value>) returns (n: int)
    ensures n == |Children(node)|
  {
    var children := Children(node);
    n := 0;
    while n < |children|
      invariant 0 <= n <= |children|
    {
      n := n + 1;
    }
  }

  /** `cJSON_GetArrayItem`: the child at index i (a negative index gives
      the first child), NULL past the end. */
  method GetArrayItem(node: Option<Value>, i: int) returns (item: Option<Value>)
    ensures var k := Max(i, 0);
      item == if k < |Children(node)| then Some(Children(node)[k].value) else None
  {
    var children := Children(node);
    var c := 0;
    var remaining := i;
    while c < |children| && remaining > 0
      invariant 0 <= c <= |children|
      invariant remaining == i - c || (i <= 0 && c == 0 && remaining == i)
      invariant c <= Max(i, 0)
      decreases |children| - c
    {
      remaining := remaining - 1;
      c := c + 1;
    }
    if c < |children| {
      return Some(children[c].value);
    }
    return None;
  }

  predicate IsBool(item: Option<Value>) { item.Some? && (item.value.True? || item.value.False?) }
  predicate IsNumber(item: Option<Value>) { item.Some? && item.value.Number? }
  predicate IsString(item: Option<Value>) { item.Some? && item.value.String? }
  predicate IsArray(item: Option<Value>) { item.Some? && item.value.Array? }
  predicate IsObject(item: Option<Value>) { item.Some? && item.value.Object? }

  /** `load_json_string(json, key, dest, size)`: when the key names a string
      its first size - 1 bytes become the new C string in `dest`, which is
      always terminated; otherwise `dest` keeps its contents. */
  method LoadString(json: Option<Value>, key: seq<char>, dest: seq<char>, size: nat) returns (ok: bool, dest': seq<char>)
    requires size >= 1
    ensures var item := FirstStop(Children(json), key);
      ok == IsString(item) && dest' == if ok then StrNCopy(item.value.chars, size - 1) else dest
    ensures ok ==> |dest'| < size && NUL !in dest'
  {
    var item := GetObjectItem(json, key);
    if IsString(item) {
      return true, StrNCopy(item.value.chars, size - 1);
    }
    return false, dest;
  }

  /** `load_json_bool`: true or false into `dest` when the key names a
      boolean. */
  method LoadBool(json: Option<Value>, key: seq<char>, dest: bool) returns (ok: bool, dest': bool)
    ensures var item := FirstStop(Children(json), key);
      ok == IsBool(item) && dest' == if ok then item.value.True? else dest
  {
    var item := GetObjectItem(json, key);
    if IsBool(item) {
      return true, item.value.True?;
    }
    return false, dest;
  }

  /** `load_json_float`: the number into `dest` when the key names one
      (the conversion to float is exact here). */
  method LoadFloat(json: Option<Value>, key: seq<char>, dest: real) returns (ok: bool, dest': real)
    ensures var item := FirstStop(Children(json), key);
      ok == IsNumber(item) && dest' == if ok then item.value.num else dest
  {
    var item := GetObjectItem(json, key);
    if IsNumber(item) {
      return true, item.value.num;
    }
    return false, dest;
  }

  /** `load_json_int`: `valueint`, the number truncated toward zero, into
      `dest` when the key names a number. The C cast is undefined outside the
      int range; here every number is truncated. */
  method LoadInt(json: Option<Value>, key: seq<char>, dest: int) returns (ok: bool, dest': int)
    ensures var item := FirstStop(Children(json), key);
      ok == IsNumber(item) && dest' == if ok then TruncToInt(item.value.num) else dest
  {
    var item := GetObjectItem(json, key);
    if IsNumber(item) {
      return true, TruncToInt(item.value.num);
    }
    return false, dest;
  }
}
