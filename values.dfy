/** JavaScript values as the adapter sees them: request parameters, rows,
    configuration and column contents. Objects keep their keys in insertion
    order. A function is modelled by the value it returns when called. Numbers
    are integers. Named (non-index) properties of arrays are not represented:
    JSON serialisation of an array shows only its elements. */
module Values {
  import opened Wrappers
  import opened Strings

  datatype Value =
    | Undefined
    | Null
    | Bool(b: bool)
    | Num(n: int)
    | Str(s: string)
    | Arr(items: seq<Value>)
    | Obj(fields: seq<Field>)
    | Fun(id: nat, result: Value)

  datatype Field = Field(key: string, val: Value)

  /** JavaScript truthiness. */
  predicate Truthy(v: Value) {
    match v
    case Undefined => false
    case Null => false
    case Bool(b) => b
    case Num(n) => n != 0
    case Str(s) => s != ""
    case _ => true
  }

  /** `typeof v`. */
  function TypeOf(v: Value): string {
    match v
    case Undefined => "undefined"
    case Null => "object"
    case Bool(_) => "boolean"
    case Num(_) => "number"
    case Str(_) => "string"
    case Arr(_) => "object"
    case Obj(_) => "object"
    case Fun(_, _) => "function"
  }

  /** `v instanceof Object`: arrays, plain objects and functions. */
  predicate IsObject(v: Value) {
    v.Arr? || v.Obj? || v.Fun?
  }

  predicate IsNullish(v: Value) {
    v.Undefined? || v.Null?
  }

  /** `a === b` on primitives; two objects are compared by reference in the
      source, and no comparison made there is between two objects. */
  predicate StrictEquals(a: Value, b: Value) {
    !IsObject(a) && !IsObject(b) && a == b
  }

  /** `v ?? fallback`. */
  function Coalesce(v: Value, fallback: Value): (r: Value)
    ensures !IsNullish(v) ==> r == v
    ensures IsNullish(v) ==> r == fallback
  {
    if IsNullish(v) then fallback else v
  }

  /** `Number(v)`. */
  datatype Number = NaN | Int(i: int)

  predicate NumberTruthy(x: Number) {
    x.Int? && x.i != 0
  }

  predicate IsDigit(c: char) { '0' <= c <= '9' }

  function DigitsValue(s: string): (n: int)
    requires forall i :: 0 <= i < |s| ==> IsDigit(s[i])
    ensures n >= 0
  {
    if s == [] then 0
    else
      assert IsDigit(s[|s| - 1]);
      DigitsValue(s[..|s| - 1]) * 10 + (s[|s| - 1] as int - '0' as int)
  }

  predicate AllDigits(s: string) {
    |s| > 0 && forall i :: 0 <= i < |s| ==> IsDigit(s[i])
  }

  /** Decimal integer text (an optional minus sign and digits); the empty
      string is 0 and anything else is NaN. */
  function ParseNumber(s: string): Number {
    if s == "" then Int(0)
    else if AllDigits(s) then Int(DigitsValue(s))
    else if s[0] == '-' && AllDigits(s[1..]) then Int(-DigitsValue(s[1..]))
    else NaN
  }

  function ToNumber(v: Value): Number {
    match v
    case Undefined => NaN
    case Null => Int(0)
    case Bool(b) => Int(if b then 1 else 0)
    case Num(n) => Int(n)
    case Str(s) => ParseNumber(s)
    case Arr(items) => if items == [] then Int(0) else NaN
    case _ => NaN
  }

  /** `String(v)`. */
  function ToJsString(v: Value): string
    decreases v, 1
  {
    match v
    case Undefined => "undefined"
    case Null => "null"
    case Bool(b) => if b then "true" else "false"
    case Num(n) => IntToString(n)
    case Str(s) => s
    case Arr(items) => ArrayJoin(items, ",")
    case Obj(_) => "[object Object]"
    case Fun(_, _) => "function"
  }

  /** `items.join(sep)`: elements print as their string, null and undefined as empty. */
  function ArrayJoin(items: seq<Value>, sep: string): string
    decreases Arr(items), 0
  {
    Join(seq(|items|, i requires 0 <= i < |items| =>
               if IsNullish(items[i]) then "" else ToJsString(items[i])), sep)
  }

  /** The canonical array index a property key names, if any. */
  function ArrayIndex(key: string): Option<int> {
    if AllDigits(key) && (key == "0" || key[0] != '0') then Some(DigitsValue(key)) else None
  }

  /** The decimal text of a non-negative integer is canonical and reads back as it. */
  lemma {:induction false} NaturalText(n: int)
    requires n >= 0
    ensures AllDigits(IntToString(n)) && DigitsValue(IntToString(n)) == n
    ensures IntToString(n)[0] == '0' <==> n == 0
    ensures n < 10 <==> |IntToString(n)| == 1
    decreases n
  {
    if n >= 10 {
      NaturalText(n / 10);
      var s := IntToString(n);
      assert s[..|s| - 1] == IntToString(n / 10);
    }
  }

  /** An index printed into a key names that array element. */
  lemma IndexKey(n: int)
    requires n >= 0
    ensures ArrayIndex(IntToString(n)) == Some(n)
  {
    NaturalText(n);
  }

  /** `Number(String(n))` is `n` for every integer. */
  lemma NumberOfText(n: int)
    ensures ParseNumber(IntToString(n)) == Int(n)
  {
    if n < 0 {
      NaturalText(-n);
      assert IntToString(n)[1..] == IntToString(-n);
    } else {
      NaturalText(n);
    }
  }

  // ----- ordered objects -------------------------------------------------

  function Keys(fields: seq<Field>): (ks: seq<string>)
    ensures |ks| == |fields|
    ensures forall i :: 0 <= i < |fields| ==> ks[i] == fields[i].key
  {
    if fields == [] then [] else [fields[0].key] + Keys(fields[1..])
  }

  predicate UniqueKeys(fields: seq<Field>) {
    forall i, j :: 0 <= i < j < |fields| ==> fields[i].key != fields[j].key
  }

  predicate HasKey(fields: seq<Field>, key: string) {
    exists i :: 0 <= i < |fields| && fields[i].key == key
  }

  function Lookup(fields: seq<Field>, key: string): (r: Option<Value>)
    ensures r.None? <==> !HasKey(fields, key)
    ensures r.Some? ==> exists i :: 0 <= i < |fields| && fields[i] == Field(key, r.value)
  {
    if fields == [] then None
    else if fields[0].key == key then Some(fields[0].val)
    else
      var r := Lookup(fields[1..], key);
      assert forall i :: 1 <= i < |fields| ==> fields[i] == fields[1..][i - 1];
      r
  }

  /** `obj[key] = v`: an existing key keeps its place, a new key goes last. */
  function Assign(fields: seq<Field>, key: string, v: Value): (r: seq<Field>)
    ensures !HasKey(fields, key) ==> r == fields + [Field(key, v)]
    ensures HasKey(fields, key) ==> Keys(r) == Keys(fields)
  {
    if fields == [] then [Field(key, v)]
    else if fields[0].key == key then [Field(key, v)] + fields[1..]
    else
      assert HasKey(fields, key) ==> HasKey(fields[1..], key) by {
        if HasKey(fields, key) {
          var i :| 0 <= i < |fields| && fields[i].key == key;
          assert fields[1..][i - 1].key == key;
        }
      }
      [fields[0]] + Assign(fields[1..], key, v)
  }

  lemma {:induction false} AssignLookup(fields: seq<Field>, key: string, v: Value, k: string)
    ensures Lookup(Assign(fields, key, v), k) == if k == key then Some(v) else Lookup(fields, k)
  {
    if fields != [] && fields[0].key != key {
      AssignLookup(fields[1..], key, v, k);
    }
  }

  lemma {:induction false} AssignUnique(fields: seq<Field>, key: string, v: Value)
    requires UniqueKeys(fields)
    ensures UniqueKeys(Assign(fields, key, v))
  {
    if fields != [] && fields[0].key != key {
      AssignUnique(fields[1..], key, v);
      var r := Assign(fields[1..], key, v);
      forall k | HasKey(r, k) ensures k == key || HasKey(fields[1..], k) {
        AssignLookup(fields[1..], key, v, k);
      }
      assert !HasKey(fields[1..], fields[0].key);
    } else if fields != [] {
      assert !HasKey(fields[1..], key);
    }
  }

  /** `delete obj[key]`. */
  function Remove(fields: seq<Field>, key: string): (r: seq<Field>)
    ensures |r| <= |fields|
  {
    if fields == [] then []
    else if fields[0].key == key then Remove(fields[1..], key)
    else [fields[0]] + Remove(fields[1..], key)
  }

  lemma {:induction false} RemoveLookup(fields: seq<Field>, key: string, k: string)
    ensures Lookup(Remove(fields, key), k) == if k == key then None else Lookup(fields, k)
  {
    if fields != [] {
      RemoveLookup(fields[1..], key, k);
    }
  }

  /** `{...fields, ...fields'}` for two objects: fields' assigned in order. */
  function AssignAll(fields: seq<Field>, more: seq<Field>): (r: seq<Field>)
    decreases |more|
  {
    if more == [] then fields
    else AssignAll(Assign(fields, more[0].key, more[0].val), more[1..])
  }

  function IndexFields(items: seq<Value>): (r: seq<Field>)
    ensures |r| == |items|
  {
    seq(|items|, i requires 0 <= i < |items| => Field(IntToString(i), items[i]))
  }

  /** The own enumerable entries of a value, as `for ... in` and object spread see them. */
  function Entries(v: Value): seq<Field> {
    match v
    case Obj(fs) => fs
    case Arr(items) => IndexFields(items)
    case Str(s) => IndexFields(seq(|s|, i requires 0 <= i < |s| => Str([s[i]])))
    case _ => []
  }

  /** `{...fields, ...v}`. */
  function Spread(fields: seq<Field>, v: Value): seq<Field> {
    AssignAll(fields, Entries(v))
  }

  // ----- property access and lodash paths -------------------------------

  /** `v[key]` on a value that is not null or undefined. */
  function Prop(v: Value, key: string): Value {
    match v
    case Obj(fs) => (match Lookup(fs, key) case Some(x) => x case None => Undefined)
    case Arr(items) =>
      if key == "length" then Num(|items|)
      else (match ArrayIndex(key)
            case Some(i) => if i < |items| then items[i] else Undefined
            case None => Undefined)
    case Str(s) =>
      if key == "length" then Num(|s|)
      else (match ArrayIndex(key)
            case Some(i) => if i < |s| then Str([s[i]]) else Undefined
            case None => Undefined)
    case _ => Undefined
  }

  /** `v[key] = x` on an array or object (named array properties are dropped). */
  function PutProp(v: Value, key: string, x: Value): Value {
    match v
    case Obj(fs) => Obj(Assign(fs, key, x))
    case Arr(items) =>
      (match ArrayIndex(key)
       case Some(i) =>
         if i < |items| then Arr(items[i := x])
         else Arr(items + seq(i - |items|, _ => Undefined) + [x])
       case None => v)
    case _ => v
  }

  /** `delete v[key]`; a deleted array element leaves a hole. */
  function DeleteProp(v: Value, key: string): Value {
    match v
    case Obj(fs) => Obj(Remove(fs, key))
    case Arr(items) =>
      (match ArrayIndex(key)
       case Some(i) => if i < |items| then Arr(items[i := Undefined]) else v
       case None => v)
    case _ => v
  }

  /** A dotted path as lodash reads it. */
  function Path(path: string): (p: seq<string>)
    ensures |p| >= 1
  {
    Split(path, ".")
  }

  /** A path written out from dot-free segments splits back into them. */
  lemma PathSegments(segments: seq<string>)
    requires |segments| >= 1
    requires forall k :: 0 <= k < |segments| ==> '.' !in segments[k]
    ensures Path(Join(segments, ".")) == segments
  {
    SplitJoin(segments, '.');
  }

  /** A key without a dot is a one-segment path. */
  lemma PlainPath(key: string)
    requires '.' !in key
    ensures Path(key) == [key]
  {
    PathSegments([key]);
  }

  /** `lodash.get(obj, key, d)` for a one-segment key. */
  lemma GetPlain(v: Value, key: string, default: Value)
    requires '.' !in key && v.Obj?
    ensures Get(v, key, default) == if Prop(v, key).Undefined? then default else Prop(v, key)
  {
    PlainPath(key);
    assert GetIn(v, [key]) == GetIn(Prop(v, key), []);
  }

  /** An array index printed into a path is one segment. */
  lemma IndexSegment(i: int)
    ensures '.' !in IntToString(i)
  {
    IntToStringChars(i);
  }

  /** `lodash.get(v, path)` without the default: a nullish value part-way gives undefined. */
  function GetIn(v: Value, path: seq<string>): Value
    decreases |path|
  {
    if path == [] then v
    else if IsNullish(v) then Undefined
    else GetIn(Prop(v, path[0]), path[1..])
  }

  /** A one-key path reads that key of an object. */
  lemma GetOne(v: Value, key: string)
    requires v.Obj?
    ensures GetIn(v, [key]) == Prop(v, key)
  {
    assert GetIn(v, [key]) == GetIn(Prop(v, key), []);
  }

  /** `lodash.get(v, path, default)` for a path given by its keys. */
  function GetPath(v: Value, keys: seq<string>, default: Value): (r: Value)
    ensures GetIn(v, keys).Undefined? ==> r == default
    ensures !GetIn(v, keys).Undefined? ==> r == GetIn(v, keys)
  {
    var r := GetIn(v, keys);
    if r.Undefined? then default else r
  }

  /** `lodash.get(v, path, default)`. */
  function Get(v: Value, path: string, default: Value): (r: Value)
    ensures GetIn(v, Path(path)).Undefined? ==> r == default
    ensures !GetIn(v, Path(path)).Undefined? ==> r == GetIn(v, Path(path))
  {
    GetPath(v, Path(path), default)
  }

  predicate IsContainer(v: Value) { v.Arr? || v.Obj? }

  /** `lodash.set` below a container: missing or primitive intermediates are
      replaced by a fresh array (when the next key is an index) or object. */
  function SetIn(v: Value, path: seq<string>, x: Value): Value
    requires |path| >= 1
    decreases |path|
  {
    if |path| == 1 then PutProp(v, path[0], x)
    else
      var child := Prop(v, path[0]);
      var base := if IsContainer(child) then child
                  else if ArrayIndex(path[1]).Some? then Arr([]) else Obj([]);
      PutProp(v, path[0], SetIn(base, path[1..], x))
  }

  /** `lodash.set(v, path, x)`; a primitive is returned unchanged. */
  function Set(v: Value, path: string, x: Value): Value {
    if IsContainer(v) then SetIn(v, Path(path), x) else v
  }

  /** `lodash.unset(v, path)`: the last key is deleted from its parent, if the parent exists. */
  function UnsetIn(v: Value, path: seq<string>): Value
    requires |path| >= 1
    decreases |path|
  {
    if |path| == 1 then DeleteProp(v, path[0])
    else
      var child := Prop(v, path[0]);
      if IsContainer(child) then PutProp(v, path[0], UnsetIn(child, path[1..])) else v
  }

  function Unset(v: Value, path: string): Value {
    UnsetIn(v, Path(path))
  }

  /** `container.includes(x)`: element membership for arrays, substring test for strings. */
  function Includes(container: Value, x: Value): (r: Result<bool>)
    ensures r.Err? <==> !(container.Arr? || container.Str?)
  {
    match container
    case Arr(items) => Ok(exists i :: 0 <= i < |items| && StrictEquals(items[i], x))
    case Str(s) => Ok(Contains(s, ToJsString(x)))
    case _ => Err(TypeError)
  }

  // ----- facts about paths ----------------------------------------------

  lemma PutPropGet(v: Value, key: string, x: Value)
    requires v.Obj?
    ensures Prop(PutProp(v, key, x), key) == x
  {
    AssignLookup(v.fields, key, x, key);
  }

  /** No array lies on the way down `path` (named keys cannot be stored in arrays). */
  predicate NoArrayOnPath(v: Value, path: seq<string>)
    decreases |path|
  {
    |path| <= 1 ||
    (var c := Prop(v, path[0]); !c.Arr? && (c.Obj? ==> NoArrayOnPath(c, path[1..])))
  }

  predicate NamedPath(path: seq<string>) {
    forall k :: 0 <= k < |path| ==> ArrayIndex(path[k]).None?
  }

  lemma {:induction false} FreshPathFree(path: seq<string>)
    ensures NoArrayOnPath(Obj([]), path)
  {
  }

  /** After `lodash.set` on an object along named keys, the path reads back the stored value. */
  lemma {:induction false} SetInGet(v: Value, path: seq<string>, x: Value)
    requires |path| >= 1 && v.Obj? && NamedPath(path) && NoArrayOnPath(v, path)
    ensures GetIn(SetIn(v, path, x), path) == x
    decreases |path|
  {
    if |path| == 1 {
      PutPropGet(v, path[0], x);
    } else {
      var child := Prop(v, path[0]);
      assert ArrayIndex(path[1]).None?;
      var base := if IsContainer(child) then child else Obj([]);
      assert base.Obj?;
      if !IsContainer(child) {
        FreshPathFree(path[1..]);
      }
      assert NamedPath(path[1..]) by {
        forall k | 0 <= k < |path[1..]| ensures ArrayIndex(path[1..][k]).None? {
          assert path[1..][k] == path[k + 1];
        }
      }
      var r := SetIn(base, path[1..], x);
      assert SetIn(v, path, x) == PutProp(v, path[0], r);
      SetInGet(base, path[1..], x);
      PutPropGet(v, path[0], r);
    }
  }

  /** After `lodash.unset` of a top-level key, the key is absent. */
  lemma UnsetTopLevel(fields: seq<Field>, key: string)
    requires !Contains(key, ".")
    ensures Unset(Obj(fields), key) == Obj(Remove(fields, key))
  {
    SplitWithout(key, ".");
  }
}
