/** The `inputNested` request macro (src/extensions/request.ts): the first
    segment of a dotted key is looked up with the framework's `input`; a falsy
    value there gives the default; otherwise the remaining segments are walked
    with `acc && acc[segment]`. */
module NestedInput {
  import opened Values
  import Strings

  /** The framework's `request.input(key, default)`: a lodash path lookup over
      all request parameters that falls back to the default for `undefined`. */
  function HttpInput(params: Value, key: string, default: Value): Value {
    Get(params, key, default)
  }

  /** One step of `keys.reduce((acc, curr) => acc && acc[curr], first)`. */
  function Step(acc: Value, segment: string): Value {
    if Truthy(acc) then Prop(acc, segment) else acc
  }

  function Walk(acc: Value, segments: seq<string>): Value
    decreases |segments|
  {
    if segments == [] then acc else Walk(Step(acc, segments[0]), segments[1..])
  }

  /** The walk of `inputNested` for a key already split at its dots. */
  function InputAt(params: Value, keys: seq<string>, default: Value): Value
    requires |keys| >= 1
  {
    var first := GetIn(params, [keys[0]]);
    if !Truthy(first) then default else Walk(first, keys[1..])
  }

  /** `request.inputNested(key, defaultValue = null)`; pass `Null` for the
      omitted default. The first segment holds no dot, so `input(keys[0])`
      reads that one key (see `FirstKeyRead`). */
  function InputNested(params: Value, key: string, default: Value): Value {
    InputAt(params, Path(key), default)
  }

  /** `input(keys[0])` as the macro calls it reads the one key `keys[0]`. */
  lemma FirstKeyRead(params: Value, key: string)
    ensures HttpInput(params, Path(key)[0], Undefined) == GetIn(params, [Path(key)[0]])
  {
    Strings.SplitPartsFree(key, ".");
    Strings.SplitWithout(Path(key)[0], ".");
  }

  /** Independent description of the walk: the first falsy value met on the
      way down, or the value at the end of the path. */
  function FirstFalsyOrLast(v: Value, segments: seq<string>): Value
    decreases |segments|
  {
    if segments == [] || !Truthy(v) then v else FirstFalsyOrLast(Prop(v, segments[0]), segments[1..])
  }

  lemma {:induction false} WalkFalsy(v: Value, segments: seq<string>)
    requires !Truthy(v)
    ensures Walk(v, segments) == v
    decreases |segments|
  {
    if segments != [] {
      WalkFalsy(v, segments[1..]);
    }
  }

  /** The reduce stops at the first falsy intermediate and returns it. */
  lemma {:induction false} WalkShortCircuits(v: Value, segments: seq<string>)
    ensures Walk(v, segments) == FirstFalsyOrLast(v, segments)
    decreases |segments|
  {
    if segments != [] {
      if Truthy(v) {
        WalkShortCircuits(Prop(v, segments[0]), segments[1..]);
      } else {
        WalkFalsy(v, segments);
      }
    }
  }

  /** A falsy first segment returns the default. */
  lemma FalsyFirstGivesDefault(params: Value, key: string, default: Value)
    requires !Truthy(HttpInput(params, Path(key)[0], Undefined))
    ensures InputNested(params, key, default) == default
  {
    FirstKeyRead(params, key);
  }

  /** A key `name.rest` whose parameter `name` is falsy gives the default,
      whatever `rest` is. */
  lemma FalsyParameter(params: Value, name: string, rest: string, default: Value)
    requires '.' !in name && params.Obj? && !Truthy(Prop(params, name))
    ensures InputNested(params, name + "." + rest, default) == default
  {
    Strings.SplitCons(name, '.', rest);
    assert GetIn(params, [name]) == GetIn(Prop(params, name), []);
  }

  /** A single-segment key returns the top-level value itself when it is truthy. */
  lemma SingleSegment(params: Value, key: string)
    requires '.' !in key && params.Obj?
    requires Truthy(Prop(params, key))
    ensures InputNested(params, key, Null) == Prop(params, key)
  {
    PathSegments([key]);
    assert Path(key) == [key];
    assert GetIn(params, [key]) == Prop(params, key);
  }

  /** A key `a.b` whose `a` is a truthy object without `b` yields `undefined`,
      never the default. */
  lemma MissingDeeperSegment(params: Value, a: string, b: string, default: Value)
    requires '.' !in a && '.' !in b && params.Obj?
    requires Prop(params, a).Obj? && !HasKey(Prop(params, a).fields, b)
    ensures InputNested(params, a + "." + b, default) == Undefined
  {
    PathSegments([a]);
    PathSegments([a, b]);
    assert Path(a + "." + b) == [a, b];
    assert GetIn(params, [a]) == Prop(params, a);
    var first := Prop(params, a);
    assert HttpInput(params, a, Undefined) == first;
    assert Lookup(first.fields, b).None?;
    assert Walk(first, [b]) == Walk(Prop(first, b), []);
  }

  /** A key written out from dot-free segments is read as those segments. */
  lemma InputSegments(params: Value, segments: seq<string>, default: Value)
    requires |segments| >= 1
    requires forall k :: 0 <= k < |segments| ==> '.' !in segments[k]
    ensures InputNested(params, Strings.Join(segments, "."), default) == InputAt(params, segments, default)
  {
    PathSegments(segments);
  }

  /** A top-level key: the value when truthy, else the default; `null` and
      other falsy values are never returned unless they are the default. */
  lemma TopLevel(params: Value, key: string, default: Value)
    requires '.' !in key
    ensures var v := GetIn(params, [key]);
            InputNested(params, key, default) == if Truthy(v) then v else default
  {
    PlainPath(key);
  }
}
