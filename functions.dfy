/** The object helpers of src/utils/function.ts, textually repeated in
    src/helpers/function.ts (where `objectIncludeIn` is named
    `arrayIncludeIn`). `arrayIntersectKey` is the same code as
    `Helper.Only`. */
module Functions {
  import opened Wrappers
  import opened Strings
  import opened Values

  // ----- arrayReplaceRecursive / arrayMergeRecursive -----------------------------

  /** `key in target`: own properties only; a primitive target throws. */
  function HasProperty(target: Value, key: string): (r: Result<bool>)
    ensures r.Err? <==> !IsObject(target)
    ensures r.Ok? && !r.value ==> Prop(target, key).Undefined?
  {
    match target
    case Obj(fs) => Ok(HasKey(fs, key))
    case Arr(items) =>
      Ok(key == "length" || (ArrayIndex(key).Some? && ArrayIndex(key).value < |items|))
    case Fun(_, _) => Ok(false)
    case _ => Err(TypeError)
  }

  /** `target[key] = x` in strict-mode code: storing into a primitive throws. */
  function Store(target: Value, key: string, x: Value): (r: Result<Value>)
    ensures r.Err? <==> !IsObject(target)
    ensures target.Obj? ==> r == Ok(PutProp(target, key, x))
  {
    if IsObject(target) then Ok(PutProp(target, key, x)) else Err(TypeError)
  }

  /** The `for (const key in source)` loop of both functions from entry `i`
      on; `merge` selects `arrayMergeRecursive` and its concat branch. */
  function CombineFrom(target: Value, source: Value, i: nat, merge: bool): Result<Value>
    decreases source, |Entries(source)| - i, 1
  {
    if i >= |Entries(source)| then Ok(target)
    else
      match Visit(target, source, i, merge)
      case Err(e) => Err(e)
      case Ok(t) => CombineFrom(t, source, i + 1, merge)
  }

  /** One iteration of the loop, for entry `i` of the source. */
  function Visit(target: Value, source: Value, i: nat, merge: bool): Result<Value>
    requires i < |Entries(source)|
    decreases source, |Entries(source)| - i, 0
  {
    var key := Entries(source)[i].key;
    var sv := EntryValue(source, i);
    if IsObject(sv) then
      match HasProperty(target, key)
      case Err(e) => Err(e)
      case Ok(found) =>
        if found then
          (match CombineFrom(Prop(target, key), sv, 0, merge)
           case Err(e) => Err(e)
           case Ok(inner) => Store(target, key, inner))
        else Replace(target, key, sv, merge)
    else Replace(target, key, sv, merge)
  }

  /** The value of entry `i`, written so that its rank below `source` shows. */
  function EntryValue(source: Value, i: nat): (v: Value)
    requires i < |Entries(source)|
    ensures v == Entries(source)[i].val
    ensures IsObject(v) ==> v < source
  {
    match source
    case Obj(fs) => fs[i].val
    case Arr(items) => items[i]
    case Str(s) => Str([s[i]])
  }

  /** The two `else` branches: concat two arrays (merge only), else overwrite. */
  function Replace(target: Value, key: string, sv: Value, merge: bool): Result<Value> {
    var tv := Prop(target, key);
    if merge && tv.Arr? && sv.Arr? then Store(target, key, Arr(tv.items + sv.items))
    else Store(target, key, sv)
  }

  /** `arrayReplaceRecursive(target, source)`. */
  function ArrayReplaceRecursive(target: Value, source: Value): (r: Result<Value>)
    ensures Entries(source) == [] ==> r == Ok(target)
  {
    CombineFrom(target, source, 0, false)
  }

  /** `arrayMergeRecursive(target, source)`. */
  function ArrayMergeRecursive(target: Value, source: Value): (r: Result<Value>)
    ensures Entries(source) == [] ==> r == Ok(target)
  {
    CombineFrom(target, source, 0, true)
  }

  /** The concat branch of `arrayMergeRecursive` never runs: an array source
      value is an object, so it either recurses or finds no target array.
      Merging is replacing. */
  lemma {:induction false} MergeIsReplace(target: Value, source: Value, i: nat)
    ensures CombineFrom(target, source, i, true) == CombineFrom(target, source, i, false)
    decreases source, |Entries(source)| - i
  {
    if i < |Entries(source)| {
      var key := Entries(source)[i].key;
      var sv := EntryValue(source, i);
      assert Visit(target, source, i, true) == Visit(target, source, i, false) by {
        if IsObject(sv) {
          if HasProperty(target, key) == Ok(true) {
            MergeIsReplace(Prop(target, key), sv, 0);
          }
        }
      }
      match Visit(target, source, i, false)
      case Ok(t) => MergeIsReplace(t, source, i + 1);
      case Err(_) =>
    }
  }

  /** Replacing into a primitive throws as soon as the source has an entry. */
  lemma ReplaceIntoPrimitive(target: Value, source: Value)
    requires !IsObject(target) && Entries(source) != []
    ensures ArrayReplaceRecursive(target, source) == Err(TypeError)
  {
    assert Visit(target, source, 0, false) == Err(TypeError);
  }

  /** What the combined object holds at `k`, for the entries `sf` still to
      be visited. */
  function Expected(t: seq<Field>, sf: seq<Field>, k: string, merge: bool): Option<Value>
    decreases sf
  {
    match Lookup(sf, k)
    case None => Lookup(t, k)
    case Some(sv) =>
      if IsObject(sv) && HasKey(t, k) then
        (match CombineFrom(Lookup(t, k).value, sv, 0, merge)
         case Ok(inner) => Some(inner)
         case Err(_) => None)
      else Some(sv)
  }

  /** Two objects: every source key overwrites, except that an object value
      whose key the target already has is merged into the target's value;
      the target's other keys stay. */
  lemma {:induction false} CombineObjects(t: seq<Field>, sf: seq<Field>, i: nat, merge: bool, k: string)
    requires UniqueKeys(sf) && i <= |sf|
    requires CombineFrom(Obj(t), Obj(sf), i, merge).Ok?
    ensures CombineFrom(Obj(t), Obj(sf), i, merge).value.Obj?
    ensures Lookup(CombineFrom(Obj(t), Obj(sf), i, merge).value.fields, k) == Expected(t, sf[i..], k, merge)
    ensures HasKey(t, k) || HasKey(sf[i..], k) ==> HasKey(CombineFrom(Obj(t), Obj(sf), i, merge).value.fields, k)
    decreases |sf| - i
  {
    if i == |sf| {
      assert sf[i..] == [];
    } else {
      var key := sf[i].key;
      var sv := sf[i].val;
      var t' := Step(t, key, sv, merge);
      var r := CombineFrom(Obj(t), Obj(sf), i, merge);
      assert r == CombineFrom(Obj(t'), Obj(sf), i + 1, merge) by {
        VisitObject(t, sf, i, merge);
      }
      CombineObjects(t', sf, i + 1, merge, k);
      assert Lookup(r.value.fields, k) == Expected(t, sf[i..], k, merge) by {
        VisitObject(t, sf, i, merge);
        ExpectedStep(t, sf, i, merge, k);
      }
      assert HasKey(t, k) || HasKey(sf[i..], k) ==> HasKey(t', k) || HasKey(sf[i + 1..], k) by {
        StepLookup(t, key, sv, merge, k);
        if HasKey(sf[i..], k) && k != key {
          var j :| 0 <= j < |sf[i..]| && sf[i..][j].key == k;
          assert sf[i + 1..][j - 1] == sf[i..][j];
        }
      }
    }
  }

  lemma ExpectedStep(t: seq<Field>, sf: seq<Field>, i: nat, merge: bool, k: string)
    requires UniqueKeys(sf) && i < |sf|
    requires IsObject(sf[i].val) && HasKey(t, sf[i].key) ==> CombineFrom(Lookup(t, sf[i].key).value, sf[i].val, 0, merge).Ok?
    ensures Expected(t, sf[i..], k, merge) == Expected(Step(t, sf[i].key, sf[i].val, merge), sf[i + 1..], k, merge)
  {
    var key := sf[i].key;
    var t' := Step(t, key, sf[i].val, merge);
    StepLookup(t, key, sf[i].val, merge, k);
    assert sf[i..][1..] == sf[i + 1..];
    assert sf[i..][0] == sf[i];
    if k == key {
      var rest := sf[i + 1..];
      assert Lookup(rest, k).None? by {
        forall j | 0 <= j < |rest| ensures rest[j].key != k {
          assert rest[j] == sf[i + 1 + j];
        }
      }
      assert Lookup(sf[i..], k) == Some(sf[i].val);
      assert Expected(t', rest, k, merge) == Lookup(t', k);
    } else {
      assert Lookup(sf[i..], k) == Lookup(sf[i + 1..], k);
      assert Lookup(t', k) == Lookup(t, k);
      assert HasKey(t, k) == HasKey(t', k);
    }
  }

  lemma VisitObject(t: seq<Field>, sf: seq<Field>, i: nat, merge: bool)
    requires i < |sf|
    ensures Visit(Obj(t), Obj(sf), i, merge).Ok? ==>
              Visit(Obj(t), Obj(sf), i, merge) == Ok(Obj(Step(t, sf[i].key, sf[i].val, merge)))
              && (IsObject(sf[i].val) && HasKey(t, sf[i].key) ==>
                    CombineFrom(Lookup(t, sf[i].key).value, sf[i].val, 0, merge).Ok?)
  {
    assert EntryValue(Obj(sf), i) == sf[i].val;
  }

  /** `arrayReplaceRecursive` on two objects, when it does not throw: the
      result's keys are the union of both key sets; a key only the target
      has keeps its value; a source value that is not an object, or whose
      key the target lacks, overwrites; an object value under a key both
      have is the recursive replacement of the target's value. */
  lemma ReplaceObjects(t: seq<Field>, sf: seq<Field>, k: string)
    requires UniqueKeys(sf) && ArrayReplaceRecursive(Obj(t), Obj(sf)).Ok?
    ensures var r := ArrayReplaceRecursive(Obj(t), Obj(sf)).value;
            r.Obj?
            && (HasKey(r.fields, k) <==> HasKey(t, k) || HasKey(sf, k))
            && (!HasKey(sf, k) ==> Lookup(r.fields, k) == Lookup(t, k))
            && (forall v :: Lookup(sf, k) == Some(v) && !(IsObject(v) && HasKey(t, k)) ==> Lookup(r.fields, k) == Some(v))
            && (forall v :: Lookup(sf, k) == Some(v) && IsObject(v) && HasKey(t, k) ==>
                  ArrayReplaceRecursive(Lookup(t, k).value, v).Ok?
                  && Lookup(r.fields, k) == Some(ArrayReplaceRecursive(Lookup(t, k).value, v).value))
  {
    assert sf[0..] == sf;
    CombineObjects(t, sf, 0, false, k);
  }

  /** The object one loop step leaves behind (when the step does not throw). */
  function Step(t: seq<Field>, key: string, sv: Value, merge: bool): seq<Field> {
    if IsObject(sv) && HasKey(t, key) then
      (match CombineFrom(Lookup(t, key).value, sv, 0, merge)
       case Ok(inner) => Assign(t, key, inner)
       case Err(_) => t)
    else Assign(t, key, sv)
  }

  lemma StepLookup(t: seq<Field>, key: string, sv: Value, merge: bool, k: string)
    ensures Lookup(Step(t, key, sv, merge), k) ==
            if k != key then Lookup(t, k)
            else if IsObject(sv) && HasKey(t, key) then
              (match CombineFrom(Lookup(t, key).value, sv, 0, merge)
               case Ok(inner) => Some(inner)
               case Err(_) => Lookup(t, k))
            else Some(sv)
  {
    if IsObject(sv) && HasKey(t, key) {
      match CombineFrom(Lookup(t, key).value, sv, 0, merge)
      case Ok(inner) => AssignLookup(t, key, inner, k);
      case Err(_) =>
    } else {
      AssignLookup(t, key, sv, k);
    }
  }

  /** Two arrays of primitives: the source's elements overwrite the
      target's position by position, and the target's longer tail stays. */
  function Overlay(t: seq<Value>, s: seq<Value>): (r: seq<Value>)
    ensures |r| == if |s| >= |t| then |s| else |t|
    ensures forall j :: 0 <= j < |s| ==> r[j] == s[j]
    ensures forall j :: |s| <= j < |t| ==> r[j] == t[j]
  {
    if |s| >= |t| then s else s + t[|s|..]
  }

  lemma ReplaceArrays(t: seq<Value>, s: seq<Value>)
    requires forall j :: 0 <= j < |s| ==> !IsObject(s[j])
    ensures ArrayReplaceRecursive(Arr(t), Arr(s)) == Ok(Arr(Overlay(t, s)))
    ensures ArrayMergeRecursive(Arr(t), Arr(s)) == Ok(Arr(Overlay(t, s)))
  {
    assert s[..0] == [];
    assert Overlay(t, s[..0]) == t;
    ReplaceArraysFrom(t, s, 0);
    MergeIsReplace(Arr(t), Arr(s), 0);
  }

  lemma {:induction false} ReplaceArraysFrom(t: seq<Value>, s: seq<Value>, i: nat)
    requires i <= |s|
    requires forall j :: 0 <= j < |s| ==> !IsObject(s[j])
    ensures CombineFrom(Arr(Overlay(t, s[..i])), Arr(s), i, false) == Ok(Arr(Overlay(t, s)))
    decreases |s| - i
  {
    var o := Overlay(t, s[..i]);
    if i == |s| {
      assert s[..i] == s;
    } else {
      var o' := Overlay(t, s[..i + 1]);
      assert Visit(Arr(o), Arr(s), i, false) == Ok(Arr(o')) by {
        assert Entries(Arr(s))[i].key == IntToString(i);
        assert EntryValue(Arr(s), i) == s[i];
        IndexKey(i);
        assert |o| >= i;
        assert !IsObject(s[i]);
        assert Visit(Arr(o), Arr(s), i, false) == Replace(Arr(o), IntToString(i), s[i], false);
        assert Replace(Arr(o), IntToString(i), s[i], false) == Ok(PutProp(Arr(o), IntToString(i), s[i]));
        if i < |o| {
          assert PutProp(Arr(o), IntToString(i), s[i]) == Arr(o[i := s[i]]);
          assert o[i := s[i]] == o';
        } else {
          assert seq(i - |o|, _ => Undefined) == [];
          assert PutProp(Arr(o), IntToString(i), s[i]) == Arr(o + [s[i]]);
          assert o + [s[i]] == o';
        }
      }
      ReplaceArraysFrom(t, s, i + 1);
    }
  }

  predicate SameKind(a: Value, b: Value) {
    (a.Obj? <==> b.Obj?) && (a.Arr? <==> b.Arr?) && (a.Fun? <==> b.Fun?)
  }

  /** Replacing never changes what kind of object the target is. */
  lemma {:induction false} KindKept(target: Value, source: Value, i: nat, merge: bool)
    requires CombineFrom(target, source, i, merge).Ok?
    ensures SameKind(CombineFrom(target, source, i, merge).value, target)
    decreases |Entries(source)| - i
  {
    if i < |Entries(source)| {
      VisitKeepsKind(target, source, i, merge);
      var t := Visit(target, source, i, merge).value;
      CombineNext(target, source, i, merge);
      KindKept(t, source, i + 1, merge);
    }
  }

  /** A successful turn of the loop hands its result to the next turn. */
  lemma CombineNext(target: Value, source: Value, i: nat, merge: bool)
    requires i < |Entries(source)| && Visit(target, source, i, merge).Ok?
    ensures CombineFrom(target, source, i, merge) == CombineFrom(Visit(target, source, i, merge).value, source, i + 1, merge)
  {
  }

  /** One entry of the loop keeps the kind of the target. */
  lemma VisitKeepsKind(target: Value, source: Value, i: nat, merge: bool)
    requires i < |Entries(source)| && Visit(target, source, i, merge).Ok?
    ensures SameKind(Visit(target, source, i, merge).value, target)
  {
  }

  // ----- objectIncludeIn / arrayIncludeIn --------------------------------------

  /** The `{ name, content, order }` item of an appended column. */
  datatype Item = Item(name: string, content: Value, order: Value)

  /** `i.order >= Object.keys(a).length`; NaN compares false. */
  predicate OrderInvalid(order: Value, n: nat) {
    ToNumber(order).Int? && ToNumber(order).i >= n
  }

  /** How many leading keys the loop moves into `first` after `n` steps:
      `count` stops growing once it is `=== order`. */
  function Cut(order: Value, n: nat): (m: nat)
    ensures m <= n
    ensures order.Num? && 0 <= order.n <= n ==> m == order.n
    ensures !(order.Num? && 0 <= order.n <= n) ==> m == n
  {
    if order.Num? && 0 <= order.n <= n then order.n else n
  }

  /** What `objectIncludeIn(item, array)` returns: `{ ...array, [name]: content }`
      for an order past the end, else `{ ...first, [name]: content, ...last }`
      with the array cut after `Cut(order, n)` keys. */
  function IncludeInSpec(item: Item, fields: seq<Field>): seq<Field> {
    if OrderInvalid(item.order, |fields|) then Assign(fields, item.name, item.content)
    else
      var m := Cut(item.order, |fields|);
      AssignAll(Assign(fields[..m], item.name, item.content), fields[m..])
  }

  /** `objectIncludeIn(item, array)` (and `arrayIncludeIn`, the same code). */
  method ObjectIncludeIn(item: Item, fields: seq<Field>) returns (r: seq<Field>)
    requires UniqueKeys(fields)
    ensures r == IncludeInSpec(item, fields)
  {
    if OrderInvalid(item.order, |fields|) {
      return Assign(fields, item.name, item.content);
    }
    var count := 0;
    var first: seq<Field> := [];
    var last := fields;
    var i := 0;
    while i < |fields|
      invariant 0 <= i <= |fields|
      invariant count == Cut(item.order, i)
      invariant first == fields[..count] && last == fields[count..]
    {
      CutStep(item.order, i);
      if StrictEquals(Num(count), item.order) {
        i := i + 1;
        continue;
      }
      MoveOne(fields, i);
      last := Remove(last, fields[i].key);
      first := Assign(first, fields[i].key, fields[i].val);
      count := count + 1;
      i := i + 1;
    }
    r := AssignAll(Assign(first, item.name, item.content), last);
  }

  /** One more turn of the loop: `count` stays once it is `=== order`, and
      until then it is the number of turns. */
  lemma CutStep(order: Value, i: nat)
    ensures StrictEquals(Num(Cut(order, i)), order) ==> Cut(order, i + 1) == Cut(order, i)
    ensures !StrictEquals(Num(Cut(order, i)), order) ==> Cut(order, i) == i && Cut(order, i + 1) == i + 1
  {
  }

  /** Moving key `i` from the front of `last` to the end of `first`. */
  lemma MoveOne(fields: seq<Field>, i: nat)
    requires UniqueKeys(fields) && i < |fields|
    ensures Remove(fields[i..], fields[i].key) == fields[i + 1..]
    ensures Assign(fields[..i], fields[i].key, fields[i].val) == fields[..i + 1]
  {
    var rest := fields[i + 1..];
    assert !HasKey(rest, fields[i].key) by {
      forall j | 0 <= j < |rest| ensures rest[j].key != fields[i].key {
        assert rest[j] == fields[i + 1 + j];
      }
    }
    RemoveAbsent(rest, fields[i].key);
    assert fields[i..] == [fields[i]] + rest;
    var init := fields[..i];
    assert !HasKey(init, fields[i].key) by {
      forall j | 0 <= j < |init| ensures init[j].key != fields[i].key {
        assert init[j] == fields[j];
      }
    }
    assert fields[..i + 1] == init + [fields[i]];
  }

  lemma {:induction false} RemoveAbsent(fields: seq<Field>, key: string)
    requires !HasKey(fields, key)
    ensures Remove(fields, key) == fields
  {
    if fields != [] {
      assert !HasKey(fields[1..], key) by {
        forall j | 0 <= j < |fields[1..]| ensures fields[1..][j].key != key {
          assert fields[1..][j] == fields[j + 1];
        }
      }
      RemoveAbsent(fields[1..], key);
    }
  }

  /** Spreading an object with fresh keys appends its fields. */
  lemma {:induction false} AssignAllFresh(a: seq<Field>, b: seq<Field>)
    requires UniqueKeys(a + b)
    ensures AssignAll(a, b) == a + b
    decreases |b|
  {
    if b != [] {
      assert !HasKey(a, b[0].key) by {
        forall j | 0 <= j < |a| ensures a[j].key != b[0].key {
          assert (a + b)[j] == a[j] && (a + b)[|a|] == b[0];
        }
      }
      assert a + b == (a + [b[0]]) + b[1..];
      AssignAllFresh(a + [b[0]], b[1..]);
    }
  }

  /** A fresh name with a numeric order `k` inside the object goes between
      the first `k` keys and the rest. */
  lemma IncludeInsertsAt(item: Item, fields: seq<Field>)
    requires UniqueKeys(fields) && !HasKey(fields, item.name)
    requires item.order.Num? && 0 <= item.order.n < |fields|
    ensures IncludeInSpec(item, fields)
            == fields[..item.order.n] + [Field(item.name, item.content)] + fields[item.order.n..]
  {
    var k := item.order.n;
    var f := Field(item.name, item.content);
    assert !HasKey(fields[..k], item.name) by {
      forall j | 0 <= j < k ensures fields[..k][j].key != item.name {
        assert fields[..k][j] == fields[j];
      }
    }
    FreshUnique(fields, k, f);
    AssignAllFresh(fields[..k] + [f], fields[k..]);
  }

  lemma FreshUnique(fields: seq<Field>, k: nat, f: Field)
    requires UniqueKeys(fields) && !HasKey(fields, f.key) && k <= |fields|
    ensures UniqueKeys(fields[..k] + [f] + fields[k..])
  {
    var s := fields[..k] + [f] + fields[k..];
    forall i, j | 0 <= i < j < |s| ensures s[i].key != s[j].key {
      if i < k && j > k {
        assert s[i] == fields[i] && s[j] == fields[j - 1];
      } else if i == k {
        assert s[j] == fields[j - 1];
      } else if j == k {
        assert s[i] == fields[i];
      } else if j < k {
        assert s[i] == fields[i] && s[j] == fields[j];
      } else {
        assert s[i] == fields[i - 1] && s[j] == fields[j - 1];
      }
    }
  }

  /** With any other order (past the end, negative, or not a number such as
      the boolean `addColumn` stores), a fresh name goes last. */
  lemma IncludeAppends(item: Item, fields: seq<Field>)
    requires UniqueKeys(fields) && !HasKey(fields, item.name)
    requires !(item.order.Num? && 0 <= item.order.n < |fields|)
    ensures IncludeInSpec(item, fields) == fields + [Field(item.name, item.content)]
  {
    if !OrderInvalid(item.order, |fields|) {
      assert fields[..|fields|] == fields && fields[|fields|..] == [];
    }
  }

  /** Every original key survives, whatever the name and the order. */
  lemma IncludeKeepsKeys(item: Item, fields: seq<Field>, key: string)
    requires UniqueKeys(fields) && HasKey(fields, key)
    ensures HasKey(IncludeInSpec(item, fields), key)
    ensures HasKey(IncludeInSpec(item, fields), item.name)
  {
    AssignLookup(fields, item.name, item.content, key);
    AssignLookup(fields, item.name, item.content, item.name);
    if !OrderInvalid(item.order, |fields|) {
      var m := Cut(item.order, |fields|);
      var a := Assign(fields[..m], item.name, item.content);
      AssignLookup(fields[..m], item.name, item.content, key);
      AssignLookup(fields[..m], item.name, item.content, item.name);
      var j :| 0 <= j < |fields| && fields[j].key == key;
      if j < m {
        assert fields[..m][j].key == key;
      } else {
        assert fields[m..][j - m].key == key;
      }
      AssignAllKeeps(a, fields[m..], key);
      AssignAllKeeps(a, fields[m..], item.name);
    }
  }

  lemma {:induction false} AssignAllKeeps(a: seq<Field>, b: seq<Field>, key: string)
    requires HasKey(a, key) || HasKey(b, key)
    ensures HasKey(AssignAll(a, b), key)
    decreases |b|
  {
    if b != [] {
      var a' := Assign(a, b[0].key, b[0].val);
      AssignLookup(a, b[0].key, b[0].val, key);
      if !HasKey(a', key) {
        var j :| 0 <= j < |b| && b[j].key == key;
        assert b[1..][j - 1].key == key;
      }
      AssignAllKeeps(a', b[1..], key);
    }
  }
}
