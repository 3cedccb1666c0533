/** The row-template step of the processors: `RowProcessor` of
    src/processors/row_processor.ts (used by the live processor) and the inner
    `RowProcessor` of src/processor.ts (used by the older one). Both hold one
    row object and update it in place; the two differ in when a template
    applies and in how a row-data template is copied. */
module Rows {
  import opened Wrappers
  import opened Values
  import opened Strings
  import Helper

  /** Which processor the step belongs to. */
  datatype Variant = Live | Older

  /** The lodash path a value names: a string is split at its dots; a number,
      boolean, `null` or `undefined` is a single key; an array is the list of
      keys itself, each element read through its string form (an empty array
      reads as the single key `undefined`, the key lodash's `unset` deletes
      for it); any other value is read through its string form. */
  function LodashPath(p: Value): (path: seq<string>)
    ensures |path| >= 1
    ensures p.Str? ==> path == Path(p.s)
    ensures p.Arr? && p.items != [] ==> |path| == |p.items| && forall i :: 0 <= i < |path| ==> path[i] == ToJsString(p.items[i])
  {
    match p
    case Str(s) => Path(s)
    case Num(_) => [ToJsString(p)]
    case Bool(_) => [ToJsString(p)]
    case Null => [ToJsString(p)]
    case Undefined => [ToJsString(p)]
    case Arr(items) =>
      if items == [] then ["undefined"]
      else seq(|items|, i requires 0 <= i < |items| => ToJsString(items[i]))
    case _ => Path(ToJsString(p))
  }

  /** `lodash.get(v, p)` without a default. */
  function GetAt(v: Value, p: Value): Value {
    GetIn(v, LodashPath(p))
  }

  /** Whether `rowValue(attribute, template)` stores anything: the live step
      tests `template !== undefined`, the older one the template's truthiness. */
  predicate ValueApplies(variant: Variant, template: Value) {
    match variant
    case Live => !template.Undefined?
    case Older => Truthy(template)
  }

  /** What `rowValue` stores: the row's value at the template path when that
      is truthy (the older step first rules out function templates), else the
      template itself (`compileContent` is the identity). */
  function ValueStored(variant: Variant, data: Value, template: Value): (r: Value)
    ensures r == GetAt(data, template) || r == template
    ensures Truthy(GetAt(data, template)) && (variant.Live? || !template.Fun?) ==> r == GetAt(data, template)
  {
    if (variant.Live? || TypeOf(template) != "function") && Truthy(GetAt(data, template))
    then GetAt(data, template)
    else Helper.CompileContent(template)
  }

  /** The row after `rowValue(attribute, template)`. */
  function RowValueSpec(variant: Variant, data: Value, attribute: string, template: Value): Value {
    if ValueApplies(variant, template) then PutProp(data, attribute, ValueStored(variant, data, template))
    else data
  }

  /** The array the live `rowData` builds: `[]` with `arr[index] = value` for
      each entry of the template, in order. */
  function FilledArray(entries: seq<Field>): Value
    decreases |entries|
  {
    if entries == [] then Arr([])
    else
      var last := entries[|entries| - 1];
      PutProp(FilledArray(entries[..|entries| - 1]), last.key, last.val)
  }

  /** The object the older `rowData` builds: `{}` with `data[index] = value`
      for each entry of the template, in order. */
  function FilledObject(entries: seq<Field>): Value
    decreases |entries|
  {
    if entries == [] then Obj([])
    else
      var last := entries[|entries| - 1];
      PutProp(FilledObject(entries[..|entries| - 1]), last.key, Helper.CompileContent(last.val))
  }

  /** Whether `rowData(attribute, template)` acts, or the TypeError it throws
      when the template is `null` or `undefined` (live: `template.length`;
      older: `Object.keys(template).length`). */
  function DataApplies(variant: Variant, template: Value): (r: Result<bool>)
    ensures r.Err? <==> IsNullish(template)
    ensures r.Err? ==> r.message == TypeError
  {
    if IsNullish(template) then Err(TypeError)
    else
      match variant
      case Live => Ok(Truthy(Prop(template, "length")))
      case Older => Ok(|Entries(template)| > 0)
  }

  /** The row after `rowData(attribute, template)`. */
  function RowDataSpec(variant: Variant, data: Value, attribute: string, template: Value): (r: Result<Value>)
    ensures r.Err? <==> IsNullish(template)
    ensures r.Err? ==> r.message == TypeError
  {
    var applies :- DataApplies(variant, template);
    if !applies then Ok(data)
    else
      match variant
      case Live => Ok(PutProp(data, attribute, FilledArray(Entries(template))))
      case Older => Ok(PutProp(data, attribute, FilledObject(Entries(template))))
  }

  class RowProcessor {
    const variant: Variant
    var data: Value

    constructor(variant: Variant, data: Value)
      ensures this.variant == variant && this.data == data
    {
      this.variant := variant;
      this.data := data;
    }

    /** `rowValue(attribute, template)`. */
    method RowValue(attribute: string, template: Value)
      modifies this`data
      ensures data == RowValueSpec(variant, old(data), attribute, template)
    {
      if ValueApplies(variant, template) {
        var found := GetAt(data, template);
        if (variant.Live? || TypeOf(template) != "function") && Truthy(found) {
          data := PutProp(data, attribute, found);
        } else {
          data := PutProp(data, attribute, Helper.CompileContent(template));
        }
      }
    }

    /** `rowData(attribute, template)`: the entries are copied one by one into
        a fresh array (live) or object (older), which then replaces the
        attribute. */
    method RowData(attribute: string, template: Value) returns (o: Outcome)
      modifies this`data
      ensures o.Thrown? <==> IsNullish(template)
      ensures o.Thrown? ==> o.message == TypeError
      ensures o.Done? ==> data == RowDataSpec(variant, old(data), attribute, template).value
      ensures o.Thrown? ==> data == old(data)
    {
      var applies := DataApplies(variant, template);
      if applies.Err? {
        return Thrown(applies.message);
      }
      if !applies.value {
        return Done;
      }
      var entries := Entries(template);
      var copy := if variant.Live? then Arr([]) else Obj([]);
      var i := 0;
      while i < |entries|
        invariant 0 <= i <= |entries|
        invariant copy == if variant.Live? then FilledArray(entries[..i]) else FilledObject(entries[..i])
      {
        assert entries[..i + 1][..i] == entries[..i];
        if variant.Live? {
          copy := PutProp(copy, entries[i].key, entries[i].val);
        } else {
          copy := PutProp(copy, entries[i].key, Helper.CompileContent(entries[i].val));
        }
        i := i + 1;
      }
      assert entries[..|entries|] == entries;
      data := PutProp(data, attribute, copy);
      return Done;
    }
  }

  // ----- what the steps promise ------------------------------------------

  /** An undefined template leaves the row as it is, in both variants. */
  lemma UndefinedTemplateKeeps(variant: Variant, data: Value, attribute: string)
    ensures RowValueSpec(variant, data, attribute, Undefined) == data
  {
  }

  /** Any defined template makes the live `rowValue` set the attribute of an
      object row: to the row's value at the template path when that is truthy,
      else to the template itself; every other key keeps its value. */
  lemma {:induction false} LiveRowValueSets(data: Value, attribute: string, template: Value, k: string)
    requires data.Obj? && !template.Undefined?
    ensures var r := RowValueSpec(Live, data, attribute, template);
            Prop(r, attribute) == (if Truthy(GetAt(data, template)) then GetAt(data, template) else template)
            && (k != attribute ==> Prop(r, k) == Prop(data, k))
  {
    var x := ValueStored(Live, data, template);
    AssignLookup(data.fields, attribute, x, attribute);
    AssignLookup(data.fields, attribute, x, k);
  }

  /** The older `rowValue` ignores falsy templates (an empty string included). */
  lemma OlderFalsyTemplateKeeps(data: Value, attribute: string, template: Value)
    requires !Truthy(template)
    ensures RowValueSpec(Older, data, attribute, template) == data
  {
  }

  /** Copying an array's entries into a fresh array gives the same elements. */
  lemma {:induction false} FilledArrayCopies(items: seq<Value>)
    ensures FilledArray(IndexFields(items)) == Arr(items)
    decreases |items|
  {
    if items != [] {
      var n := |items| - 1;
      var entries := IndexFields(items);
      assert entries[..n] == IndexFields(items[..n]);
      FilledArrayCopies(items[..n]);
      IndexKey(n);
      assert entries[n] == Field(IntToString(n), items[n]);
      assert items[..n] + [items[n]] == items;
    }
  }

  /** The live `rowData` with a non-empty array template stores a copy of it. */
  lemma LiveRowDataCopies(data: Value, attribute: string, items: seq<Value>)
    requires |items| > 0
    ensures RowDataSpec(Live, data, attribute, Arr(items)) == Ok(PutProp(data, attribute, Arr(items)))
  {
    FilledArrayCopies(items);
  }

  /** The template `[]` (the default, also after `addRowData`/`addRowAttr`,
      whose string keys an array does not keep) leaves the live row as it is. */
  lemma LiveEmptyTemplateKeeps(data: Value, attribute: string)
    ensures RowDataSpec(Live, data, attribute, Arr([])) == Ok(data)
  {
  }

  /** Copying an object's entries one by one into `{}` gives the same object. */
  lemma {:induction false} FilledObjectCopies(fields: seq<Field>)
    requires UniqueKeys(fields)
    ensures FilledObject(fields) == Obj(fields)
    decreases |fields|
  {
    if fields != [] {
      var n := |fields| - 1;
      assert UniqueKeys(fields[..n]);
      FilledObjectCopies(fields[..n]);
      assert !HasKey(fields[..n], fields[n].key) by {
        forall j | 0 <= j < n ensures fields[..n][j].key != fields[n].key {
          assert fields[..n][j] == fields[j];
        }
      }
      assert fields[..n] + [fields[n]] == fields;
    }
  }

  /** The older `rowData` with a non-empty object template stores a copy of it. */
  lemma OlderRowDataCopies(data: Value, attribute: string, fields: seq<Field>)
    requires UniqueKeys(fields) && |fields| > 0
    ensures RowDataSpec(Older, data, attribute, Obj(fields)) == Ok(PutProp(data, attribute, Obj(fields)))
  {
    FilledObjectCopies(fields);
  }
}
