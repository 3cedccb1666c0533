/** The row processors: `DataProcessor` of src/processors/data_processor.ts
    (the live one, which the engines use) and the older `DataProcessor` of
    src/processor.ts. A processor holds the fetched rows, the column
    definition, the row templates and the running index; `process` turns
    each row into an output row, pushes it onto `output` and escapes the
    result. The per-row loops of the source are methods proved against the
    fold functions that specify them. */
module Processor {
  import opened Wrappers
  import opened Values
  import opened Strings
  import Helper
  import Seqs
  import Functions
  import Config
  import opened Rows

  // ----- the column definition as the processor reads it --------------------

  /** The column definition entries the constructor reads, each with its
      `??` fallback applied. */
  datatype Setup = Setup(append: Value, edit: Value, excess: Value, only: Value, escape: Value,
                         index: Value, raw: Value, hidden: Value, visible: Value, ignoreGetters: Value)

  /** The constructor's reads of `columnDef`: the live processor falls back to
      `[]` (and `false` for `index` and `ignore_getters`); the older one reads
      no `hidden`, `visible` or `ignore_getters` and falls back to `{}` for
      `append` and `edit`. */
  function SetupOf(variant: Variant, columnDef: Value): (s: Setup)
    ensures !IsNullish(s.append) && !IsNullish(s.edit) && !IsNullish(s.excess) && !IsNullish(s.only)
    ensures !IsNullish(s.escape) && !IsNullish(s.raw)
    ensures IsNullish(Prop(columnDef, "index")) ==> s.index == Bool(false)
    ensures variant.Live? ==> s.hidden == Coalesce(Prop(columnDef, "hidden"), Arr([]))
                              && s.visible == Coalesce(Prop(columnDef, "visible"), Arr([]))
                              && s.ignoreGetters == Coalesce(Prop(columnDef, "ignore_getters"), Bool(false))
  {
    var fallback := if variant.Live? then Arr([]) else Obj([]);
    Setup(Coalesce(Prop(columnDef, "append"), fallback), Coalesce(Prop(columnDef, "edit"), fallback),
          Coalesce(Prop(columnDef, "excess"), Arr([])), Coalesce(Prop(columnDef, "only"), Arr([])),
          Coalesce(Prop(columnDef, "escape"), Arr([])), Coalesce(Prop(columnDef, "index"), Bool(false)),
          Coalesce(Prop(columnDef, "raw"), Arr([])),
          if variant.Live? then Coalesce(Prop(columnDef, "hidden"), Arr([])) else Undefined,
          if variant.Live? then Coalesce(Prop(columnDef, "visible"), Arr([])) else Undefined,
          if variant.Live? then Coalesce(Prop(columnDef, "ignore_getters"), Bool(false)) else Undefined)
  }

  /** `Object.values(v)` of a value that is not `null` or `undefined`. */
  function ObjectValues(v: Value): (r: seq<Value>)
    ensures |r| == |Entries(v)|
    ensures forall i :: 0 <= i < |r| ==> r[i] == Entries(v)[i].val
  {
    var es := Entries(v);
    seq(|es|, i requires 0 <= i < |es| => es[i].val)
  }

  /** The configured key of the running index:
      `config.get('index_column', 'DT_RowIndex')` (see `IndexColumnIsConfigured`). */
  function IndexColumn(config: Value): string {
    var v := GetIn(config, ["index_column"]);
    ToJsString(if v.Undefined? then Str("DT_RowIndex") else v)
  }

  lemma IndexColumnIsConfigured(config: Value)
    ensures IndexColumn(config) == ToJsString(Config.ConfigGet(config, ["index_column"], Some(Str("DT_RowIndex"))))
  {
    PlainPath("index_column");
  }

  /** The four row keys `selectOnlyNeededColumns` keeps besides `only`. */
  const Exceptions: seq<string> := ["DT_RowId", "DT_RowClass", "DT_RowData", "DT_RowAttr"]

  /** `lodash.set(v, p, x)` on a container; anything else is left alone. */
  function SetAt(v: Value, p: Value, x: Value): Value {
    if IsContainer(v) then SetIn(v, LodashPath(p), x) else v
  }

  /** `lodash.unset(v, p)`. */
  function UnsetAt(v: Value, p: Value): Value {
    if IsContainer(v) then UnsetIn(v, LodashPath(p)) else v
  }

  // ----- the per-row steps, as folds -------------------------------------

  /** The row object the pipeline starts from: the live processor spreads the
      serialised row and then `hidden`, `visible` and `ignore_getters`; the
      older one takes the serialised row as it is. `row` is the row already
      serialised; `RowOfAsWritten` adds the `row.toJSON()` call itself. */
  function InitialRow(variant: Variant, s: Setup, row: Value): Value {
    match variant
    case Live =>
      Obj(AssignAll(AssignAll([], Entries(row)),
                    [Field("hidden", s.hidden), Field("visible", s.visible), Field("ignore_getters", s.ignoreGetters)]))
    case Older => row
  }

  /** The `{ name, content, order }` item an appended column entry describes. */
  function ItemOf(entry: Value): Functions.Item {
    Functions.Item(ToJsString(Prop(entry, "name")), Helper.CompileContent(Prop(entry, "content")), Prop(entry, "order"))
  }

  /** `data = arrayIncludeIn(value, data)` for each appended column in turn. */
  function Added(data: Value, items: seq<Value>): Value
    decreases |items|
  {
    if items == [] then data
    else Obj(Functions.IncludeInSpec(ItemOf(items[|items| - 1]), Entries(Added(data, items[..|items| - 1]))))
  }

  /** `lodash.set(data, value['name'], value['content'])` for each edit in turn. */
  function Edited(data: Value, edits: seq<Value>): Value
    decreases |edits|
  {
    if edits == [] then data
    else
      var e := edits[|edits| - 1];
      SetAt(Edited(data, edits[..|edits| - 1]), Prop(e, "name"), Helper.CompileContent(Prop(e, "content")))
  }

  /** `setupRowVariables`: two `rowValue` and two `rowData` steps. */
  function RowVariables(variant: Variant, templates: Value, data: Value): (r: Result<Value>)
    ensures r.Err? <==> IsNullish(Prop(templates, "DT_RowData"))
                        || (!IsNullish(Prop(templates, "DT_RowData")) && IsNullish(Prop(templates, "DT_RowAttr")))
    ensures r.Err? ==> r.message == TypeError
  {
    var d1 := RowValueSpec(variant, data, "DT_RowId", Prop(templates, "DT_RowId"));
    var d2 := RowValueSpec(variant, d1, "DT_RowClass", Prop(templates, "DT_RowClass"));
    var d3 :- RowDataSpec(variant, d2, "DT_RowData", Prop(templates, "DT_RowData"));
    RowDataSpec(variant, d3, "DT_RowAttr", Prop(templates, "DT_RowAttr"))
  }

  /** `lodash.set(results, value, lodash.get(data, value))` for each `only` path. */
  function Picked(data: Value, paths: seq<Value>): Value
    decreases |paths|
  {
    if paths == [] then Obj([])
    else
      var p := paths[|paths| - 1];
      SetAt(Picked(data, paths[..|paths| - 1]), p, GetAt(data, p))
  }

  /** The loop over the exception keys: the live processor sets each of them
      (its guarded set is followed by an unguarded one); the older one sets
      only those whose value is truthy. */
  function Excepted(variant: Variant, data: Value, acc: Value, names: seq<string>): Value
    decreases |names|
  {
    if names == [] then acc
    else
      ExceptStep(variant, data, Excepted(variant, data, acc, names[..|names| - 1]), names[|names| - 1])
  }

  /** One exception key: set from the row, or (older, falsy) skipped. The
      four keys have no dots, so lodash reads and writes them directly (see
      `ExceptStepIsLodash`). */
  function ExceptStep(variant: Variant, data: Value, acc: Value, name: string): Value {
    var x := GetIn(data, [name]);
    if variant.Live? || Truthy(x) then PutProp(acc, name, x) else acc
  }

  lemma ExceptStepIsLodash(variant: Variant, data: Value, acc: Value, name: string)
    requires '.' !in name
    ensures ExceptStep(variant, data, acc, name)
            == (var x := GetAt(data, Str(name)); if variant.Live? || Truthy(x) then SetAt(acc, Str(name), x) else acc)
  {
    PlainPath(name);
  }

  /** `selectOnlyNeededColumns`. */
  function SelectOnly(variant: Variant, only: Value, data: Value): Value {
    if !Truthy(Prop(only, "length")) then data
    else Excepted(variant, data, Picked(data, ObjectValues(only)), Exceptions)
  }

  /** `lodash.unset(data, value)` for each path in turn. */
  function Unsets(data: Value, paths: seq<Value>): Value
    decreases |paths|
  {
    if paths == [] then data else UnsetAt(Unsets(data, paths[..|paths| - 1]), paths[|paths| - 1])
  }

  /** One more path unset. */
  lemma UnsetsNext(data: Value, paths: seq<Value>, i: nat)
    requires i < |paths|
    ensures Unsets(data, paths[..i + 1]) == UnsetAt(Unsets(data, paths[..i]), paths[i])
  {
    assert paths[..i + 1][..i] == paths[..i];
  }

  /** The live `removeExcessColumns` as written: it unsets every path named
      by one of the row's own values and never reads `excess`. */
  function RemoveOwnValues(data: Value): Value {
    Unsets(data, ObjectValues(data))
  }

  /** `removeExcessColumns` as the older processor has it, and as the live one
      evidently means it: every configured excess path is unset. */
  function RemoveExcess(s: Setup, data: Value): Value {
    Unsets(data, ObjectValues(s.excess))
  }

  /** The live `flatten` as written: `data[key] = value` on an array, which
      keeps only index-like keys, skipping values the array already holds. */
  function FlattenAsWritten(entries: seq<Field>): (r: Value)
    ensures r.Arr?
    decreases |entries|
  {
    if entries == [] then Arr([])
    else
      var a := FlattenAsWritten(entries[..|entries| - 1]);
      var f := entries[|entries| - 1];
      if Includes(a, f.val) == Ok(true) then a else PutProp(a, f.key, f.val)
  }

  /** `flatten` as evidently intended: each value is pushed, in key order,
      unless the array already holds it. */
  function FlattenValues(values: seq<Value>): (r: seq<Value>)
    ensures |r| <= |values|
    decreases |values|
  {
    if values == [] then []
    else
      var a := FlattenValues(values[..|values| - 1]);
      var v := values[|values| - 1];
      if exists i :: 0 <= i < |a| && StrictEquals(a[i], v) then a else a + [v]
  }

  /** A row up to its final shape: appended and edited columns, the row
      templates, the `only` projection and the excess columns. */
  function Shaped(variant: Variant, s: Setup, templates: Value, row: Value): Result<Value> {
    var v := Edited(Added(InitialRow(variant, s, row), ObjectValues(s.append)), ObjectValues(s.edit));
    var v :- RowVariables(variant, templates, v);
    Ok(RemoveExcess(s, SelectOnly(variant, s.only, v)))
  }

  /** The running index (`value[indexColumn] = ++this.start`) and the
      flattening of a shaped row: the output row and the index after it. */
  function Finished(s: Setup, indexKey: string, v: Value, start: int, asObject: bool): (Value, int) {
    var (w, next) := if Truthy(s.index) then (PutProp(v, indexKey, Num(start + 1)), start + 1) else (v, start);
    (if asObject then w else Arr(FlattenValues(ObjectValues(w))), next)
  }

  /** One row through the whole pipeline. */
  function RowOf(variant: Variant, s: Setup, templates: Value, indexKey: string,
                 row: Value, start: int, asObject: bool): Result<(Value, int)>
  {
    var v :- Shaped(variant, s, templates, row);
    Ok(Finished(s, indexKey, v, start, asObject))
  }

  /** `row.toJSON()`: a row whose `toJSON` property is a function gives that
      function's result; on any other row, a plain object among them, the
      call throws. */
  function CallToJson(row: Value): (r: Result<Value>)
    ensures r.Ok? <==> Prop(row, "toJSON").Fun?
    ensures r.Err? ==> r.message == TypeError
  {
    match Prop(row, "toJSON")
    case Fun(_, result) => Ok(result)
    case _ => Err(TypeError)
  }

  /** A plain object without a `toJSON` key cannot be serialised so. */
  lemma PlainRowHasNoToJson(fields: seq<Field>)
    requires forall i :: 0 <= i < |fields| ==> fields[i].key != "toJSON"
    ensures CallToJson(Obj(fields)) == Err(TypeError)
  {
    assert !HasKey(fields, "toJSON");
  }

  /** One row of `process` as written. The older processor starts with
      `Helper.serializeToObject(row)` (and adds columns with
      `Helper.objectIncludeIn`), members `Helper` does not define, so each
      of its rows throws before any step. The live processor calls
      `row.toJSON()` with no guard, so a row without that method throws,
      and any other row is processed as what the method returns. `RowOf`
      on the serialised row is the evident intent, read, for a plain row,
      as the row itself, as the guarded `Helper.convertToObject` does. */
  function RowOfAsWritten(variant: Variant, s: Setup, templates: Value, indexKey: string,
                          row: Value, start: int, asObject: bool): (r: Result<(Value, int)>)
    ensures variant.Older? ==> r == Err(TypeError)
    ensures variant.Live? && CallToJson(row).Err? ==> r == Err(TypeError)
    ensures variant.Live? && CallToJson(row).Ok? ==>
              r == RowOf(variant, s, templates, indexKey, CallToJson(row).value, start, asObject)
  {
    if variant.Older? then
      Helper.MissingMembers();
      if Helper.Defines("serializeToObject") then RowOf(variant, s, templates, indexKey, row, start, asObject)
      else Err(TypeError)
    else
      var data := CallToJson(row);
      if data.Err? then Err(TypeError) else RowOf(variant, s, templates, indexKey, data.value, start, asObject)
  }

  /** The per-row step of `process` as written. */
  function AsWrittenStepOf(variant: Variant, s: Setup, templates: Value, indexKey: string, asObject: bool)
    : (Value, int) -> Result<(Value, int)>
  {
    (row: Value, start: int) => RowOfAsWritten(variant, s, templates, indexKey, row, start, asObject)
  }

  /** What `row.toJSON()` gives for each of rows that all have the method. */
  function SerializedRows(rows: seq<Value>): (r: seq<Value>)
    requires forall i :: 0 <= i < |rows| ==> Prop(rows[i], "toJSON").Fun?
    ensures |r| == |rows|
    ensures forall i :: 0 <= i < |rows| ==> CallToJson(rows[i]) == Ok(r[i])
  {
    seq(|rows|, i requires 0 <= i < |rows| => Prop(rows[i], "toJSON").result)
  }

  /** As written, the live `process` ends with an error at the first row
      without a `toJSON` method, at the latest: none of the rows from there
      on is pushed. */
  lemma LiveStopsAtPlainRow(s: Setup, templates: Value, indexKey: string, results: seq<Value>,
                            k: nat, start: int, asObject: bool)
    requires k < |results| && !Prop(results[k], "toJSON").Fun?
    ensures var b := Pipeline(AsWrittenStepOf(Live, s, templates, indexKey, asObject), results, start);
            b.error.Some? && |b.rows| <= k
  {
    var step := AsWrittenStepOf(Live, s, templates, indexKey, asObject);
    var before := Pipeline(step, results[..k], start);
    if before.error.Some? {
      PipelineStops(step, results, k, start);
    } else {
      assert CallToJson(results[k]).Err?;
      assert step(results[k], before.start) == Err(TypeError);
      PipelineFails(step, results, k, start);
    }
  }

  /** On rows that all have a `toJSON` method, the live `process` as
      written is the intended loop over what those methods return. */
  lemma {:induction false} SerializingRowsAgree(s: Setup, templates: Value, indexKey: string, rows: seq<Value>,
                                                start: int, asObject: bool)
    requires forall i :: 0 <= i < |rows| ==> Prop(rows[i], "toJSON").Fun?
    ensures Pipeline(AsWrittenStepOf(Live, s, templates, indexKey, asObject), rows, start)
            == Pipeline(RowStepOf(Live, s, templates, indexKey, asObject), SerializedRows(rows), start)
  {
    var step := AsWrittenStepOf(Live, s, templates, indexKey, asObject);
    var intended := RowStepOf(Live, s, templates, indexKey, asObject);
    var data := SerializedRows(rows);
    forall i, st | 0 <= i < |rows| ensures step(rows[i], st) == intended(data[i], st) {
      assert CallToJson(rows[i]).value == data[i];
    }
    PipelinesAgree(step, rows, intended, data, start);
  }

  /** Two loops whose steps agree row by row, at every index, agree. */
  lemma {:induction false} PipelinesAgree(step: (Value, int) -> Result<(Value, int)>, rows: seq<Value>,
                                          other: (Value, int) -> Result<(Value, int)>, others: seq<Value>, start: int)
    requires |rows| == |others|
    requires forall i, st :: 0 <= i < |rows| ==> step(rows[i], st) == other(others[i], st)
    ensures Pipeline(step, rows, start) == Pipeline(other, others, start)
    decreases |rows|
  {
    if rows != [] {
      var n := |rows| - 1;
      PipelinesAgree(step, rows[..n], other, others[..n], start);
    }
  }

  /** As written, the older `process` stops at its first row: nothing is
      pushed, the index is not advanced, and the TypeError propagates. */
  lemma OlderStopsAtFirstRow(s: Setup, templates: Value, indexKey: string, results: seq<Value>,
                             start: int, asObject: bool)
    requires results != []
    ensures Pipeline((row: Value, index: int) => RowOfAsWritten(Older, s, templates, indexKey, row, index, asObject),
                     results, start)
            == Batch([], start, Some(TypeError))
  {
    var step := (row: Value, index: int) => RowOfAsWritten(Older, s, templates, indexKey, row, index, asObject);
    assert results[..0] == [];
    PipelineFails(step, results, 0, start);
  }

  /** The rows pushed so far, the running index, and the error that stopped
      the loop, if any. */
  datatype Batch = Batch(rows: seq<Value>, start: int, error: Option<string>)

  /** The per-row step of `process` for a given processor: a row and the
      running index before it give the output row and the index after it. */
  function RowStepOf(variant: Variant, s: Setup, templates: Value, indexKey: string, asObject: bool)
    : (Value, int) -> Result<(Value, int)>
  {
    (row: Value, start: int) => RowOf(variant, s, templates, indexKey, row, start, asObject)
  }

  /** The loop of `process` over the rows: each row in turn goes through
      `step`, and the first error ends the loop. */
  function Pipeline(step: (Value, int) -> Result<(Value, int)>, rows: seq<Value>, start: int): (b: Batch)
    ensures |b.rows| <= |rows|
    ensures b.error.None? ==> |b.rows| == |rows|
    decreases |rows|
  {
    if rows == [] then Batch([], start, None)
    else
      var b := Pipeline(step, rows[..|rows| - 1], start);
      if b.error.Some? then b
      else Push(b, step(rows[|rows| - 1], b.start))
  }

  /** The batch after one more row: pushed, or the error that stops the loop. */
  function Push(b: Batch, row: Result<(Value, int)>): Batch {
    match row
    case Err(e) => Batch(b.rows, b.start, Some(e))
    case Ok(p) => Batch(b.rows + [p.0], p.1, None)
  }

  // ----- escaping ----------------------------------------------------------

  /** `escapeRow`: each truthy string entry whose key is not raw is escaped.
      The live processor's raw list is a fresh `[]`; the older one asks
      `rawColumns.includes(key)` for every truthy entry, which throws unless
      the raw columns are an array or a string. */
  function EscapedRow(variant: Variant, raw: Value, row: Value, entries: seq<Field>): Result<Value>
    decreases |entries|
  {
    if entries == [] then Ok(row)
    else
      var r :- EscapedRow(variant, raw, row, entries[..|entries| - 1]);
      EscapeEntry(variant, raw, r, entries[|entries| - 1])
  }

  /** One entry of `escapeRow`: a truthy string that is not raw is escaped
      in the row built so far. */
  function EscapeEntry(variant: Variant, raw: Value, r: Value, f: Field): Result<Value> {
    if !Truthy(f.val) then Ok(r)
    else
      var isRaw :- if variant.Live? then Ok(false) else Includes(raw, Str(f.key));
      if !isRaw && f.val.Str? then Ok(PutProp(r, f.key, Helper.Escape(f.val))) else Ok(r)
  }

  /** The escape list without the raw columns (`filter(col => !raw.includes(col))`). */
  function NotRaw(columns: seq<Value>, raw: Value): (r: Result<seq<Value>>)
    ensures r.Ok? ==> |r.value| <= |columns|
    decreases |columns|
  {
    if columns == [] then Ok([])
    else
      var kept :- NotRaw(columns[..|columns| - 1], raw);
      var c := columns[|columns| - 1];
      var isRaw :- Includes(raw, c);
      if isRaw then Ok(kept) else Ok(kept + [c])
  }

  /** `lodash.set(row, key, e(lodash.get(row, key)))` for each listed column. */
  function EscapedListed(row: Value, columns: seq<Value>): Value
    decreases |columns|
  {
    if columns == [] then row
    else
      var r := EscapedListed(row, columns[..|columns| - 1]);
      var c := columns[|columns| - 1];
      SetAt(r, c, Helper.Escape(GetAt(r, c)))
  }

  /** `escapeColumns(output)`: `'*'` escapes whole rows, an array escapes the
      listed columns, anything else leaves the rows alone. */
  function EscapedRows(variant: Variant, s: Setup, rows: seq<Value>): (r: Result<seq<Value>>)
    ensures r.Ok? ==> |r.value| == |rows|
    decreases |rows|
  {
    if rows == [] then Ok([])
    else
      var init :- EscapedRows(variant, s, rows[..|rows| - 1]);
      var r :- EscapedOne(variant, s, rows[|rows| - 1]);
      Ok(init + [r])
  }

  /** One row through `escapeColumns`: every truthy string escaped with
      `'*'`, the listed columns that are not raw with a list, else as it is. */
  function EscapedOne(variant: Variant, s: Setup, row: Value): Result<Value> {
    if s.escape == Str("*") then EscapedRow(variant, s.raw, row, Entries(row))
    else if s.escape.Arr? then
      var columns :- NotRaw(s.escape.items, s.raw);
      Ok(EscapedListed(row, columns))
    else Ok(row)
  }

  class DataProcessor {
    const variant: Variant
    const results: seq<Value>
    const setup: Setup
    const templates: Value
    const config: Value
    var start: int
    var output: seq<Value>

    /** `new DataProcessor(results, columnDef, templates, start, config)`;
        `results` are the rows as `Object.values` lists them. */
    constructor(variant: Variant, results: seq<Value>, columnDef: Value, templates: Value, start: int, config: Value)
      ensures this.variant == variant && this.results == results && this.setup == SetupOf(variant, columnDef)
      ensures this.templates == templates && this.start == start && this.config == config
      ensures output == []
    {
      this.variant := variant;
      this.results := results;
      this.setup := SetupOf(variant, columnDef);
      this.templates := templates;
      this.start := start;
      this.config := config;
      output := [];
    }

    /** `process(asObject)`. The live processor first clears `output`; the
        older one keeps pushing onto it, so a second call escapes the rows of
        the first one again. */
    method Process(asObject: bool) returns (r: Result<seq<Value>>)
      modifies this`output, this`start
      ensures var base := if variant.Live? then [] else old(output);
              var b := Pipeline(RowStepOf(variant, setup, templates, IndexColumn(config), asObject), results, old(start));
              && start == b.start
              && (b.error.Some? ==> r == Err(b.error.value) && output == base + b.rows)
              && (b.error.None? ==> r == EscapedRows(variant, setup, base + b.rows)
                                    && output == (if r.Ok? then r.value else base + b.rows))
    {
      if variant.Live? {
        output := [];
      }
      var error := PushRows(asObject);
      if error.Some? {
        return Err(error.value);
      }
      r := EscapeColumns(output);
      if r.Ok? {
        output := r.value;
      }
    }

    /** The loop of `process` over the rows. */
    method PushRows(asObject: bool) returns (error: Option<string>)
      modifies this`output, this`start
      ensures var b := Pipeline(RowStepOf(variant, setup, templates, IndexColumn(config), asObject), results, old(start));
              start == b.start && output == old(output) + b.rows && error == b.error
    {
      error := PushRowsAs(asObject, RowStepOf(variant, setup, templates, IndexColumn(config), asObject));
    }

    /** The row loop, with `step` standing for the body of the loop. */
    method PushRowsAs(asObject: bool, ghost step: (Value, int) -> Result<(Value, int)>) returns (error: Option<string>)
      requires forall row, index {:trigger step(row, index)} ::
                 step(row, index) == RowOf(variant, setup, templates, IndexColumn(config), row, index, asObject)
      modifies this`output, this`start
      ensures var b := Pipeline(step, results, old(start));
              start == b.start && output == old(output) + b.rows && error == b.error
    {
      ghost var base := output;
      ghost var start0 := start;
      var i := 0;
      while i < |results|
        invariant 0 <= i <= |results|
        invariant var b := Pipeline(step, results[..i], start0);
                  b.error.None? && output == base + b.rows && start == b.start
      {
        ghost var b := Pipeline(step, results[..i], start0);
        var row := RowStep(results[i], start, asObject);
        assert Pipeline(step, results[..i + 1], start0) == Push(b, row) by {
          assert results[..i + 1][..i] == results[..i];
          assert step(results[i], b.start) == row;
        }
        if row.Err? {
          PipelineFails(step, results, i, start0);
          return Some(row.message);
        }
        output := output + [row.value.0];
        start := row.value.1;
        i := i + 1;
      }
      assert results[..|results|] == results;
      return None;
    }

    /** The body of the row loop for one row. */
    method RowStep(row: Value, index: int, asObject: bool) returns (r: Result<(Value, int)>)
      ensures r == RowOf(variant, setup, templates, IndexColumn(config), row, index, asObject)
    {
      var shaped := ShapeRow(row);
      if shaped.Err? {
        return Err(shaped.message);
      }
      var value := shaped.value;
      var next := index;
      if Truthy(setup.index) {
        next := index + 1;
        value := PutProp(value, IndexColumn(config), Num(next));
      }
      if !asObject {
        var flat := Flatten(ObjectValues(value));
        value := Arr(flat);
      }
      return Ok((value, next));
    }

    /** The row steps before the index. */
    method ShapeRow(row: Value) returns (r: Result<Value>)
      ensures r == Shaped(variant, setup, templates, row)
    {
      var data := InitialRow(variant, setup, row);
      var value := AddColumns(data);
      value := EditColumns(value);
      var rows := new RowProcessor(variant, value);
      var o := SetupRowVariables(rows);
      if o.Thrown? {
        return Err(TypeError);
      }
      value := SelectOnlyNeededColumns(rows.data);
      value := RemoveExcessColumns(value);
      return Ok(value);
    }

    /** `setupRowVariables(data)` on the row processor holding `data`. */
    method SetupRowVariables(rows: RowProcessor) returns (o: Outcome)
      modifies rows`data
      ensures rows.variant == variant ==>
                var spec := RowVariables(variant, templates, old(rows.data));
                (o.Thrown? <==> spec.Err?) && (o.Done? ==> rows.data == spec.value)
    ensures o.Thrown? ==> o.message == TypeError
    {
      var id := Prop(templates, "DT_RowId");
      var cls := Prop(templates, "DT_RowClass");
      var rowData := Prop(templates, "DT_RowData");
      var rowAttr := Prop(templates, "DT_RowAttr");
      rows.RowValue("DT_RowId", id);
      rows.RowValue("DT_RowClass", cls);
      o := rows.RowData("DT_RowData", rowData);
      if o.Thrown? {
        return;
      }
      o := rows.RowData("DT_RowAttr", rowAttr);
    }

    /** `addColumns(data)`. */
    method AddColumns(data: Value) returns (r: Value)
      ensures r == Added(data, ObjectValues(setup.append))
    {
      var items := ObjectValues(setup.append);
      r := data;
      var i := 0;
      while i < |items|
        invariant 0 <= i <= |items|
        invariant r == Added(data, items[..i])
      {
        assert items[..i + 1][..i] == items[..i];
        assert Added(data, items[..i + 1]) == Obj(Functions.IncludeInSpec(ItemOf(items[i]), Entries(Added(data, items[..i]))));
        r := Obj(Functions.IncludeInSpec(ItemOf(items[i]), Entries(r)));
        i := i + 1;
      }
      assert items[..|items|] == items;
    }

    /** `editColumns(data)`. */
    method EditColumns(data: Value) returns (r: Value)
      ensures r == Edited(data, ObjectValues(setup.edit))
    {
      var edits := ObjectValues(setup.edit);
      r := data;
      var i := 0;
      while i < |edits|
        invariant 0 <= i <= |edits|
        invariant r == Edited(data, edits[..i])
      {
        assert edits[..i + 1][..i] == edits[..i];
        assert Edited(data, edits[..i + 1]) == SetAt(Edited(data, edits[..i]), Prop(edits[i], "name"), Helper.CompileContent(Prop(edits[i], "content")));
        r := SetAt(r, Prop(edits[i], "name"), Helper.CompileContent(Prop(edits[i], "content")));
        i := i + 1;
      }
      assert edits[..|edits|] == edits;
    }

    /** `selectOnlyNeededColumns(data)`. */
    method SelectOnlyNeededColumns(data: Value) returns (r: Value)
      ensures r == SelectOnly(variant, setup.only, data)
    {
      if !Truthy(Prop(setup.only, "length")) {
        return data;
      }
      var picked := PickPaths(data, ObjectValues(setup.only));
      r := ExceptKeys(data, picked);
    }

    /** The first loop of `selectOnlyNeededColumns`: each `only` path is
        copied from the row into a fresh object. */
    method PickPaths(data: Value, paths: seq<Value>) returns (r: Value)
      ensures r == Picked(data, paths)
    {
      r := Obj([]);
      var i := 0;
      while i < |paths|
        invariant 0 <= i <= |paths|
        invariant r == Picked(data, paths[..i])
      {
        assert paths[..i + 1][..i] == paths[..i];
        assert Picked(data, paths[..i + 1]) == SetAt(Picked(data, paths[..i]), paths[i], GetAt(data, paths[i]));
        r := SetAt(r, paths[i], GetAt(data, paths[i]));
        i := i + 1;
      }
      assert paths[..|paths|] == paths;
    }

    /** The second loop of `selectOnlyNeededColumns`, over the four
        `DT_Row*` keys. */
    method ExceptKeys(data: Value, picked: Value) returns (r: Value)
      ensures r == Excepted(variant, data, picked, Exceptions)
    {
      r := picked;
      var j := 0;
      while j < |Exceptions|
        invariant 0 <= j <= |Exceptions|
        invariant r == Excepted(variant, data, picked, Exceptions[..j])
      {
        assert Exceptions[..j + 1][..j] == Exceptions[..j];
        assert Excepted(variant, data, picked, Exceptions[..j + 1])
               == ExceptStep(variant, data, Excepted(variant, data, picked, Exceptions[..j]), Exceptions[j]);
        r := ExceptStep(variant, data, r, Exceptions[j]);
        j := j + 1;
      }
      assert Exceptions[..|Exceptions|] == Exceptions;
    }

    /** `removeExcessColumns(data)`, in its intended form. */
    method RemoveExcessColumns(data: Value) returns (r: Value)
      ensures r == RemoveExcess(setup, data)
    {
      var paths := ObjectValues(setup.excess);
      r := data;
      var i := 0;
      while i < |paths|
        invariant 0 <= i <= |paths|
        invariant r == Unsets(data, paths[..i])
      {
        UnsetsNext(data, paths, i);
        r := UnsetAt(r, paths[i]);
        i := i + 1;
      }
      assert paths[..|paths|] == paths;
    }

    /** `flatten(row)`, in its intended form. */
    method Flatten(values: seq<Value>) returns (r: seq<Value>)
      ensures r == FlattenValues(values)
    {
      r := [];
      var i := 0;
      while i < |values|
        invariant 0 <= i <= |values|
        invariant r == FlattenValues(values[..i])
      {
        assert values[..i + 1][..i] == values[..i];
        if !(exists k :: 0 <= k < |r| && StrictEquals(r[k], values[i])) {
          r := r + [values[i]];
        }
        i := i + 1;
      }
      assert values[..|values|] == values;
    }

    /** `escapeColumns(rows)`. */
    method EscapeColumns(rows: seq<Value>) returns (r: Result<seq<Value>>)
      ensures r == EscapedRows(variant, setup, rows)
    {
      var done: seq<Value> := [];
      var i := 0;
      while i < |rows|
        invariant 0 <= i <= |rows|
        invariant EscapedRows(variant, setup, rows[..i]) == Ok(done)
      {
        assert rows[..i + 1][..i] == rows[..i];
        var e := EscapeOne(rows[i]);
        if e.Err? {
          EscapedErrStays(variant, setup, rows, i + 1);
          assert rows[..|rows|] == rows;
          return Err(e.message);
        }
        done := done + [e.value];
        i := i + 1;
      }
      assert rows[..|rows|] == rows;
      return Ok(done);
    }

    /** The body of the loop of `escapeColumns` for one row. */
    method EscapeOne(row: Value) returns (r: Result<Value>)
      ensures r == EscapedOne(variant, setup, row)
    {
      if setup.escape == Str("*") {
        r := EscapeRow(row);
      } else if setup.escape.Arr? {
        var columns := NotRaw(setup.escape.items, setup.raw);
        if columns.Err? {
          return Err(columns.message);
        }
        var escaped := EscapeListed(row, columns.value);
        r := Ok(escaped);
      } else {
        r := Ok(row);
      }
    }

    /** `escapeRow(row)`. */
    method EscapeRow(row: Value) returns (r: Result<Value>)
      ensures r == EscapedRow(variant, setup.raw, row, Entries(row))
    {
      var entries := Entries(row);
      var out := row;
      var i := 0;
      while i < |entries|
        invariant 0 <= i <= |entries|
        invariant EscapedRow(variant, setup.raw, row, entries[..i]) == Ok(out)
      {
        assert entries[..i + 1][..i] == entries[..i];
        var f := entries[i];
        assert EscapedRow(variant, setup.raw, row, entries[..i + 1]) == EscapeEntry(variant, setup.raw, out, f);
        if Truthy(f.val) {
          var isRaw := if variant.Live? then Ok(false) else Includes(setup.raw, Str(f.key));
          if isRaw.Err? {
            EscapedRowErrStays(variant, setup.raw, row, entries, i + 1);
            assert entries[..|entries|] == entries;
            return Err(isRaw.message);
          }
          if !isRaw.value && f.val.Str? {
            out := PutProp(out, f.key, Helper.Escape(f.val));
          }
        }
        i := i + 1;
      }
      assert entries[..|entries|] == entries;
      return Ok(out);
    }

    /** The loop over the listed columns for one row. */
    method EscapeListed(row: Value, columns: seq<Value>) returns (r: Value)
      ensures r == EscapedListed(row, columns)
    {
      r := row;
      var i := 0;
      while i < |columns|
        invariant 0 <= i <= |columns|
        invariant r == EscapedListed(row, columns[..i])
      {
        assert columns[..i + 1][..i] == columns[..i];
        r := SetAt(r, columns[i], Helper.Escape(GetAt(r, columns[i])));
        i := i + 1;
      }
      assert columns[..|columns|] == columns;
    }
  }

  // ----- how the loops stop ----------------------------------------------

  /** Once a row fails, the pipeline keeps that error to the end. */
  lemma {:induction false} PipelineStops(step: (Value, int) -> Result<(Value, int)>, rows: seq<Value>, i: nat, start: int)
    requires 0 < i <= |rows|
    requires Pipeline(step, rows[..i], start).error.Some?
    ensures Pipeline(step, rows, start) == Pipeline(step, rows[..i], start)
    decreases |rows| - i
  {
    if i < |rows| {
      assert rows[..i + 1][..i] == rows[..i];
      PipelineStops(step, rows, i + 1, start);
    } else {
      assert rows[..i] == rows;
    }
  }

  /** The row at `i` fails: the loop ends with the rows before it. */
  lemma PipelineFails(step: (Value, int) -> Result<(Value, int)>, rows: seq<Value>, i: nat, start: int)
    requires i < |rows|
    requires var b := Pipeline(step, rows[..i], start);
             b.error.None? && step(rows[i], b.start).Err?
    ensures var b := Pipeline(step, rows[..i], start);
            Pipeline(step, rows, start) == Batch(b.rows, b.start, Some(step(rows[i], b.start).message))
  {
    assert rows[..i + 1][..i] == rows[..i];
    PipelineStops(step, rows, i + 1, start);
  }

  lemma {:induction false} EscapedErrStays(variant: Variant, s: Setup, rows: seq<Value>, i: nat)
    requires 0 < i <= |rows| && EscapedRows(variant, s, rows[..i]).Err?
    ensures EscapedRows(variant, s, rows) == EscapedRows(variant, s, rows[..i])
    decreases |rows| - i
  {
    if i < |rows| {
      assert rows[..i + 1][..i] == rows[..i];
      EscapedErrStays(variant, s, rows, i + 1);
    } else {
      assert rows[..i] == rows;
    }
  }

  lemma {:induction false} EscapedRowErrStays(variant: Variant, raw: Value, row: Value, entries: seq<Field>, i: nat)
    requires 0 < i <= |entries| && EscapedRow(variant, raw, row, entries[..i]).Err?
    ensures EscapedRow(variant, raw, row, entries) == EscapedRow(variant, raw, row, entries[..i])
    decreases |entries| - i
  {
    if i < |entries| {
      assert entries[..i + 1][..i] == entries[..i];
      EscapedRowErrStays(variant, raw, row, entries, i + 1);
    } else {
      assert entries[..i] == entries;
    }
  }

  // ----- what the processor promises -------------------------------------

  /** The index a row receives after `j` earlier rows. */
  function IndexAfter(s: Setup, start: int, j: nat): int {
    if Truthy(s.index) then start + j else start
  }

  /** A loop that ends without error ran without error on every prefix, and
      its rows start with the prefix's rows. */
  lemma {:induction false} PipelinePrefix(step: (Value, int) -> Result<(Value, int)>, rows: seq<Value>, start: int, j: nat)
    requires j <= |rows| && Pipeline(step, rows, start).error.None?
    ensures Pipeline(step, rows[..j], start).error.None?
    ensures Pipeline(step, rows, start).rows[..j] == Pipeline(step, rows[..j], start).rows
    decreases |rows|
  {
    if j < |rows| {
      var n := |rows| - 1;
      assert rows[..n][..j] == rows[..j];
      PipelinePrefix(step, rows[..n], start, j);
      assert Pipeline(step, rows, start).rows[..n] == Pipeline(step, rows[..n], start).rows;
      assert Pipeline(step, rows, start).rows[..j] == Pipeline(step, rows, start).rows[..n][..j];
    } else {
      assert rows[..j] == rows;
    }
  }

  /** One output row per input row, in input order: output row `j` is the
      step applied to input row `j` and the index the rows before it left. */
  lemma PipelineRow(step: (Value, int) -> Result<(Value, int)>, rows: seq<Value>, start: int, j: nat)
    requires j < |rows| && Pipeline(step, rows, start).error.None?
    ensures var before := Pipeline(step, rows[..j], start);
            && step(rows[j], before.start).Ok?
            && Pipeline(step, rows, start).rows[j] == step(rows[j], before.start).value.0
  {
    PipelinePrefix(step, rows, start, j + 1);
    assert rows[..j + 1][..j] == rows[..j];
    var before := Pipeline(step, rows[..j], start);
    assert Pipeline(step, rows[..j + 1], start) == Push(before, step(rows[j], before.start));
    assert Pipeline(step, rows, start).rows[j] == Pipeline(step, rows, start).rows[..j + 1][j];
  }

  /** The processor's step leaves the index one further when indexing is on. */
  lemma RowStepAdvances(variant: Variant, s: Setup, templates: Value, indexKey: string, asObject: bool,
                        row: Value, start: int)
    requires RowStepOf(variant, s, templates, indexKey, asObject)(row, start).Ok?
    ensures RowStepOf(variant, s, templates, indexKey, asObject)(row, start).value.1 == IndexAfter(s, start, 1)
  {
  }

  /** The running index advances by one per row when indexing is on. */
  lemma {:induction false} PipelineStart(variant: Variant, s: Setup, templates: Value, indexKey: string, asObject: bool,
                                         rows: seq<Value>, start: int)
    requires Pipeline(RowStepOf(variant, s, templates, indexKey, asObject), rows, start).error.None?
    ensures Pipeline(RowStepOf(variant, s, templates, indexKey, asObject), rows, start).start == IndexAfter(s, start, |rows|)
    decreases |rows|
  {
    if rows != [] {
      var step := RowStepOf(variant, s, templates, indexKey, asObject);
      var init := rows[..|rows| - 1];
      var b := Pipeline(step, init, start);
      assert b.error.None?;
      PipelineStart(variant, s, templates, indexKey, asObject, init, start);
      RowStepAdvances(variant, s, templates, indexKey, asObject, rows[|rows| - 1], b.start);
    }
  }

  /** Output row `j` of the processor is input row `j` shaped and given the
      index `start + j + 1` (when indexing is on). */
  lemma ProcessedRow(variant: Variant, s: Setup, templates: Value, indexKey: string, asObject: bool,
                     rows: seq<Value>, start: int, j: nat)
    requires j < |rows|
    requires Pipeline(RowStepOf(variant, s, templates, indexKey, asObject), rows, start).error.None?
    ensures Shaped(variant, s, templates, rows[j]).Ok?
    ensures Pipeline(RowStepOf(variant, s, templates, indexKey, asObject), rows, start).rows[j]
            == Finished(s, indexKey, Shaped(variant, s, templates, rows[j]).value, IndexAfter(s, start, j), asObject).0
  {
    var step := RowStepOf(variant, s, templates, indexKey, asObject);
    PipelineRow(step, rows, start, j);
    PipelinePrefix(step, rows, start, j);
    PipelineStart(variant, s, templates, indexKey, asObject, rows[..j], start);
  }

  /** With indexing on and rows kept as objects, object row `j` holds
      `start + j + 1` under the index key. */
  lemma IndexedRow(s: Setup, indexKey: string, v: Value, start: int, j: nat)
    requires Truthy(s.index) && v.Obj?
    ensures Prop(Finished(s, indexKey, v, start + j, true).0, indexKey) == Num(start + j + 1)
  {
    PutPropGet(v, indexKey, Num(start + j + 1));
  }

  lemma SetAtKeepsObject(v: Value, p: Value, x: Value)
    requires v.Obj?
    ensures SetAt(v, p, x).Obj?
  {
  }

  lemma UnsetAtKeepsObject(v: Value, p: Value)
    requires v.Obj?
    ensures UnsetAt(v, p).Obj?
  {
  }

  /** A dot-free key is written, read and removed directly. */
  lemma PlainSet(v: Value, n: string, x: Value)
    requires v.Obj? && '.' !in n
    ensures SetAt(v, Str(n), x) == PutProp(v, n, x)
  {
    PlainPath(n);
  }

  lemma PlainGet(v: Value, n: string)
    requires v.Obj? && '.' !in n
    ensures GetAt(v, Str(n)) == Prop(v, n)
  {
    PlainPath(n);
    assert GetIn(v, [n]) == GetIn(Prop(v, n), []);
  }

  lemma PlainUnset(v: Value, n: string)
    requires v.Obj? && '.' !in n
    ensures UnsetAt(v, Str(n)) == DeleteProp(v, n)
  {
    PlainPath(n);
  }

  lemma {:induction false} EditedKeepsObject(data: Value, edits: seq<Value>)
    requires data.Obj?
    ensures Edited(data, edits).Obj?
    decreases |edits|
  {
    if edits != [] {
      EditedKeepsObject(data, edits[..|edits| - 1]);
    }
  }

  lemma {:induction false} PickedIsObject(data: Value, paths: seq<Value>)
    ensures Picked(data, paths).Obj?
    decreases |paths|
  {
    if paths != [] {
      PickedIsObject(data, paths[..|paths| - 1]);
    }
  }

  lemma {:induction false} ExceptedKeepsObject(variant: Variant, data: Value, acc: Value, names: seq<string>)
    requires acc.Obj?
    ensures Excepted(variant, data, acc, names).Obj?
    decreases |names|
  {
    if names != [] {
      ExceptedKeepsObject(variant, data, acc, names[..|names| - 1]);
    }
  }

  lemma {:induction false} UnsetsKeepsObject(data: Value, paths: seq<Value>)
    requires data.Obj?
    ensures Unsets(data, paths).Obj?
    decreases |paths|
  {
    if paths != [] {
      UnsetsKeepsObject(data, paths[..|paths| - 1]);
    }
  }

  lemma AddedKeepsObject(data: Value, items: seq<Value>)
    requires data.Obj?
    ensures Added(data, items).Obj?
  {
  }

  lemma RowVariablesKeepsObject(variant: Variant, templates: Value, data: Value)
    requires data.Obj? && RowVariables(variant, templates, data).Ok?
    ensures RowVariables(variant, templates, data).value.Obj?
  {
    var d1 := RowValueSpec(variant, data, "DT_RowId", Prop(templates, "DT_RowId"));
    var d2 := RowValueSpec(variant, d1, "DT_RowClass", Prop(templates, "DT_RowClass"));
    assert d2.Obj?;
    var d3 := RowDataSpec(variant, d2, "DT_RowData", Prop(templates, "DT_RowData"));
    assert d3.Ok? && d3.value.Obj?;
  }

  lemma SelectOnlyKeepsObject(variant: Variant, only: Value, data: Value)
    requires data.Obj?
    ensures SelectOnly(variant, only, data).Obj?
  {
    if Truthy(Prop(only, "length")) {
      PickedIsObject(data, ObjectValues(only));
      ExceptedKeepsObject(variant, data, Picked(data, ObjectValues(only)), Exceptions);
    }
  }

  /** The live processor always shapes a row into an object. */
  lemma LiveShapesObjects(s: Setup, templates: Value, row: Value)
    requires Shaped(Live, s, templates, row).Ok?
    ensures Shaped(Live, s, templates, row).value.Obj?
  {
    var v0 := InitialRow(Live, s, row);
    AddedKeepsObject(v0, ObjectValues(s.append));
    var v1 := Added(v0, ObjectValues(s.append));
    EditedKeepsObject(v1, ObjectValues(s.edit));
    var v2 := Edited(v1, ObjectValues(s.edit));
    var r := RowVariables(Live, templates, v2);
    assert r.Ok?;
    RowVariablesKeepsObject(Live, templates, v2);
    SelectOnlyKeepsObject(Live, s.only, r.value);
    UnsetsKeepsObject(SelectOnly(Live, s.only, r.value), ObjectValues(s.excess));
    assert Shaped(Live, s, templates, row) == Ok(RemoveExcess(s, SelectOnly(Live, s.only, r.value)));
  }

  /** With indexing on, the live processor numbers its rows `start + 1`,
      `start + 2`, ... in input order. */
  lemma LiveIndexRuns(s: Setup, templates: Value, indexKey: string, rows: seq<Value>, start: int, j: nat)
    requires Truthy(s.index) && j < |rows|
    requires Pipeline(RowStepOf(Live, s, templates, indexKey, true), rows, start).error.None?
    ensures Prop(Pipeline(RowStepOf(Live, s, templates, indexKey, true), rows, start).rows[j], indexKey) == Num(start + j + 1)
  {
    LiveRowFinished(s, templates, indexKey, rows, start, j);
    var v: Value :| v.Obj? && Pipeline(RowStepOf(Live, s, templates, indexKey, true), rows, start).rows[j]
                       == Finished(s, indexKey, v, start + j, true).0;
    IndexedRow(s, indexKey, v, start, j);
  }

  /** Row `j` of an indexed live run is an object row finished with the
      index `start + j`. */
  lemma LiveRowFinished(s: Setup, templates: Value, indexKey: string, rows: seq<Value>, start: int, j: nat)
    requires Truthy(s.index) && j < |rows|
    requires Pipeline(RowStepOf(Live, s, templates, indexKey, true), rows, start).error.None?
    ensures exists v: Value :: v.Obj? && Pipeline(RowStepOf(Live, s, templates, indexKey, true), rows, start).rows[j]
                                  == Finished(s, indexKey, v, start + j, true).0
  {
    ProcessedRow(Live, s, templates, indexKey, true, rows, start, j);
    LiveShapesObjects(s, templates, rows[j]);
    assert IndexAfter(s, start, j) == start + j;
  }

  /** Three writes to distinct keys each read back. */
  lemma ThreeAssigns(a: seq<Field>, k1: string, x1: Value, k2: string, x2: Value, k3: string, x3: Value)
    requires k1 != k2 && k1 != k3 && k2 != k3
    ensures var g := Assign(Assign(Assign(a, k1, x1), k2, x2), k3, x3);
            Lookup(g, k1) == Some(x1) && Lookup(g, k2) == Some(x2) && Lookup(g, k3) == Some(x3)
  {
    var h := Assign(a, k1, x1);
    var v := Assign(h, k2, x2);
    AssignLookup(a, k1, x1, k1);
    AssignLookup(h, k2, x2, k1);
    AssignLookup(h, k2, x2, k2);
    AssignLookup(v, k3, x3, k1);
    AssignLookup(v, k3, x3, k2);
    AssignLookup(v, k3, x3, k3);
  }

  /** The live row object: the row's entries, then the three flags. */
  lemma LiveInitialRow(s: Setup, row: Value)
    ensures InitialRow(Live, s, row)
            == Obj(Assign(Assign(Assign(AssignAll([], Entries(row)), "hidden", s.hidden), "visible", s.visible),
                          "ignore_getters", s.ignoreGetters))
  {
    var a := AssignAll([], Entries(row));
    var fh, fv, fg := Field("hidden", s.hidden), Field("visible", s.visible), Field("ignore_getters", s.ignoreGetters);
    var h := Assign(a, "hidden", s.hidden);
    var v := Assign(h, "visible", s.visible);
    assert [fh, fv, fg][1..] == [fv, fg] && [fv, fg][1..] == [fg] && [fg][1..] == [];
    assert AssignAll(a, [fh, fv, fg]) == AssignAll(h, [fv, fg]);
    assert AssignAll(h, [fv, fg]) == AssignAll(v, [fg]);
    assert AssignAll(v, [fg]) == AssignAll(Assign(v, "ignore_getters", s.ignoreGetters), []);
  }

  /** Every live row starts with `hidden`, `visible` and `ignore_getters`
      from the column definition. */
  lemma LiveRowGainsFlags(s: Setup, row: Value)
    ensures var d := InitialRow(Live, s, row);
            Prop(d, "hidden") == s.hidden && Prop(d, "visible") == s.visible
            && Prop(d, "ignore_getters") == s.ignoreGetters
  {
    LiveInitialRow(s, row);
    ThreeAssigns(AssignAll([], Entries(row)), "hidden", s.hidden, "visible", s.visible, "ignore_getters", s.ignoreGetters);
  }

  /** Edits apply in registration order: the last edit, at a dot-free name,
      is what the row holds there. */
  lemma LastEditWins(data: Value, edits: seq<Value>, name: string)
    requires data.Obj? && edits != [] && '.' !in name
    requires Prop(edits[|edits| - 1], "name") == Str(name)
    ensures Prop(Edited(data, edits), name) == Prop(edits[|edits| - 1], "content")
  {
    var before := Edited(data, edits[..|edits| - 1]);
    EditedKeepsObject(data, edits[..|edits| - 1]);
    PlainSet(before, name, Prop(edits[|edits| - 1], "content"));
    PutPropGet(before, name, Prop(edits[|edits| - 1], "content"));
  }

  /** An empty `only` list leaves the row as it is. */
  lemma EmptyOnlyKeeps(variant: Variant, data: Value)
    ensures SelectOnly(variant, Arr([]), data) == data
  {
  }

  lemma ExceptionsArePlain()
    ensures forall k :: 0 <= k < |Exceptions| ==> '.' !in Exceptions[k]
  {
  }

  /** Keys set along the way stay set. */
  lemma {:induction false} ExceptedLiveKey(data: Value, acc: Value, names: seq<string>, k: nat)
    requires acc.Obj? && k < |names|
    ensures var r := Excepted(Live, data, acc, names);
            r.Obj? && HasKey(r.fields, names[k])
    decreases |names|
  {
    var n := |names| - 1;
    var a := Excepted(Live, data, acc, names[..n]);
    assert a.Obj? by {
      ExceptedKeepsObject(Live, data, acc, names[..n]);
    }
    assert names[k] != names[n] ==> HasKey(a.fields, names[k]) by {
      if names[k] != names[n] {
        assert names[..n][k] == names[k];
        ExceptedLiveKey(data, acc, names[..n], k);
      }
    }
    LiveStepKeeps(data, a, names[n], names[k]);
    ExceptedLast(Live, data, acc, names);
  }

  lemma ExceptedLast(variant: Variant, data: Value, acc: Value, names: seq<string>)
    requires names != []
    ensures Excepted(variant, data, acc, names)
            == ExceptStep(variant, data, Excepted(variant, data, acc, names[..|names| - 1]), names[|names| - 1])
  {
  }

  /** One live step sets its key and keeps the keys already set. */
  lemma LiveStepKeeps(data: Value, a: Value, name: string, key: string)
    requires a.Obj? && (key == name || HasKey(a.fields, key))
    ensures var r := ExceptStep(Live, data, a, name);
            r.Obj? && HasKey(r.fields, key)
  {
    var x := GetIn(data, [name]);
    var fs := Assign(a.fields, name, x);
    assert ExceptStep(Live, data, a, name) == PutProp(a, name, x) == Obj(fs);
    AssignLookup(a.fields, name, x, key);
    assert Lookup(fs, key).Some?;
  }

  /** With a non-empty `only`, the live processor always sets all four
      `DT_Row*` keys, even to `undefined`. */
  lemma LiveOnlyKeepsExceptions(only: Value, data: Value)
    requires Truthy(Prop(only, "length"))
    ensures var r := SelectOnly(Live, only, data);
            r.Obj? && forall k :: 0 <= k < |Exceptions| ==> HasKey(r.fields, Exceptions[k])
  {
    var picked := Picked(data, ObjectValues(only));
    PickedIsObject(data, ObjectValues(only));
    var r := Excepted(Live, data, picked, Exceptions);
    assert SelectOnly(Live, only, data) == r;
    ExceptedKeepsObject(Live, data, picked, Exceptions);
    forall k | 0 <= k < |Exceptions|
      ensures HasKey(r.fields, Exceptions[k])
    {
      ExceptedLiveKey(data, picked, Exceptions, k);
    }
  }


  /** `lodash.set` on an object adds at most the path's first key. */
  lemma SetAtKeys(v: Value, p: Value, x: Value, k: string)
    requires v.Obj?
    ensures HasKey(SetAt(v, p, x).fields, k) ==> HasKey(v.fields, k) || k == LodashPath(p)[0]
  {
    var path := LodashPath(p);
    var r := SetIn(v, path, x);
    var child := if |path| == 1 then x else
      var c := Prop(v, path[0]);
      var base := if IsContainer(c) then c else if ArrayIndex(path[1]).Some? then Arr([]) else Obj([]);
      SetIn(base, path[1..], x);
    assert r == Obj(Assign(v.fields, path[0], child));
    AssignLookup(v.fields, path[0], child, k);
  }

  lemma {:induction false} PickedKeys(data: Value, paths: seq<Value>, k: string)
    ensures var r := Picked(data, paths);
            r.Obj? && (HasKey(r.fields, k) ==> exists j :: 0 <= j < |paths| && LodashPath(paths[j])[0] == k)
    decreases |paths|
  {
    if paths != [] {
      var n := |paths| - 1;
      PickedIsObject(data, paths[..n]);
      SetAtKeys(Picked(data, paths[..n]), paths[n], GetAt(data, paths[n]), k);
      PickedKeys(data, paths[..n], k);
      if HasKey(Picked(data, paths[..n]).fields, k) {
        var j :| 0 <= j < n && LodashPath(paths[..n][j])[0] == k;
        assert paths[..n][j] == paths[j];
      }
    }
  }

  lemma {:induction false} ExceptedOlderKeys(data: Value, acc: Value, names: seq<string>, k: string)
    requires acc.Obj?
    ensures var r := Excepted(Older, data, acc, names);
            r.Obj? && (HasKey(r.fields, k) ==> HasKey(acc.fields, k) || (k in names && Truthy(GetIn(data, [k]))))
    decreases |names|
  {
    if names != [] {
      var n := |names| - 1;
      ExceptedKeepsObject(Older, data, acc, names[..n]);
      ExceptedOlderKeys(data, acc, names[..n], k);
      var a := Excepted(Older, data, acc, names[..n]);
      var x := GetIn(data, [names[n]]);
      if Truthy(x) {
        AssignLookup(a.fields, names[n], x, k);
      }
      if HasKey(a.fields, k) && !HasKey(acc.fields, k) {
        assert k in names[..n];
      }
    }
  }

  /** With a non-empty `only`, the older processor's row holds only the first
      keys of the `only` paths and the `DT_Row*` keys whose value is truthy. */
  lemma OlderOnlyKeys(only: Value, data: Value, k: string)
    requires Truthy(Prop(only, "length"))
    ensures var r := SelectOnly(Older, only, data);
            r.Obj? && (HasKey(r.fields, k) ==>
              (exists j :: 0 <= j < |ObjectValues(only)| && LodashPath(ObjectValues(only)[j])[0] == k)
              || (k in Exceptions && Truthy(GetIn(data, [k]))))
  {
    PickedIsObject(data, ObjectValues(only));
    ExceptedOlderKeys(data, Picked(data, ObjectValues(only)), Exceptions, k);
    PickedKeys(data, ObjectValues(only), k);
  }

  /** `lodash.unset` on an object never adds a key. */
  lemma UnsetAtShrinks(v: Value, p: Value, k: string)
    requires v.Obj? && !HasKey(v.fields, k)
    ensures !HasKey(UnsetAt(v, p).fields, k)
  {
    var path := LodashPath(p);
    if |path| == 1 {
      RemoveLookup(v.fields, path[0], k);
    } else {
      var child := Prop(v, path[0]);
      if IsContainer(child) {
        AssignLookup(v.fields, path[0], UnsetIn(child, path[1..]), k);
      }
    }
  }

  /** One `lodash.unset` step: unsetting the dot-free name removes it, and any
      other path leaves it absent. */
  lemma UnsetStepGone(before: Value, p: Value, name: string)
    requires before.Obj? && '.' !in name && (p == Str(name) || !HasKey(before.fields, name))
    ensures UnsetAt(before, p).Obj? && !HasKey(UnsetAt(before, p).fields, name)
  {
    if p == Str(name) {
      PlainUnset(before, name);
      RemoveLookup(before.fields, name, name);
    } else {
      UnsetAtShrinks(before, p, name);
    }
  }

  lemma {:induction false} UnsetsRemoves(data: Value, paths: seq<Value>, name: string)
    requires data.Obj? && '.' !in name && Str(name) in paths
    ensures var r := Unsets(data, paths); r.Obj? && !HasKey(r.fields, name)
    decreases |paths|
  {
    var n := |paths| - 1;
    var init := paths[..n];
    var before := Unsets(data, init);
    assert Unsets(data, paths) == UnsetAt(before, paths[n]);
    UnsetsKeepsObject(data, init);
    if paths[n] != Str(name) {
      Seqs.InInitOrLast(paths, Str(name));
      UnsetsRemoves(data, init, name);
    }
    UnsetStepGone(before, paths[n], name);
  }

  /** Every configured excess column (a dot-free name) is gone from the row. */
  lemma ExcessGone(s: Setup, data: Value, name: string)
    requires data.Obj? && '.' !in name && Str(name) in ObjectValues(s.excess)
    ensures var r := RemoveExcess(s, data); r.Obj? && !HasKey(r.fields, name)
  {
    UnsetsRemoves(data, ObjectValues(s.excess), name);
  }

  /** The live `removeExcessColumns` as written drops a column whose name is
      another column's value: `{ id: 1, name: 'id' }` loses `id`. */
  lemma OwnValueRemovesColumn()
    ensures RemoveOwnValues(Obj([Field("id", Num(1)), Field("name", Str("id"))])) == Obj([Field("name", Str("id"))])
  {
    var row := Obj([Field("id", Num(1)), Field("name", Str("id"))]);
    assert ObjectValues(row) == [Num(1), Str("id")];
    var first := UnsetAt(row, Num(1));
    assert LodashPath(Num(1)) == ["1"];
    assert first == row;
    PlainUnset(row, "id");
    assert [Num(1), Str("id")][..1] == [Num(1)];
    assert Unsets(row, [Num(1)]) == first;
  }

  /** Without excess columns (nothing registers any) the intended
      `removeExcessColumns` leaves the row alone. */
  lemma NoExcessKeeps(columnDef: Value, data: Value)
    requires IsNullish(Prop(columnDef, "excess"))
    ensures RemoveExcess(SetupOf(Live, columnDef), data) == data
  {
  }

  /** The live `flatten` as written keeps nothing of a row whose keys are all
      names: an array drops named keys, so the row serialises as `[]`. */
  lemma {:induction false} FlattenDropsNamedKeys(entries: seq<Field>)
    requires forall j :: 0 <= j < |entries| ==> ArrayIndex(entries[j].key).None?
    ensures FlattenAsWritten(entries) == Arr([])
    decreases |entries|
  {
    if entries != [] {
      FlattenDropsNamedKeys(entries[..|entries| - 1]);
      assert ArrayIndex(entries[|entries| - 1].key).None?;
    }
  }

  lemma FlattenLosesRow()
    ensures FlattenAsWritten(Entries(Obj([Field("name", Str("Ann"))]))) == Arr([])
  {
    FlattenDropsNamedKeys([Field("name", Str("Ann"))]);
  }

  /** The intended `flatten` keeps every value of the row and adds nothing. */
  lemma {:induction false} FlattenKeepsValues(values: seq<Value>)
    ensures forall j :: 0 <= j < |values| ==> values[j] in FlattenValues(values)
    ensures forall x :: x in FlattenValues(values) ==> x in values
    decreases |values|
  {
    if values != [] {
      var n := |values| - 1;
      FlattenKeepsValues(values[..n]);
      var a := FlattenValues(values[..n]);
      forall j | 0 <= j < |values|
        ensures values[j] in FlattenValues(values)
      {
        if j < n {
          assert values[..n][j] == values[j];
        } else if exists i :: 0 <= i < |a| && StrictEquals(a[i], values[n]) {
          var i :| 0 <= i < |a| && StrictEquals(a[i], values[n]);
          assert a[i] == values[n];
        }
      }
      forall x | x in FlattenValues(values)
        ensures x in values
      {
        if x in a {
          var j :| 0 <= j < n && values[..n][j] == x;
          assert values[j] == x;
        }
      }
    }
  }

  // ----- escaping ----------------------------------------------------------

  /** A field after `escapeRow`: a truthy string is escaped. */
  function EscapeField(f: Field): Field {
    if Truthy(f.val) && f.val.Str? then Field(f.key, Helper.Escape(f.val)) else f
  }

  function EscapedFields(fields: seq<Field>): (r: seq<Field>)
    ensures |r| == |fields|
    ensures forall i :: 0 <= i < |fields| ==> r[i] == EscapeField(fields[i])
  {
    seq(|fields|, i requires 0 <= i < |fields| => EscapeField(fields[i]))
  }

  /** Writing the key of field `n`, when no earlier field has that key,
      replaces that field in place. */
  lemma {:induction false} AssignAt(fields: seq<Field>, n: nat, v: Value)
    requires n < |fields| && forall i :: 0 <= i < n ==> fields[i].key != fields[n].key
    ensures Assign(fields, fields[n].key, v) == fields[n := Field(fields[n].key, v)]
    decreases |fields|
  {
    var key := fields[n].key;
    var f := Field(key, v);
    if n == 0 {
      assert Assign(fields, key, v) == [f] + fields[1..];
      assert fields[0 := f] == [f] + fields[1..];
    } else {
      var tail := fields[1..];
      assert tail[n - 1] == fields[n];
      forall i | 0 <= i < n - 1 ensures tail[i].key != tail[n - 1].key {
        assert tail[i] == fields[i + 1];
      }
      assert fields[0].key != key;
      assert Assign(fields, key, v) == [fields[0]] + Assign(tail, key, v);
      AssignAt(tail, n - 1, v);
      UpdateAfterHead(fields, n, f);
    }
  }

  /** Updating position `n > 0` leaves the head and updates the tail at `n - 1`. */
  lemma UpdateAfterHead<T>(s: seq<T>, n: nat, x: T)
    requires 0 < n < |s|
    ensures s[n := x] == [s[0]] + s[1..][n - 1 := x]
  {
    assert s == [s[0]] + s[1..];
  }

  /** One more entry through the live `escapeRow`. */
  lemma LiveEscapeStep(raw: Value, row: Value, entries: seq<Field>, r: Value)
    requires entries != [] && EscapedRow(Live, raw, row, entries[..|entries| - 1]) == Ok(r)
    ensures var f := entries[|entries| - 1];
            EscapedRow(Live, raw, row, entries)
            == Ok(if Truthy(f.val) && f.val.Str? then PutProp(r, f.key, Helper.Escape(f.val)) else r)
  {
  }

  /** The fields after escaping a prefix: escaped up to `m`, as they were from `m` on. */
  function HalfEscaped(fields: seq<Field>, m: nat): seq<Field>
    requires m <= |fields|
  {
    EscapedFields(fields[..m]) + fields[m..]
  }

  lemma HalfEscapedNext(fields: seq<Field>, m: nat)
    requires m < |fields|
    ensures HalfEscaped(fields, m + 1) == HalfEscaped(fields, m)[m := EscapeField(fields[m])]
    ensures forall i :: 0 <= i < |fields| ==> HalfEscaped(fields, m)[i].key == fields[i].key
  {
    var e, cur := HalfEscaped(fields, m + 1), HalfEscaped(fields, m);
    forall i | 0 <= i < |fields|
      ensures e[i] == cur[m := EscapeField(fields[m])][i]
    {
      if i < m {
        assert e[i] == EscapeField(fields[i]) == cur[i];
      } else if i > m {
        assert e[i] == fields[i] == cur[i];
      }
    }
  }

  lemma LiveEscapeRowNext(raw: Value, fields: seq<Field>, m: nat)
    requires UniqueKeys(fields) && m < |fields|
    requires EscapedRow(Live, raw, Obj(fields), fields[..m]) == Ok(Obj(HalfEscaped(fields, m)))
    ensures EscapedRow(Live, raw, Obj(fields), fields[..m + 1]) == Ok(Obj(HalfEscaped(fields, m + 1)))
  {
    var cur := HalfEscaped(fields, m);
    HalfEscapedNext(fields, m);
    assert UniqueKeys(cur);
    var f := fields[m];
    assert fields[..m + 1][..m] == fields[..m];
    assert fields[..m + 1][m] == f;
    LiveEscapeStep(raw, Obj(fields), fields[..m + 1], Obj(cur));
    assert cur[m] == f;
    if Truthy(f.val) && f.val.Str? {
      assert forall i :: 0 <= i < m ==> cur[i].key != cur[m].key;
      AssignAt(cur, m, Helper.Escape(f.val));
      assert EscapeField(f) == Field(f.key, Helper.Escape(f.val));
    } else {
      assert cur[m := EscapeField(f)] == cur;
    }
  }

  lemma {:induction false} LiveEscapeRowPrefix(raw: Value, fields: seq<Field>, n: nat)
    requires UniqueKeys(fields) && n <= |fields|
    ensures EscapedRow(Live, raw, Obj(fields), fields[..n]) == Ok(Obj(HalfEscaped(fields, n)))
    decreases n
  {
    if n == 0 {
      assert fields[..0] == [] && fields[0..] == fields;
      assert HalfEscaped(fields, 0) == fields;
    } else {
      LiveEscapeRowPrefix(raw, fields, n - 1);
      LiveEscapeRowNext(raw, fields, n - 1);
    }
  }

  /** With `escape === '*'`, the live processor escapes every truthy string
      value of an object row, raw columns included, and keeps everything else. */
  lemma LiveEscapeRow(raw: Value, fields: seq<Field>)
    requires UniqueKeys(fields)
    ensures EscapedRow(Live, raw, Obj(fields), fields) == Ok(Obj(EscapedFields(fields)))
  {
    LiveEscapeRowPrefix(raw, fields, |fields|);
    assert fields[..|fields|] == fields && fields[|fields|..] == [];
    assert HalfEscaped(fields, |fields|) == EscapedFields(fields);
  }

  /** The escape list without the raw columns is exactly the listed columns
      that the raw array does not hold. */
  lemma {:induction false} NotRawFilters(columns: seq<Value>, raw: seq<Value>)
    ensures NotRaw(columns, Arr(raw)).Ok?
    ensures forall c :: c in NotRaw(columns, Arr(raw)).value <==>
                        c in columns && !(exists i :: 0 <= i < |raw| && StrictEquals(raw[i], c))
    decreases |columns|
  {
    if columns != [] {
      var n := |columns| - 1;
      NotRawFilters(columns[..n], Arr(raw).items);
      assert columns == columns[..n] + [columns[n]];
    }
  }

  /** With an escape list of distinct dot-free columns, exactly the listed
      columns are passed through `escape` (which leaves non-strings alone). */
  lemma {:induction false} EscapedListedColumns(row: Value, columns: seq<Value>, k: string)
    requires row.Obj?
    requires forall i :: 0 <= i < |columns| ==> columns[i].Str? && '.' !in columns[i].s
    requires forall i, j :: 0 <= i < j < |columns| ==> columns[i] != columns[j]
    ensures EscapedListed(row, columns).Obj?
    ensures Prop(EscapedListed(row, columns), k)
            == if Str(k) in columns then Helper.Escape(Prop(row, k)) else Prop(row, k)
    decreases |columns|
  {
    if columns != [] {
      var n := |columns| - 1;
      var init := columns[..n];
      var m := columns[n].s;
      DistinctInit(columns, k);
      EscapedListedColumns(row, init, k);
      var r := EscapedListed(row, init);
      EscapedListedColumns(row, init, m);
      assert EscapedListed(row, columns) == SetAt(r, Str(m), Helper.Escape(GetAt(r, Str(m))));
      EscapeListedStep(r, m, k);
    }
  }

  /** The escape list without its last column is still a list of distinct
      dot-free columns, none of them the last one. */
  lemma DistinctInit(columns: seq<Value>, k: string)
    requires columns != []
    requires forall i :: 0 <= i < |columns| ==> columns[i].Str? && '.' !in columns[i].s
    requires forall i, j :: 0 <= i < j < |columns| ==> columns[i] != columns[j]
    ensures var init := columns[..|columns| - 1];
            (forall i :: 0 <= i < |init| ==> init[i].Str? && '.' !in init[i].s)
            && (forall i, j :: 0 <= i < j < |init| ==> init[i] != init[j])
            && columns[|columns| - 1] !in init
            && (Str(k) in columns <==> Str(k) in init || Str(k) == columns[|columns| - 1])
  {
    var n := |columns| - 1;
    var init := columns[..n];
    forall i | 0 <= i < n ensures init[i] != columns[n] {
      assert init[i] == columns[i];
    }
    assert columns == init + [columns[n]];
  }

  /** Escaping one dot-free column changes that column only. */
  lemma EscapeListedStep(r: Value, m: string, k: string)
    requires r.Obj? && '.' !in m
    ensures var after := SetAt(r, Str(m), Helper.Escape(GetAt(r, Str(m))));
            after.Obj? && Prop(after, k) == if k == m then Helper.Escape(Prop(r, m)) else Prop(r, k)
  {
    var e := Helper.Escape(Prop(r, m));
    PlainGet(r, m);
    PlainSet(r, m, e);
    AssignLookup(r.fields, m, e, k);
  }
}
