/** The two DataTables request readers: `Request` of src/request.ts (used by
    the engines) and `DatatablesRequest` of src/utils/request.ts. Both read the
    request parameters `params` (what `request.all()` returns) and never change
    them, so every query is a function of `params`; the two loops of the
    source are methods proved against specification functions. */
module Request {
  import opened Wrappers
  import opened Strings
  import opened Values
  import opened NestedInput
  import opened Seqs

  /** Which class reads the request. */
  datatype Reader = Legacy | Utils

  /** A lookup without a default: `input(key)` for `Request` (its `input` is
      the same walk as the `inputNested` macro, `undefined` being the omitted
      default), the framework's lodash-path `request.input(key)` for
      `DatatablesRequest`. The key is given by its segments (see `SplitKeys`). */
  function TopAt(r: Reader, params: Value, keys: seq<string>): Value
    requires |keys| >= 1
  {
    match r
    case Legacy => InputAt(params, keys, Undefined)
    case Utils => GetPath(params, keys, Undefined)
  }

  /** A nested lookup: `input(key, d)` for `Request`, `inputNested(key, d)` for
      `DatatablesRequest`; an omitted default is `undefined`, resp. `null`. */
  function NestedAt(r: Reader, params: Value, keys: seq<string>, default: Option<Value>): Value
    requires |keys| >= 1
  {
    var d := match default
             case Some(v) => v
             case None => if r.Legacy? then Undefined else Null;
    InputAt(params, keys, d)
  }

  /** `TopAt` and `NestedAt` for a key given as text. */
  function Top(r: Reader, params: Value, key: string): Value {
    TopAt(r, params, Path(key))
  }

  function Nested(r: Reader, params: Value, key: string, default: Option<Value>): Value {
    NestedAt(r, params, Path(key), default)
  }

  /** The segments of `'columns.' + index + '.' + field`. */
  function ColumnKeys(index: int, field: seq<string>): (keys: seq<string>)
    ensures |keys| >= 2
  {
    ["columns", IntToString(index)] + field
  }

  function Columns(r: Reader, params: Value): Value {
    TopAt(r, params, ["columns"])
  }

  predicate IsSearchable(r: Reader, params: Value) {
    !StrictEquals(TopAt(r, params, ["search", "value"]), Str(""))
  }

  predicate IsRegex(r: Reader, params: Value, index: int) {
    StrictEquals(NestedAt(r, params, ColumnKeys(index, ["search", "regex"]), None), Str("true"))
  }

  /** `isSearchable()`: the search value is anything but the empty string. */
  lemma SearchableMeans(r: Reader, params: Value)
    ensures TopAt(r, params, ["search", "value"]).Str? ==>
              (IsSearchable(r, params) <==> TopAt(r, params, ["search", "value"]).s != "")
    ensures !TopAt(r, params, ["search", "value"]).Str? ==> IsSearchable(r, params)
  {
  }

  /** `isRegex(index)`: only the text `'true'` asks for a regex search; the
      boolean `true` does not. */
  lemma RegexFlag(r: Reader, params: Value, index: int)
    ensures IsRegex(r, params, index) <==> NestedAt(r, params, ColumnKeys(index, ["search", "regex"]), None) == Str("true")
  {
  }

  /** One `{ column, direction }` entry of `orderableColumns()`. */
  datatype OrderDirective = OrderDirective(column: Value, direction: string)

  /** `x > 0` for a parameter value. */
  predicate Positive(v: Value) {
    ToNumber(v).Int? && ToNumber(v).i > 0
  }

  /** The property the loop bound reads: `DatatablesRequest` misspells it. */
  function LengthKey(r: Reader): string {
    if r.Legacy? then "length" else "lenght"
  }

  predicate IsOrderable(r: Reader, params: Value) {
    var order := TopAt(r, params, ["order"]);
    Truthy(order) && Positive(Prop(order, LengthKey(r)))
  }

  /** How many times the loop test `i < order.length` lets the loop run. */
  function OrderCount(r: Reader, params: Value): nat {
    var n := ToNumber(Prop(TopAt(r, params, ["order"]), LengthKey(r)));
    if n.Int? && n.i > 0 then n.i else 0
  }

  /** `direction && direction.toLowerCase() === 'asc' ? 'asc' : 'desc'`;
      a truthy non-string has no `toLowerCase` and throws. */
  function Direction(raw: Value): (r: Result<string>)
    ensures r.Ok? ==> r.value == "asc" || r.value == "desc"
  {
    if !Truthy(raw) then Ok("desc")
    else if raw.Str? then Ok(if ToLower(raw.s) == "asc" then "asc" else "desc")
    else Err(TypeError)
  }

  /** The column and direction the `i`-th `order` entry asks for. */
  function DirectiveAt(r: Reader, params: Value, i: nat): Result<OrderDirective> {
    var column := NestedAt(r, params, ["order", IntToString(i), "column"], None);
    var direction :- Direction(NestedAt(r, params, ["order", IntToString(i), "dir"], None));
    Ok(OrderDirective(column, direction))
  }

  predicate IsColumnOrderable(r: Reader, params: Value, index: Value) {
    StrictEquals(Nested(r, params, "columns." + ToJsString(index) + ".orderable", Some(Str("true"))), Str("true"))
  }

  /** `isOrderable()`: an `order` parameter is given and the loop over it
      runs at least once. */
  lemma OrderableMeansEntries(r: Reader, params: Value)
    ensures IsOrderable(r, params) <==> Truthy(TopAt(r, params, ["order"])) && OrderCount(r, params) > 0
  {
  }

  /** `isColumnOrderable(index)`: the column's `orderable` flag, read with
      the default `'true'`, must be the text `'true'`; the boolean `true` is
      not accepted. */
  lemma ColumnOrderableFlag(r: Reader, params: Value, index: Value)
    ensures var flag := Nested(r, params, "columns." + ToJsString(index) + ".orderable", Some(Str("true")));
            (IsColumnOrderable(r, params, index) <==> flag == Str("true"))
            && (flag == Bool(true) ==> !IsColumnOrderable(r, params, index))
  {
  }

  function DirectiveStep(r: Reader, params: Value): nat -> Result<OrderDirective> {
    (i: nat) => DirectiveAt(r, params, i)
  }

  /** Every `order` entry below `n`, in request order; the first entry that
      throws aborts the whole list. */
  function Directives(r: Reader, params: Value, n: nat): Result<seq<OrderDirective>> {
    Collect(n, DirectiveStep(r, params))
  }

  function ColumnOrderable(r: Reader, params: Value): OrderDirective -> bool {
    (d: OrderDirective) => IsColumnOrderable(r, params, d.column)
  }

  /** What `orderableColumns()` returns: nothing unless ordering was asked
      for, else the orderable directives among all of them. */
  function OrderableColumnsSpec(r: Reader, params: Value): Result<seq<OrderDirective>> {
    if !IsOrderable(r, params) then Ok([])
    else
      var all :- Directives(r, params, OrderCount(r, params));
      Ok(Filter(all, ColumnOrderable(r, params)))
  }

  method OrderableColumns(r: Reader, params: Value) returns (res: Result<seq<OrderDirective>>)
    ensures res == OrderableColumnsSpec(r, params)
  {
    if !IsOrderable(r, params) {
      return Ok([]);
    }
    res := OrderableAmong(r, params, OrderCount(r, params));
    SpecOfDirectives(r, params);
  }

  /** The loop of `orderableColumns()` over the first `n` entries of
      `order`: it keeps the directives whose column is orderable and stops
      at the first entry that throws. */
  method OrderableAmong(r: Reader, params: Value, n: nat) returns (res: Result<seq<OrderDirective>>)
    ensures Directives(r, params, n).Err? ==> res == Err(Directives(r, params, n).message)
    ensures Directives(r, params, n).Ok? ==> res == Ok(Filter(Directives(r, params, n).value, ColumnOrderable(r, params)))
  {
    var orderable: seq<OrderDirective> := [];
    var i := 0;
    ghost var seen: seq<OrderDirective> := [];
    while i < n
      invariant 0 <= i <= n
      invariant Directives(r, params, i) == Ok(seen)
      invariant orderable == Filter(seen, ColumnOrderable(r, params))
    {
      var directive := DirectiveAt(r, params, i);
      if directive.Err? {
        DirectivesStop(r, params, i, n);
        return Err(directive.message);
      }
      DirectivesStep(r, params, i, seen);
      if IsColumnOrderable(r, params, directive.value.column) {
        orderable := orderable + [directive.value];
      }
      seen := seen + [directive.value];
      i := i + 1;
    }
    return Ok(orderable);
  }

  /** When ordering was asked for, the spec is the list of directives,
      filtered, or its first error. */
  lemma SpecOfDirectives(r: Reader, params: Value)
    requires IsOrderable(r, params)
    ensures var all := Directives(r, params, OrderCount(r, params));
            && (all.Err? ==> OrderableColumnsSpec(r, params) == Err(all.message))
            && (all.Ok? ==> OrderableColumnsSpec(r, params) == Ok(Filter(all.value, ColumnOrderable(r, params))))
  {
  }

  lemma DirectivesStop(r: Reader, params: Value, i: nat, n: nat)
    requires i < n && Directives(r, params, i).Ok? && DirectiveAt(r, params, i).Err?
    ensures Directives(r, params, n) == Err(DirectiveAt(r, params, i).message)
  {
    CollectNext(i, DirectiveStep(r, params));
    CollectErrStays(i + 1, n, DirectiveStep(r, params));
  }

  lemma DirectivesStep(r: Reader, params: Value, i: nat, seen: seq<OrderDirective>)
    requires Directives(r, params, i) == Ok(seen) && DirectiveAt(r, params, i).Ok?
    ensures var d := DirectiveAt(r, params, i).value;
            && Directives(r, params, i + 1) == Ok(seen + [d])
            && Filter(seen + [d], ColumnOrderable(r, params))
               == Filter(seen, ColumnOrderable(r, params)) + (if IsColumnOrderable(r, params, d.column) then [d] else [])
  {
    CollectNext(i, DirectiveStep(r, params));
    FilterSnoc(seen, DirectiveAt(r, params, i).value, ColumnOrderable(r, params));
  }

  /** `orderableColumns()`: every returned directive comes from some `order`
      entry and names an orderable column; every orderable entry of a
      successful list is returned. */
  lemma OrderableColumnsExact(r: Reader, params: Value, d: OrderDirective)
    requires OrderableColumnsSpec(r, params).Ok? && IsOrderable(r, params)
    ensures d in OrderableColumnsSpec(r, params).value
            <==> IsColumnOrderable(r, params, d.column)
                 && exists k :: 0 <= k < OrderCount(r, params) && DirectiveAt(r, params, k) == Ok(d)
  {
    var f := DirectiveStep(r, params);
    var all := Directives(r, params, OrderCount(r, params)).value;
    FilterMembers(all, ColumnOrderable(r, params), d);
    if d in all {
      var k :| 0 <= k < |all| && all[k] == d;
      CollectAt(OrderCount(r, params), f, k);
    }
    if k :| 0 <= k < OrderCount(r, params) && DirectiveAt(r, params, k) == Ok(d) {
      CollectAt(OrderCount(r, params), f, k);
      assert all[k] == d;
    }
  }

  /** Every entry's direction is `asc` or `desc`. */
  lemma OrderDirections(r: Reader, params: Value, d: OrderDirective)
    requires OrderableColumnsSpec(r, params).Ok? && d in OrderableColumnsSpec(r, params).value
    ensures d.direction == "asc" || d.direction == "desc"
  {
    if IsOrderable(r, params) {
      OrderableColumnsExact(r, params, d);
    }
  }

  /** Without an `order` entry in the request nothing is ordered. */
  lemma NoOrderWithoutParameter(params: Value)
    requires params.Obj? && !Truthy(Prop(params, "order"))
    ensures OrderableColumnsSpec(Legacy, params) == Ok([])
  {
    GetOne(params, "order");
  }

  /** `DatatablesRequest` reads `order.lenght`, which no array has: it never
      orders (only an `order` object with a `lenght` key could run the loop). */
  lemma UtilsNeverOrders(params: Value)
    requires params.Obj? && !(Prop(params, "order").Obj? && HasKey(Prop(params, "order").fields, "lenght"))
    ensures OrderableColumnsSpec(Utils, params) == Ok([])
  {
    var order := Prop(params, "order");
    GetOne(params, "order");
    if order.Obj? {
      assert Lookup(order.fields, "lenght").None?;
    } else if order.Arr? {
      assert ArrayIndex("lenght").None? by { assert !IsDigit('l'); }
    }
    assert Prop(order, "lenght") == Undefined;
  }

  /** `asc` exactly for a string that lower-cases to `asc`, `desc` for any
      other string and for a missing direction. */
  lemma DirectionCases(raw: Value)
    ensures Direction(raw) == Ok("asc") <==> raw.Str? && ToLower(raw.s) == "asc"
    ensures Direction(raw).Err? <==> Truthy(raw) && !raw.Str?
  {
  }

  /** Without a `columns` parameter every column is orderable (the `'true'`
      default applies to the first segment only). */
  lemma OrderableWithoutColumns(r: Reader, params: Value, index: Value)
    requires params.Obj? && !Truthy(Prop(params, "columns"))
    ensures IsColumnOrderable(r, params, index)
  {
    var rest := ToJsString(index) + ".orderable";
    FalsyParameter(params, "columns", rest, Str("true"));
    assert "columns." + ToJsString(index) + ".orderable" == "columns" + "." + rest;
  }

  /** With a `columns` array, column `i` is orderable exactly when its
      `orderable` entry is the string `'true'`; a missing entry is not. */
  lemma OrderableColumnEntry(r: Reader, params: Value, i: nat)
    requires params.Obj? && Prop(params, "columns").Arr?
    requires i < |Prop(params, "columns").items|
    ensures IsColumnOrderable(r, params, Num(i)) <==> Prop(Prop(params, "columns").items[i], "orderable") == Str("true")
  {
    var column := Prop(params, "columns").items[i];
    var keys := ColumnKeys(i, ["orderable"]);
    var v := InputAt(params, keys, Str("true"));
    assert v == if Truthy(column) then Prop(column, "orderable") else column by {
      ColumnPath(params, i, ["orderable"], Str("true"));
    }
    assert IsColumnOrderable(r, params, Num(i)) == StrictEquals(v, Str("true")) by {
      OrderableKeyText(i);
      SplitKeys(r, params, keys, Some(Str("true")));
    }
  }

  /** The key `isColumnOrderable` reads, as the keys of a column field. */
  lemma OrderableKeyText(i: nat)
    ensures "columns." + ToJsString(Num(i)) + ".orderable" == Join(ColumnKeys(i, ["orderable"]), ".")
    ensures forall k :: 0 <= k < |ColumnKeys(i, ["orderable"])| ==> '.' !in ColumnKeys(i, ["orderable"])[k]
  {
    ColumnKeyText(i, ["orderable"]);
    assert ToJsString(Num(i)) == IntToString(i);
    assert Join(["orderable"], ".") == "orderable";
  }

  /** A `columns.<i>.<field>` lookup through a `columns` array: the walk
      reads the `i`-th column, then the field in it. */
  lemma ColumnPath(params: Value, i: nat, field: seq<string>, default: Value)
    requires params.Obj? && Prop(params, "columns").Arr? && |field| == 1
    requires i < |Prop(params, "columns").items|
    ensures var column := Prop(params, "columns").items[i];
            InputAt(params, ColumnKeys(i, field), default)
            == if Truthy(column) then Prop(column, field[0]) else column
  {
    var columns := Prop(params, "columns");
    var column := columns.items[i];
    var key := IntToString(i);
    IndexKey(i);
    var segments := ColumnKeys(i, field);
    assert GetIn(params, ["columns"]) == GetIn(columns, []);
    assert segments[1..] == [key] + field;
    assert Prop(columns, key) == column;
    assert Walk(columns, [key] + field) == Walk(column, field) by {
      assert ([key] + field)[1..] == field;
    }
    assert Walk(column, field) == Walk(Step(column, field[0]), []) by {
      assert field[1..] == [];
    }
  }

  /** A key written out from dot-free segments is read as those segments,
      by both readers. */
  lemma SplitKeys(r: Reader, params: Value, keys: seq<string>, default: Option<Value>)
    requires |keys| >= 1
    requires forall k :: 0 <= k < |keys| ==> '.' !in keys[k]
    ensures Top(r, params, Join(keys, ".")) == TopAt(r, params, keys)
    ensures Nested(r, params, Join(keys, "."), default) == NestedAt(r, params, keys, default)
  {
    PathSegments(keys);
  }

  /** The segments of a column key join to the text the source builds. */
  lemma ColumnKeyText(index: int, field: seq<string>)
    requires |field| >= 1 && forall k :: 0 <= k < |field| ==> '.' !in field[k]
    ensures Join(ColumnKeys(index, field), ".") == "columns." + IntToString(index) + "." + Join(field, ".")
    ensures forall k :: 0 <= k < |ColumnKeys(index, field)| ==> '.' !in ColumnKeys(index, field)[k]
  {
    var keys := ColumnKeys(index, field);
    IndexSegment(index);
    assert keys[1..] == [IntToString(index)] + field;
    assert keys[1..][1..] == field;
    assert Join(keys[1..], ".") == IntToString(index) + "." + Join(field, ".");
  }

  /** `searchableColumnIndex()` reads `columns.length`. */
  function ColumnCount(r: Reader, params: Value): nat {
    var n := ToNumber(Prop(Columns(r, params), "length"));
    if n.Int? && n.i > 0 then n.i else 0
  }

  predicate IsColumnSearchable(r: Reader, params: Value, index: int, columnSearch: bool) {
    var flag := NestedAt(r, params, ColumnKeys(index, ["searchable"]), Some(Str("true")));
    var searchable := StrictEquals(flag, Str("true")) || StrictEquals(flag, Bool(true));
    if columnSearch then searchable && !StrictEquals(ColumnKeyword(r, params, index), Str("")) else searchable
  }

  /** `isColumnSearchable(index, columnSearch)`: the column's `searchable`
      flag, read with the default `'true'`, is the text `'true'` or the
      boolean `true`; a column search also needs a non-empty keyword. */
  lemma ColumnSearchableFlag(r: Reader, params: Value, index: int, columnSearch: bool)
    ensures var flag := NestedAt(r, params, ColumnKeys(index, ["searchable"]), Some(Str("true")));
            IsColumnSearchable(r, params, index, columnSearch)
            <==> (flag == Str("true") || flag == Bool(true)) && (columnSearch ==> ColumnKeyword(r, params, index) != Str(""))
  {
  }

  function ColumnSearchable(r: Reader, params: Value): nat -> bool {
    (i: nat) => IsColumnSearchable(r, params, i, false)
  }

  /** `searchableColumnIndex()`; reading `length` of a missing `columns` throws. */
  method SearchableColumnIndex(r: Reader, params: Value) returns (res: Result<seq<nat>>)
    ensures IsNullish(Columns(r, params)) ==> res == Err(TypeError)
    ensures !IsNullish(Columns(r, params)) ==> res == Ok(IndicesBelow(ColumnCount(r, params), ColumnSearchable(r, params)))
  {
    var columns := Columns(r, params);
    if IsNullish(columns) {
      return Err(TypeError);
    }
    var n := ColumnCount(r, params);
    var searchable: seq<nat> := [];
    var index := 0;
    while index < n
      invariant 0 <= index <= n
      invariant searchable == IndicesBelow(index, ColumnSearchable(r, params))
    {
      if IsColumnSearchable(r, params, index, false) {
        searchable := searchable + [index];
      }
      index := index + 1;
    }
    return Ok(searchable);
  }

  /** The list `searchableColumnIndex()` builds, as a function for the engines. */
  function SearchableIndices(r: Reader, params: Value): Result<seq<nat>> {
    if IsNullish(Columns(r, params)) then Err(TypeError)
    else Ok(IndicesBelow(ColumnCount(r, params), ColumnSearchable(r, params)))
  }

  /** `searchableColumnIndex()` lists exactly the searchable columns below
      `columns.length`, each once and ascending. */
  lemma SearchableColumnsExact(r: Reader, params: Value, k: nat)
    requires SearchableIndices(r, params).Ok?
    ensures k in SearchableIndices(r, params).value
            <==> k < ColumnCount(r, params) && IsColumnSearchable(r, params, k, false)
    ensures forall a, b :: 0 <= a < b < |SearchableIndices(r, params).value| ==>
              SearchableIndices(r, params).value[a] < SearchableIndices(r, params).value[b]
  {
    IndicesBelowExact(ColumnCount(r, params), ColumnSearchable(r, params));
  }

  /** An array keyword is joined with spaces; anything else is kept as is. */
  function PrepareKeyword(keyword: Value): (res: Value)
    ensures keyword.Arr? ==> res == Str(ArrayJoin(keyword.items, " "))
    ensures !keyword.Arr? ==> res == keyword
  {
    if keyword.Arr? then Str(ArrayJoin(keyword.items, " ")) else keyword
  }

  /** `columnKeyword(index)`: the column's search value, `''` when missing. */
  function ColumnKeyword(r: Reader, params: Value, index: int): (res: Value)
    ensures var raw := NestedAt(r, params, ColumnKeys(index, ["search", "value"]), None);
            && (IsNullish(raw) ==> res == Str(""))
            && (raw.Arr? ==> res == Str(ArrayJoin(raw.items, " ")))
            && (!IsNullish(raw) && !raw.Arr? ==> res == raw)
  {
    PrepareKeyword(Coalesce(NestedAt(r, params, ColumnKeys(index, ["search", "value"]), None), Str("")))
  }

  /** `keyword()`: the global search value, `''` when missing. */
  function Keyword(r: Reader, params: Value): (res: Value)
    ensures var raw := NestedAt(r, params, ["search", "value"], None);
            && (IsNullish(raw) ==> res == Str(""))
            && (raw.Arr? ==> res == Str(ArrayJoin(raw.items, " ")))
            && (!IsNullish(raw) && !raw.Arr? ==> res == raw)
  {
    PrepareKeyword(Coalesce(NestedAt(r, params, ["search", "value"], None), Str("")))
  }

  /** Without a `search` parameter a request still counts as searchable,
      while its keyword is the empty string. */
  lemma SearchableWithoutSearch(r: Reader, params: Value)
    requires params.Obj? && !Truthy(Prop(params, "search"))
    ensures IsSearchable(r, params) && Keyword(r, params) == Str("")
  {
    GetOne(params, "search");
  }

  /** A missing global search gives the empty keyword. */
  lemma KeywordWithoutSearch(r: Reader, params: Value)
    requires params.Obj? && !Truthy(Prop(params, "search"))
    ensures Keyword(r, params) == Str("")
  {
    GetOne(params, "search");
  }

  /** The keyword is never trimmed: a string value comes back unchanged. */
  lemma KeywordUntrimmed(params: Value, s: string)
    requires params.Obj? && Prop(params, "search").Obj? && Prop(Prop(params, "search"), "value") == Str(s)
    ensures Keyword(Legacy, params) == Str(s)
  {
    GetOne(params, "search");
    assert ["search", "value"][1..] == ["value"];
    assert Walk(Prop(params, "search"), ["value"]) == Walk(Str(s), []) by {
      assert ["value"][1..] == [];
    }
  }

  /** The two readers agree on every per-column question and on the keyword:
      their different omitted defaults (`undefined`, `null`) are both mapped
      to `''` or compare unequal to `'true'`. */
  lemma ReadersAgree(params: Value, index: int)
    ensures ColumnKeyword(Legacy, params, index) == ColumnKeyword(Utils, params, index)
    ensures Keyword(Legacy, params) == Keyword(Utils, params)
    ensures IsRegex(Legacy, params, index) == IsRegex(Utils, params, index)
    ensures IsColumnSearchable(Legacy, params, index, true) == IsColumnSearchable(Utils, params, index, true)
    ensures IsColumnOrderable(Legacy, params, Num(index)) == IsColumnOrderable(Utils, params, Num(index))
  {
  }

  /** `columnName(index)`: the column's non-empty `name`, else its `data`. */
  function ColumnName(r: Reader, params: Value, index: int): (res: Value)
    ensures var column := TopAt(r, params, ["columns", IntToString(index)]);
            if Truthy(column) && Truthy(Prop(column, "name")) then res == Prop(column, "name")
            else if IsNullish(column) then res == Undefined
            else res == Prop(column, "data")
  {
    var column := TopAt(r, params, ["columns", IntToString(index)]);
    if Truthy(column) && Truthy(Prop(column, "name")) && !StrictEquals(Prop(column, "name"), Str("")) then
      Prop(column, "name")
    else if IsNullish(column) then Undefined
    else Prop(column, "data")
  }

  predicate IsPaginationable(r: Reader, params: Value) {
    !StrictEquals(TopAt(r, params, ["start"]), Null)
    && !StrictEquals(TopAt(r, params, ["length"]), Null)
    && !StrictEquals(TopAt(r, params, ["length"]), Num(-1))
  }

  /** `isPaginationable()`: paging is off exactly when `start` or `length`
      is `null` or `length` is the number -1. */
  lemma PaginationOff(r: Reader, params: Value)
    ensures !IsPaginationable(r, params)
            <==> TopAt(r, params, ["start"]) == Null || TopAt(r, params, ["length"]) == Null
                 || TopAt(r, params, ["length"]) == Num(-1)
  {
  }

  /** For `Request` the `null` checks never fire: a falsy top-level parameter
      comes back as `undefined`, so only a numeric `length` of -1 turns paging
      off (a missing `start` or `length` leaves it on, and the string `'-1'` too). */
  lemma PaginationOnlyMinusOne(params: Value)
    requires params.Obj?
    ensures IsPaginationable(Legacy, params) <==> Prop(params, "length") != Num(-1)
  {
    GetOne(params, "start");
    GetOne(params, "length");
  }

  /** For `DatatablesRequest` an explicit `null` does turn paging off. */
  lemma UtilsPagination(params: Value)
    requires params.Obj?
    ensures IsPaginationable(Utils, params)
            <==> Prop(params, "start") != Null && Prop(params, "length") != Null && Prop(params, "length") != Num(-1)
  {
    GetOne(params, "start");
    GetOne(params, "length");
  }

  /** `start()`: for `Request` the raw parameter when `Number()` of it is
      non-zero, else 0; for `DatatablesRequest` the parameter when it is a
      number, else 0. */
  function Start(r: Reader, params: Value): (res: Value)
    ensures res == Num(0) || NumberTruthy(ToNumber(res))
    ensures r.Legacy? ==> var v := InputAt(params, ["start"], Num(0));
            (NumberTruthy(ToNumber(v)) ==> res == v) && (!NumberTruthy(ToNumber(v)) ==> res == Num(0))
    ensures r.Utils? ==> var v := GetPath(params, ["start"], Num(0));
            (v.Num? ==> res == v) && (!v.Num? ==> res == Num(0))
  {
    NumericParameter(r, params, "start", 0)
  }

  /** `length()`: as `start()` with the fallback 10. */
  function Length(r: Reader, params: Value): (res: Value)
    ensures res == Num(10) || NumberTruthy(ToNumber(res)) || res == Num(0)
    ensures r.Legacy? ==> res == Num(10) || NumberTruthy(ToNumber(res))
    ensures r.Legacy? ==> var v := InputAt(params, ["length"], Num(0));
            (NumberTruthy(ToNumber(v)) ==> res == v) && (!NumberTruthy(ToNumber(v)) ==> res == Num(10))
    ensures r.Utils? ==> var v := GetPath(params, ["length"], Num(10));
            (v.Num? ==> res == v) && (!v.Num? ==> res == Num(10))
  {
    NumericParameter(r, params, "length", 10)
  }

  /** `draw()`: as `start()`. */
  function Draw(r: Reader, params: Value): (res: Value)
    ensures res == Num(0) || NumberTruthy(ToNumber(res))
    ensures r.Legacy? ==> var v := InputAt(params, ["draw"], Num(0));
            (NumberTruthy(ToNumber(v)) ==> res == v) && (!NumberTruthy(ToNumber(v)) ==> res == Num(0))
    ensures r.Utils? ==> var v := GetPath(params, ["draw"], Num(0));
            (v.Num? ==> res == v) && (!v.Num? ==> res == Num(0))
  {
    NumericParameter(r, params, "draw", 0)
  }

  /** The shared shape of `start()`, `length()` and `draw()`. `Request` reads
      with default 0 and keeps the value when `Number()` of it is truthy;
      `DatatablesRequest` reads with the fallback as default and keeps numbers. */
  function NumericParameter(r: Reader, params: Value, key: string, fallback: int): (res: Value)
    ensures res == Num(fallback) || NumberTruthy(ToNumber(res)) || (r.Utils? && res.Num?)
    ensures r.Legacy? ==> var v := InputAt(params, [key], Num(0));
            (NumberTruthy(ToNumber(v)) ==> res == v) && (!NumberTruthy(ToNumber(v)) ==> res == Num(fallback))
    ensures r.Utils? ==> var v := GetPath(params, [key], Num(fallback));
            (v.Num? ==> res == v) && (!v.Num? ==> res == Num(fallback))
  {
    match r
    case Legacy =>
      var v := InputAt(params, [key], Num(0));
      if NumberTruthy(ToNumber(v)) then v else Num(fallback)
    case Utils =>
      var v := GetPath(params, [key], Num(fallback));
      if v.Num? then v else Num(fallback)
  }

  /** A missing or zero `length` gives the page size 10, and so does any
      text that is not a number; a decimal string is kept as the string. */
  lemma LengthDefaults(params: Value, n: int)
    requires params.Obj?
    ensures !Truthy(Prop(params, "length")) ==> Length(Legacy, params) == Num(10)
    ensures Prop(params, "length") == Str(IntToString(n)) && n != 0 ==> Length(Legacy, params) == Str(IntToString(n))
    ensures Prop(params, "length") == Num(-1) ==> Length(Legacy, params) == Num(-1)
  {
    GetOne(params, "length");
    NumberOfText(n);
  }

  /** The number a numeric parameter stands for (`Number(v)` of a kept value). */
  function AsInt(v: Value): int {
    match ToNumber(v)
    case Int(i) => i
    case NaN => 0
  }
}
