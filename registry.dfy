/** The engine-independent part of `DataTableAbstract` (src/datatable_abstract.ts):
    the column registry `$columnDef`, the row templates, the appended
    response keys and the record counters, with the decisions every engine
    shares — blacklisting, search terms, keyword set-up, column names,
    paging gate and the response envelope. The request is read with
    `Request` of src/request.ts (`Reader.Legacy`). */
module Registry {
  import opened Wrappers
  import opened Strings
  import opened Values
  import opened Functions
  import Helper
  import Config
  import Request
  import StrUtil
  import Seqs

  // ----- the column definition --------------------------------------------

  /** The configuration keys that `getColumnsDefinition` lets through. */
  const Allowed: seq<string> := ["excess", "escape", "raw", "blacklist", "whitelist"]

  /** `$columnDef` as a table starts with it. The named entries engines attach
      to its `filter` and `order` arrays are kept apart, in
      `DataTable.filters` and `DataTable.orders`. */
  const InitialColumnDef: Value := Obj([
    Field("index", Bool(false)), Field("append", Arr([])), Field("edit", Arr([])),
    Field("filter", Arr([])), Field("order", Arr([])), Field("only", Arr([])),
    Field("hidden", Arr([])), Field("visible", Arr([]))])

  /** `$templates` as a table starts with it. */
  const InitialTemplates: Value := Obj([
    Field("DT_RowId", Str("")), Field("DT_RowClass", Str("")),
    Field("DT_RowData", Arr([])), Field("DT_RowAttr", Arr([]))])

  /** `arrayIntersectKey(v, keys)`: `Object.keys` of `null` or `undefined` throws. */
  function IntersectKey(v: Value, keys: seq<string>): (r: Result<Value>)
    ensures r.Err? <==> IsNullish(v)
    ensures r.Ok? ==> r.value.Obj? && forall k :: HasKey(r.value.fields, k) ==> k in keys
  {
    if IsNullish(v) then Err(TypeError) else Ok(Obj(Helper.Only(Entries(v), keys)))
  }

  /** `getColumnsDefinition()`: the allowed keys of the configured `columns`,
      replaced recursively by the table's own definition. */
  function ColumnsDefinition(config: Value, columnDef: Value): (r: Result<Value>)
    ensures IsNullish(Config.ConfigGet(config, ["columns"], None)) ==> r.Err?
  {
    var base :- IntersectKey(Config.ConfigGet(config, ["columns"], None), Allowed);
    ArrayReplaceRecursive(base, columnDef)
  }

  /** On success `getColumnsDefinition()` is the configured `columns`, cut
      down to the allowed keys, then replaced key by key by the table's own
      definition: a key the definition lacks keeps its configured value (for
      an allowed key; any other key is absent), a definition value
      overwrites, and an object value meeting a configured key replaces
      that value recursively. */
  lemma ColumnsDefinitionMerges(config: Value, columnDef: Value, k: string)
    requires columnDef.Obj? && UniqueKeys(columnDef.fields)
    requires UniqueKeys(Entries(Config.ConfigGet(config, ["columns"], None)))
    requires ColumnsDefinition(config, columnDef).Ok?
    ensures var columns := Config.ConfigGet(config, ["columns"], None);
            var configured := Helper.Only(Entries(columns), Allowed);
            var d := ColumnsDefinition(config, columnDef).value;
            && !IsNullish(columns) && d.Obj?
            && (!HasKey(columnDef.fields, k) ==>
                  Lookup(d.fields, k) == (if k in Allowed then Lookup(Entries(columns), k) else None))
            && (forall v :: Lookup(columnDef.fields, k) == Some(v) && !(IsObject(v) && HasKey(configured, k)) ==>
                  Lookup(d.fields, k) == Some(v))
            && (forall v :: Lookup(columnDef.fields, k) == Some(v) && IsObject(v) && HasKey(configured, k) ==>
                  ArrayReplaceRecursive(Lookup(configured, k).value, v).Ok?
                  && Lookup(d.fields, k) == Some(ArrayReplaceRecursive(Lookup(configured, k).value, v).value))
  {
    var columns := Config.ConfigGet(config, ["columns"], None);
    var configured := Helper.Only(Entries(columns), Allowed);
    assert IntersectKey(columns, Allowed) == Ok(Obj(configured));
    ReplaceObjects(configured, columnDef.fields, k);
    Helper.OnlyLookup(Entries(columns), Allowed, k);
  }

  /** `isBlacklisted(column)` on a merged definition; `column` is a name,
      or `null` where an engine passes a column it could not name. */
  function IsBlacklistedIn(def: Value, column: Value): (r: Result<bool>)
    ensures Includes(Prop(def, "blacklist"), column) == Ok(true) ==> r == Ok(true)
    ensures Includes(Prop(def, "blacklist"), column) == Ok(false) && Prop(def, "whitelist") == Str("*")
            ==> r == Ok(false)
    ensures Includes(Prop(def, "blacklist"), column) == Ok(false) && !Truthy(Prop(def, "whitelist"))
            ==> r == Ok(true)
    ensures Includes(Prop(def, "blacklist"), column) == Ok(false) && Prop(def, "whitelist").Arr?
            ==> r == Ok(!Includes(Prop(def, "whitelist"), column).value)
    ensures r.Err? ==> Includes(Prop(def, "blacklist"), column).Err? || !Prop(def, "whitelist").Arr?
  {
    match Includes(Prop(def, "blacklist"), column)
    case Err(e) => Err(e)
    case Ok(true) => Ok(true)
    case Ok(false) =>
      var wl := Prop(def, "whitelist");
      if StrictEquals(wl, Str("*")) then Ok(false)
      else if !Truthy(wl) then Ok(true)
      else
        match Includes(wl, column)
        case Err(e) => Err(e)
        case Ok(listed) => Ok(!listed)
  }

  /** `isBlacklisted(column)` of a table with this configuration and
      definition, for any value the engine passes. */
  function BlacklistedValue(config: Value, columnDef: Value, column: Value): Result<bool> {
    var def :- ColumnsDefinition(config, columnDef);
    IsBlacklistedIn(def, column)
  }

  /** `isBlacklisted(column)` of a table with this configuration and definition. */
  function Blacklisted(config: Value, columnDef: Value, column: string): Result<bool> {
    BlacklistedValue(config, columnDef, Str(column))
  }

  /** The definition after `pushToBlacklist(column)` appends to it: a missing
      blacklist starts as `[]`; anything else that is not an array has no
      `push` and throws. */
  function PushedBlacklist(columnDef: Value, column: string): (r: Result<Value>)
    ensures r.Ok? <==> Prop(columnDef, "blacklist").Undefined? || Prop(columnDef, "blacklist").Arr?
  {
    var bl := Prop(columnDef, "blacklist");
    var list := if bl.Undefined? then Arr([]) else bl;
    if list.Arr? then Ok(PutProp(columnDef, "blacklist", Arr(list.items + [Str(column)])))
    else Err(TypeError)
  }

  predicate Primitives(v: Value) {
    v.Arr? ==> forall j :: 0 <= j < |v.items| ==> !IsObject(v.items[j])
  }

  /** After `pushToBlacklist(column)`, `isBlacklisted(column)` never answers
      `false`: it answers `true`, or throws because the definition cannot be
      merged or the merged blacklist is not an array. */
  lemma PushedIsBlacklisted(config: Value, columnDef: Value, column: string)
    requires columnDef.Obj? && UniqueKeys(columnDef.fields)
    requires Primitives(Prop(columnDef, "blacklist"))
    requires PushedBlacklist(columnDef, column).Ok?
    ensures var b := Blacklisted(config, PushedBlacklist(columnDef, column).value, column);
            b == Ok(true) || b.Err?
  {
    var def' := PushedBlacklist(columnDef, column).value;
    var s := PushedItems(columnDef, column);
    var d := ColumnsDefinition(config, def');
    if d.Ok? {
      var base := IntersectKey(Config.ConfigGet(config, ["columns"], None), Allowed).value;
      assert d == ArrayReplaceRecursive(base, def');
      MergedBlacklist(base, def', s);
      var merged := Prop(d.value, "blacklist");
      if merged.Arr? {
        BlacklistedByLast(d.value, merged.items, s, column);
      }
    }
  }

  /** The blacklist entries after the push. */
  function PushedItems(columnDef: Value, column: string): (s: seq<Value>)
    requires PushedBlacklist(columnDef, column).Ok?
    requires columnDef.Obj? && UniqueKeys(columnDef.fields)
    requires Primitives(Prop(columnDef, "blacklist"))
    ensures |s| >= 1 && s[|s| - 1] == Str(column)
    ensures forall j :: 0 <= j < |s| ==> !IsObject(s[j])
    ensures var def' := PushedBlacklist(columnDef, column).value;
            def'.Obj? && UniqueKeys(def'.fields) && Lookup(def'.fields, "blacklist") == Some(Arr(s))
  {
    var bl := Prop(columnDef, "blacklist");
    var s := (if bl.Undefined? then [] else bl.items) + [Str(column)];
    AssignLookup(columnDef.fields, "blacklist", Arr(s), "blacklist");
    AssignUnique(columnDef.fields, "blacklist", Arr(s));
    s
  }

  /** The merged blacklist, when merging succeeds: the pushed entries lead
      an array, or the configured blacklist was a non-array object and the
      merged one is not an array or string either. */
  lemma MergedBlacklist(base: Value, def': Value, s: seq<Value>)
    requires base.Obj? && def'.Obj? && UniqueKeys(def'.fields)
    requires Lookup(def'.fields, "blacklist") == Some(Arr(s))
    requires |s| >= 1 && forall j :: 0 <= j < |s| ==> !IsObject(s[j])
    requires ArrayReplaceRecursive(base, def').Ok?
    ensures var merged := Prop(ArrayReplaceRecursive(base, def').value, "blacklist");
            (merged.Arr? && |merged.items| >= |s| && forall j :: 0 <= j < |s| ==> merged.items[j] == s[j])
            || (!merged.Arr? && !merged.Str?)
  {
    ReplaceObjects(base.fields, def'.fields, "blacklist");
    var d := ArrayReplaceRecursive(base, def').value;
    if HasKey(base.fields, "blacklist") {
      var tb := Lookup(base.fields, "blacklist").value;
      assert ArrayReplaceRecursive(tb, Arr(s)).Ok?;
      assert Prop(d, "blacklist") == ArrayReplaceRecursive(tb, Arr(s)).value;
      if !IsObject(tb) {
        assert Entries(Arr(s)) != [];
        ReplaceIntoPrimitive(tb, Arr(s));
        assert false;
      } else if tb.Arr? {
        ReplaceArrays(tb.items, s);
      } else {
        KindKept(tb, Arr(s), 0, false);
      }
    }
  }

  lemma BlacklistedByLast(def: Value, items: seq<Value>, s: seq<Value>, column: string)
    requires Prop(def, "blacklist") == Arr(items)
    requires |s| >= 1 && s[|s| - 1] == Str(column)
    requires |items| >= |s| && forall j :: 0 <= j < |s| ==> items[j] == s[j]
    ensures IsBlacklistedIn(def, Str(column)) == Ok(true)
  {
    assert StrictEquals(items[|s| - 1], Str(column));
  }

  // ----- search terms and keywords -----------------------------------------

  /** A piece that `.reject(text => text.trim() === '')` keeps: one of its
      characters is not white space (see `NonBlankTrim`). */
  predicate NonBlank(text: string) {
    exists i :: 0 <= i < |text| && !IsSpace(text[i])
  }

  /** Keeping the pieces with a non-space character is keeping the pieces
      whose trimmed form is not empty. */
  lemma NonBlankTrim(text: string)
    ensures NonBlank(text) <==> Trim(text) != ""
  {
    TrimStartBlank(text);
    var start := TrimStart(text);
    if start != [] {
      TrimEndKeeps(start);
    }
  }

  /** The keywords `filtering()` hands to `globalSearch`, in call order: with
      multi-term search the non-blank pieces between single spaces
      (`smartGlobalSearch`), otherwise the whole keyword. */
  function SearchTerms(keyword: string, multiTerm: bool): (terms: seq<string>)
    ensures !multiTerm ==> terms == [keyword]
  {
    if multiTerm then Seqs.Filter(Split(keyword, " "), NonBlank) else [keyword]
  }

  /** With multi-term search a term is exactly a non-blank piece of the
      keyword between spaces; none holds a space. */
  lemma TermsAreTokens(keyword: string, t: string)
    ensures t in SearchTerms(keyword, true) <==> t in Split(keyword, " ") && NonBlank(t)
    ensures t in SearchTerms(keyword, true) ==> ' ' !in t
  {
    Seqs.FilterMembers(Split(keyword, " "), NonBlank, t);
    if t in Split(keyword, " ") {
      SplitPartsFree(keyword, " ");
      var k :| 0 <= k < |Split(keyword, " ")| && Split(keyword, " ")[k] == t;
      ContainsChar(t, ' ');
    }
  }

  /** A keyword of one word is searched once, as it is; the empty keyword
      is not searched at all. */
  lemma SingleWord(keyword: string)
    requires ' ' !in keyword && NonBlank(keyword)
    ensures SearchTerms(keyword, true) == [keyword]
    ensures SearchTerms("", true) == []
  {
    ContainsChar(keyword, ' ');
    SplitWithout(keyword, " ");
    assert Seqs.Filter([keyword], NonBlank) == [keyword];
    ContainsChar("", ' ');
    SplitWithout("", " ");
    assert Seqs.Filter([""], NonBlank) == [];
  }

  /** `setupKeyword(value)`: with smart search the keyword becomes
      `'%' + value + '%}'` (stray brace included), or the wildcard form when
      wildcards are on, and its first backslash turns into `%`; without smart
      search it is kept. */
  function SetupKeyword(config: Value, value: string): (r: string)
    ensures !Truthy(Config.IsSmartSearch(config)) ==> r == value
  {
    if Truthy(Config.IsSmartSearch(config)) then
      var keyword := if Truthy(Config.IsWildcard(config)) then Helper.WildcardSpec(value, "%", true)
                     else "%" + value + "%}";
      ReplaceFirst(keyword, "\\", "%")
    else value
  }

  /** The three outcomes of `setupKeyword` for a value without backslash. */
  lemma SetupKeywordCases(config: Value, value: string)
    requires '\\' !in value
    ensures Truthy(Config.IsSmartSearch(config)) && !Truthy(Config.IsWildcard(config))
            ==> SetupKeyword(config, value) == "%" + value + "%}"
    ensures Truthy(Config.IsSmartSearch(config)) && Truthy(Config.IsWildcard(config))
            ==> SetupKeyword(config, value) == Helper.WildcardSpec(value, "%", true)
    ensures !Truthy(Config.IsSmartSearch(config)) ==> SetupKeyword(config, value) == value
  {
    if Truthy(Config.IsSmartSearch(config)) {
      if Truthy(Config.IsWildcard(config)) {
        var w := Helper.WildcardSpec(value, "%", true);
        Helper.WildcardChars(value, "%", '\\');
        ContainsChar(w, '\\');
      } else {
        var k := "%" + value + "%}";
        assert '\\' !in k;
        ContainsChar(k, '\\');
      }
    }
  }

  // ----- column names -----------------------------------------------------

  /** `getColumnNameByIndex(index)`: `$columns[index]` unless it is missing or
      `'*'`, and the primary key instead of any appended column. */
  function ColumnNameByIndex(columns: Value, extra: seq<string>, primaryKey: Value, index: int): (r: Result<Value>)
    ensures r.Err? <==> IsNullish(columns)
    ensures r.Ok? && (Prop(columns, IntToString(index)).Undefined? || Prop(columns, IntToString(index)) == Str("*"))
            ==> r.value == primaryKey
    ensures r.Ok? && r.value != primaryKey ==>
              r.value == Prop(columns, IntToString(index)) && !(exists e :: e in extra && r.value == Str(e))
  {
    if IsNullish(columns) then Err(TypeError)
    else
      var c := Prop(columns, IntToString(index));
      var name := if !c.Undefined? && !StrictEquals(c, Str("*")) then c else primaryKey;
      if exists e :: e in extra && StrictEquals(Str(e), name) then Ok(primaryKey) else Ok(name)
  }

  /** `getColumnName(index, wantsAlias)`: the request column's name (its
      `name`, else its `data`), `null` when the request has no such column,
      resolved by position when it is a number, and reduced by
      `extractColumnName` when it holds `' AS '` in any case. */
  function GetColumnName(params: Value, columns: Value, extra: seq<string>, primaryKey: Value,
                         index: int, wantsAlias: bool): (r: Result<Option<string>>)
    ensures IsNullish(Request.ColumnName(Request.Legacy, params, index)) ==> r == Ok(None)
    ensures Request.ColumnName(Request.Legacy, params, index).Str? ==>
              var s := Request.ColumnName(Request.Legacy, params, index).s;
              r == Ok(Some(if Contains(ToUpper(s), " AS ") then Helper.ExtractColumnName(s, wantsAlias) else s))
  {
    var column := Request.ColumnName(Request.Legacy, params, index);
    if IsNullish(column) then Ok(None)
    else
      var named :- if column.Num? then ColumnNameByIndex(columns, extra, primaryKey, index) else Ok(column);
      if !named.Str? then Err(TypeError)
      else if StrUtil.Matches(ToUpper(named.s), " AS ", false) then Ok(Some(Helper.ExtractColumnName(named.s, wantsAlias)))
      else Ok(Some(named.s))
  }

  /** `getColumnName` as written: `column.toUpperCase()` is passed to
      `Helper.contains`, a member `Helper` does not define, so every column
      name that reaches that line throws a TypeError (a name that is not a
      string already throws at `toUpperCase`). Only a missing column gives a
      result. `GetColumnName` above is the evident intent. */
  function GetColumnNameAsWritten(params: Value, columns: Value, extra: seq<string>, primaryKey: Value,
                                  index: int, wantsAlias: bool): (r: Result<Option<string>>)
    ensures r.Ok? <==> IsNullish(Request.ColumnName(Request.Legacy, params, index))
    ensures r.Ok? ==> r == Ok(None)
  {
    var column := Request.ColumnName(Request.Legacy, params, index);
    if IsNullish(column) then Ok(None)
    else
      match (if column.Num? then ColumnNameByIndex(columns, extra, primaryKey, index) else Ok(column))
      case Err(e) => Err(e)
      case Ok(named) =>
        if named.Str? && Helper.Defines("contains") then GetColumnName(params, columns, extra, primaryKey, index, wantsAlias)
        else Err(TypeError)
  }

  /** A request column named by a string throws as written, where the
      intended `getColumnName` returns a name. */
  lemma NamedColumnThrows(params: Value, columns: Value, extra: seq<string>, primaryKey: Value,
                          index: int, wantsAlias: bool)
    requires Request.ColumnName(Request.Legacy, params, index).Str?
    ensures GetColumnNameAsWritten(params, columns, extra, primaryKey, index, wantsAlias) == Err(TypeError)
    ensures GetColumnName(params, columns, extra, primaryKey, index, wantsAlias).Ok?
            && GetColumnName(params, columns, extra, primaryKey, index, wantsAlias).value.Some?
  {
  }

  // ----- counts, paging, ordering -------------------------------------------

  /** `totalCount()` and `filteredCount()`: a count already set wins over
      the counted rows. */
  function CountOr(recorded: int, counted: int): (r: int)
    ensures recorded != 0 ==> r == recorded
    ensures recorded == 0 ==> r == counted
  {
    if recorded != 0 then recorded else counted
  }

  /** `paginate()` pages only when the request allows it and paging was not
      skipped. */
  predicate ShouldPaginate(params: Value, skipPaging: bool) {
    Request.IsPaginationable(Request.Legacy, params) && !skipPaging
  }

  /** `ordering()`: a registered order callback replaces the default ordering. */
  predicate UsesOrderCallback(orderCallback: Value) {
    TypeOf(orderCallback) == "function"
  }

  // ----- the response envelope ------------------------------------------------

  function BaseEnvelope(draw: Value, total: int, filtered: int, data: Value): seq<Field> {
    [Field("draw", draw), Field("recordsTotal", Num(total)),
     Field("recordsFiltered", Num(filtered)), Field("data", data)]
  }

  /** `attachAppends({draw, recordsTotal, recordsFiltered, data})`, plus
      `input` when debugging. */
  function Envelope(draw: Value, total: int, filtered: int, data: Value,
                    appends: Value, debug: bool, input: Value): seq<Field> {
    var out := Spread(BaseEnvelope(draw, total, filtered, data), appends);
    if debug then Assign(out, "input", input) else out
  }

  /** Appended values win over the envelope's own keys, which stay
      otherwise. */
  lemma AppendsWin(draw: Value, total: int, filtered: int, data: Value,
                   appends: seq<Field>, k: string)
    requires UniqueKeys(appends)
    ensures var out := Envelope(draw, total, filtered, data, Obj(appends), false, Null);
            Lookup(out, k) == if HasKey(appends, k) then Lookup(appends, k)
                              else Lookup(BaseEnvelope(draw, total, filtered, data), k)
  {
    AssignAllLookup(BaseEnvelope(draw, total, filtered, data), appends, k);
  }

  lemma {:induction false} AssignAllLookup(fields: seq<Field>, more: seq<Field>, k: string)
    requires UniqueKeys(more)
    ensures Lookup(AssignAll(fields, more), k) == if HasKey(more, k) then Lookup(more, k) else Lookup(fields, k)
    decreases |more|
  {
    if more != [] {
      var first := more[0];
      var rest := more[1..];
      assert UniqueKeys(rest) by {
        forall i, j | 0 <= i < j < |rest| ensures rest[i].key != rest[j].key {
          assert rest[i] == more[i + 1] && rest[j] == more[j + 1];
        }
      }
      AssignAllLookup(Assign(fields, first.key, first.val), rest, k);
      AssignLookup(fields, first.key, first.val, k);
      if HasKey(rest, k) {
        var j :| 0 <= j < |rest| && rest[j].key == k;
        assert more[j + 1] == rest[j];
        assert first.key != k;
      } else if k == first.key {
        assert Lookup(more, k) == Some(first.val);
      } else {
        assert !HasKey(more, k) by {
          forall j | 0 <= j < |more| ensures more[j].key != k {
            if j > 0 {
              assert more[j] == rest[j - 1];
            }
          }
        }
      }
    }
  }

  /** `errorResponse(exception)`: the draw and total are echoed, nothing is
      filtered and no rows are sent; `message` stands for the exception's stack. */
  function ErrorEnvelope(draw: Value, total: int, message: string): (r: seq<Field>)
    ensures Keys(r) == ["draw", "recordsTotal", "recordsFiltered", "data", "error"]
  {
    [Field("draw", draw), Field("recordsTotal", Num(total)), Field("recordsFiltered", Num(0)),
     Field("data", Arr([])), Field("error", Str("Exception Message: " + message))]
  }

  /** The error envelope's fixed parts, looked up by key. */
  lemma ErrorEnvelopeFields(draw: Value, total: int, message: string)
    ensures var r := ErrorEnvelope(draw, total, message);
            Lookup(r, "recordsFiltered") == Some(Num(0)) && Lookup(r, "data") == Some(Arr([]))
            && Lookup(r, "draw") == Some(draw) && Lookup(r, "recordsTotal") == Some(Num(total))
  {
    var r := ErrorEnvelope(draw, total, message);
    assert r[0].key == "draw" && r[1].key == "recordsTotal";
    assert "recordsFiltered" != "draw" && "recordsFiltered" != "recordsTotal";
    assert "data" != "draw" && "data" != "recordsTotal" && "data" != "recordsFiltered";
    assert "recordsTotal" != "draw";
    assert Lookup(r, "recordsFiltered") == Lookup(r[2..], "recordsFiltered");
    assert Lookup(r, "data") == Lookup(r[3..], "data");
  }

  /** An HTTP reply: status, headers in order, JSON body. */
  datatype Response = Response(status: int, headers: seq<Field>, body: Value)

  /** `render(data)` as written: the headers are read with
      `jsonHeaders().entries()`, which only arrays have among the values a
      configuration holds. */
  function Render(config: Value, params: Value, total: int, filtered: int, data: Value,
                  appends: Value): Result<Response>
  {
    var out := Envelope(Request.Draw(Request.Legacy, params), total, filtered, data, appends,
                        Truthy(Config.IsDebugging(config)), params);
    var headers := Config.JsonHeaders(config);
    if headers.Arr? then Ok(Response(200, IndexFields(headers.items), Obj(out)))
    else Err(TypeError)
  }

  /** Every configuration whose `json.header` is an object — the declared
      type, and the `{}` default — makes `render` throw. */
  lemma RenderThrows(config: Value, params: Value, total: int, filtered: int, data: Value, appends: Value)
    requires Config.JsonHeaders(config).Obj?
    ensures Render(config, params, total, filtered, data, appends) == Err(TypeError)
    ensures Config.JsonHeaders(Obj([])).Obj?
  {
    Config.Defaults([""]);
  }

  /** `render(data)` with the headers read by `Object.entries`: a 200 reply
      whose headers are the configured ones, in order, and whose body is
      the envelope. */
  function RenderFixed(config: Value, params: Value, total: int, filtered: int, data: Value,
                       appends: Value): (r: Result<Response>)
    ensures !IsNullish(Config.JsonHeaders(config)) ==>
              r.Ok? && r.value.status == 200 && r.value.headers == Entries(Config.JsonHeaders(config))
              && r.value.body == Obj(Envelope(Request.Draw(Request.Legacy, params), total, filtered, data, appends,
                                              Truthy(Config.IsDebugging(config)), params))
    ensures IsNullish(Config.JsonHeaders(config)) ==> r == Err(TypeError)
  {
    var out := Envelope(Request.Draw(Request.Legacy, params), total, filtered, data, appends,
                        Truthy(Config.IsDebugging(config)), params);
    var headers := Config.JsonHeaders(config);
    if IsNullish(headers) then Err(TypeError)
    else Ok(Response(200, Entries(headers), Obj(out)))
  }

  /** With the default configuration the corrected render replies 200 with
      no headers. */
  lemma RenderFixedDefault(params: Value, total: int, filtered: int, data: Value, appends: Value)
    ensures RenderFixed(Obj([]), params, total, filtered, data, appends).Ok?
    ensures RenderFixed(Obj([]), params, total, filtered, data, appends).value.headers == []
  {
    Config.Defaults([""]);
  }

  // ----- the table's state -------------------------------------------------------

  /** `obj[key] = x` on an object: the key reads back `x`, the other keys
      are untouched, and keys stay unique. */
  lemma PutKeeps(v: Value, key: string, x: Value, k: string)
    requires v.Obj?
    ensures PutProp(v, key, x).Obj?
    ensures Prop(PutProp(v, key, x), k) == if k == key then x else Prop(v, k)
    ensures Lookup(PutProp(v, key, x).fields, k) == if k == key then Some(x) else Lookup(v.fields, k)
    ensures UniqueKeys(v.fields) ==> UniqueKeys(PutProp(v, key, x).fields)
  {
    assert PutProp(v, key, x) == Obj(Assign(v.fields, key, x));
    AssignLookup(v.fields, key, x, k);
    if UniqueKeys(v.fields) {
      AssignUnique(v.fields, key, x);
    }
  }

  /** The items a definition's entry `key` holds when it is an array. */
  function ItemsOf(def: Value, key: string): seq<Value> {
    var v := Prop(def, key);
    if v.Arr? then v.items else []
  }

  /** The definition after an engine's `addColumn`: the column is pushed to
      the blacklist unless it is listed already, then the item is appended. */
  function AddedColumnDef(def: Value, name: string, item: Value, listed: bool): Value
    requires listed || PushedBlacklist(def, name).Ok?
  {
    var pushed := if listed then def else PushedBlacklist(def, name).value;
    PutProp(pushed, "append", Arr(ItemsOf(pushed, "append") + [item]))
  }

  /** After an engine's `addColumn` the append list has grown by the item
      and the blacklist holds the name (added at the end unless it was
      listed already); every other entry is kept. */
  lemma BlacklistedAndAppended(def: Value, name: string, item: Value, listed: bool, k: string)
    requires def.Obj? && (listed || PushedBlacklist(def, name).Ok?)
    ensures var after := AddedColumnDef(def, name, item, listed);
            ItemsOf(after, "append") == ItemsOf(def, "append") + [item]
            && Prop(after, "blacklist")
               == (if listed then Prop(def, "blacklist") else Arr(ItemsOf(def, "blacklist") + [Str(name)]))
            && (k != "append" && k != "blacklist" ==> Prop(after, k) == Prop(def, k))
  {
    var blItems := ItemsOf(def, "blacklist");
    var pushed := if listed then def else PushedBlacklist(def, name).value;
    if !listed {
      PutKeeps(def, "blacklist", Arr(blItems + [Str(name)]), "append");
      PutKeeps(def, "blacklist", Arr(blItems + [Str(name)]), "blacklist");
      PutKeeps(def, "blacklist", Arr(blItems + [Str(name)]), k);
    }
    var item' := Arr(ItemsOf(pushed, "append") + [item]);
    PutKeeps(pushed, "append", item', "append");
    PutKeeps(pushed, "append", item', "blacklist");
    PutKeeps(pushed, "append", item', k);
  }

  /** `{ name, content, order }` as `addColumn` registers it. */
  function AppendItem(name: string, content: Value, order: Value): Value {
    Obj([Field("name", Str(name)), Field("content", content), Field("order", order)])
  }

  /** `{ name, content }` as `editColumn` registers it. */
  function EditItem(name: string, content: Value): Value {
    Obj([Field("name", Str(name)), Field("content", content)])
  }

  /** The gate of `editColumn` in edit-only-selected mode: the request has
      no columns, or one of them is named `name`. Reading `length` of a
      missing `columns`, or `name` of a missing entry, throws. */
  function EditAllowed(params: Value, name: string): (r: Result<bool>)
    ensures var cols := Request.Columns(Request.Legacy, params);
            !IsNullish(cols) && !Truthy(Prop(cols, "length")) ==> r == Ok(true)
    ensures var cols := Request.Columns(Request.Legacy, params);
            cols.Arr? && cols.items != [] && (forall i :: 0 <= i < |cols.items| ==> !IsNullish(cols.items[i])) ==>
              r == Ok(exists i :: 0 <= i < |cols.items| && Prop(cols.items[i], "name") == Str(name))
  {
    var cols := Request.Columns(Request.Legacy, params);
    if IsNullish(cols) then Err(TypeError)
    else if !Truthy(Prop(cols, "length")) then Ok(true)
    else if !cols.Arr? then Err(TypeError)
    else if exists i :: 0 <= i < |cols.items| && IsNullish(cols.items[i]) then Err(TypeError)
    else Ok(exists i :: 0 <= i < |cols.items| && StrictEquals(Prop(cols.items[i], "name"), Str(name)))
  }

  /** `list[column] !== undefined` on the `filter` or `order` array of
      `$columnDef`, whose named entries are `entries`: `length` is defined
      on every array. */
  predicate HasNamedEntry(entries: seq<Field>, column: string) {
    column == "length" || HasKey(entries, column)
  }

  /** `[...v]`: arrays and strings spread into their elements. */
  function SpreadItems(v: Value): Result<seq<Value>> {
    match v
    case Arr(items) => Ok(items)
    case Str(s) => Ok(seq(|s|, i requires 0 <= i < |s| => Str([s[i]])))
    case _ => Err(TypeError)
  }

  /** The state `DataTableAbstract` keeps for every engine. `config` is the
      `datatables` configuration, `params` the request parameters and
      `columns` the engine's `$columns`. */
  class DataTable {
    const config: Value
    const params: Value
    var columns: Value
    var columnDef: Value
    var extraColumns: seq<string>
    var totalRecords: int
    var filteredRecords: int
    var skipTotal: bool
    var autoFilter: bool
    var filterCallback: Value
    var templates: Value
    var orderCallback: Value
    var skipPaging: bool
    var appends: Value
    var editOnlySelected: bool
    /** `$columnDef['filter'][column] = { method }`, by column. */
    var filters: seq<Field>
    /** `$columnDef['order'][column] = { sql, bindings }`, by column. */
    var orders: seq<Field>

    ghost predicate Valid()
      reads this`columnDef, this`templates, this`appends
    {
      columnDef.Obj? && UniqueKeys(columnDef.fields)
      && Prop(columnDef, "append").Arr? && Prop(columnDef, "edit").Arr?
      && Lookup(columnDef.fields, "access").None?
      && templates.Obj? && (appends.Obj? || appends.Arr?)
    }

    constructor(config: Value, params: Value, columns: Value)
      ensures Valid()
      ensures this.config == config && this.params == params && this.columns == columns
      ensures columnDef == InitialColumnDef && templates == InitialTemplates && appends == Obj([])
      ensures extraColumns == [] && filters == [] && orders == []
      ensures totalRecords == 0 && filteredRecords == 0 && !skipTotal && autoFilter && !skipPaging
      ensures filterCallback == Null && orderCallback == Null && !editOnlySelected
    {
      this.config := config;
      this.params := params;
      this.columns := columns;
      columnDef := InitialColumnDef;
      templates := InitialTemplates;
      appends := Obj([]);
      extraColumns := [];
      filters := [];
      orders := [];
      totalRecords := 0;
      filteredRecords := 0;
      skipTotal := false;
      autoFilter := true;
      skipPaging := false;
      filterCallback := Null;
      orderCallback := Null;
      editOnlySelected := false;
      InitialDefValid();
    }

    /** `getColumnsDefinition()`. */
    function Definition(): Result<Value>
      reads this
    {
      ColumnsDefinition(config, columnDef)
    }

    /** `isBlacklisted(column)`. */
    function IsBlacklisted(column: string): Result<bool>
      reads this
    {
      Blacklisted(config, columnDef, column)
    }

    /** `hasFilterColumn(column)`: `filter[column] !== undefined` on the
        `filter` array, whose `length` is defined too. */
    predicate HasFilterColumn(column: string)
      reads this
    {
      HasNamedEntry(filters, column)
    }

    /** `hasOrderColumn(column)`, likewise on the `order` array. */
    predicate HasOrderColumn(column: string)
      reads this
    {
      HasNamedEntry(orders, column)
    }

    /** `getColumnName(index, wantsAlias)` with `primaryKey` as
        `getPrimaryKeyName()`. */
    function ColumnName(index: int, wantsAlias: bool, primaryKey: Value): Result<Option<string>>
      reads this
    {
      GetColumnName(params, columns, extraColumns, primaryKey, index, wantsAlias)
    }

    /** The items `$columnDef[key]` holds (an array by `Valid`). */
    function Items(key: string): seq<Value>
      reads this
    {
      ItemsOf(columnDef, key)
    }

    /** Replaces one entry of `$columnDef`, keeping `Valid` when the entry is
        not `append` or `edit`, or when it is an array. */
    method PutDef(key: string, x: Value)
      requires Valid() && key != "access" && (key == "append" || key == "edit" ==> x.Arr?)
      modifies this`columnDef
      ensures Valid()
      ensures columnDef == PutProp(old(columnDef), key, x)
      ensures Prop(columnDef, key) == x
      ensures forall k :: k != key ==> Prop(columnDef, k) == Prop(old(columnDef), k)
    {
      PutKeeps(columnDef, key, x, "append");
      PutKeeps(columnDef, key, x, "edit");
      PutKeeps(columnDef, key, x, "access");
      PutKeeps(columnDef, key, x, key);
      forall k | k != key ensures Prop(PutProp(columnDef, key, x), k) == Prop(columnDef, k) {
        PutKeeps(columnDef, key, x, k);
      }
      columnDef := PutProp(columnDef, key, x);
    }

    /** `addColumn(name, content, order)`: the name joins `$extraColumns`
        and the item is appended to `append`. */
    method AddColumn(name: string, content: Value, order: Value)
      requires Valid()
      modifies this`extraColumns, this`columnDef
      ensures Valid()
      ensures extraColumns == old(extraColumns) + [name]
      ensures columnDef == PutProp(old(columnDef), "append", Arr(ItemsOf(old(columnDef), "append") + [AppendItem(name, content, order)]))
      ensures ItemsOf(columnDef, "append") == ItemsOf(old(columnDef), "append") + [AppendItem(name, content, order)]
    {
      var appended := Items("append") + [AppendItem(name, content, order)];
      extraColumns := extraColumns + [name];
      PutDef("append", Arr(appended));
      assert Prop(columnDef, "append") == Arr(appended);
    }

    /** `addIndexColumn()`. */
    method AddIndexColumn()
      requires Valid()
      modifies this`columnDef
      ensures Valid() && columnDef == PutProp(old(columnDef), "index", Bool(true))
      ensures Prop(columnDef, "index") == Bool(true)
    {
      PutDef("index", Bool(true));
    }

    /** `editColumn(name, content)`: the edit is registered unless
        edit-only-selected mode is on and the request lists columns none of
        which is named `name`. */
    method EditColumn(name: string, content: Value) returns (o: Outcome)
      requires Valid()
      modifies this`columnDef
      ensures Valid()
      ensures !editOnlySelected || EditAllowed(params, name) == Ok(true) ==>
                o == Done && columnDef == PutProp(old(columnDef), "edit", Arr(ItemsOf(old(columnDef), "edit") + [EditItem(name, content)]))
      ensures editOnlySelected && EditAllowed(params, name) == Ok(false) ==> o == Done && unchanged(this)
      ensures editOnlySelected && EditAllowed(params, name).Err? ==> o.Thrown? && unchanged(this)
    {
      if editOnlySelected {
        var allowed := EditAllowed(params, name);
        if allowed.Err? {
          return Thrown(allowed.message);
        }
        if !allowed.value {
          return Done;
        }
      }
      AddEdit(name, content);
      return Done;
    }

    /** The registration step of `editColumn`: the edit joins `edit`. */
    method AddEdit(name: string, content: Value)
      requires Valid()
      modifies this`columnDef
      ensures Valid()
      ensures columnDef == PutProp(old(columnDef), "edit", Arr(ItemsOf(old(columnDef), "edit") + [EditItem(name, content)]))
      ensures ItemsOf(columnDef, "edit") == ItemsOf(old(columnDef), "edit") + [EditItem(name, content)]
    {
      var edits := ItemsOf(columnDef, "edit") + [EditItem(name, content)];
      PutDef("edit", Arr(edits));
    }

    /** `removeColumn(...names)` spreads `getColumnsDefinition()['access']`,
        a key no definition has, so it always throws and changes nothing. */
    method RemoveColumn(names: seq<string>) returns (o: Outcome)
      requires Valid()
      ensures o.Thrown?
    {
      var def := Definition();
      if def.Err? {
        return Thrown(def.message);
      }
      NoAccessKey(config, columnDef);
      assert Prop(def.value, "access") == Undefined;
      var spread := SpreadItems(Prop(def.value, "access"));
      assert spread.Err?;
      return Thrown(TypeError);
    }

    /** `only(columns)`. */
    method Only(columns: seq<Value>)
      requires Valid()
      modifies this`columnDef
      ensures Valid() && columnDef == PutProp(old(columnDef), "only", Arr(columns))
    {
      PutDef("only", Arr(columns));
    }

    /** `escapeColumns(columns = '*')`. */
    method EscapeColumns(columns: Value)
      requires Valid()
      modifies this`columnDef
      ensures Valid() && columnDef == PutProp(old(columnDef), "escape", columns)
    {
      PutDef("escape", columns);
    }

    /** `makeHidden(attributes)` and `makeVisible(attributes)`: the list is
        merged into the current one with `arrayMergeRecursive`. */
    method MergeList(key: string, attributes: seq<Value>) returns (o: Outcome)
      requires Valid() && (key == "hidden" || key == "visible")
      modifies this`columnDef
      ensures Valid()
      ensures var merged := ArrayMergeRecursive(Get(old(columnDef), key, Arr([])), Arr(attributes));
              (merged.Ok? ==> o == Done && columnDef == PutProp(old(columnDef), key, merged.value))
              && (merged.Err? ==> o.Thrown? && unchanged(this))
    {
      var merged := ArrayMergeRecursive(Get(columnDef, key, Arr([])), Arr(attributes));
      if merged.Err? {
        return Thrown(merged.message);
      }
      PutDef(key, merged.value);
      return Done;
    }

    method MakeHidden(attributes: seq<Value>) returns (o: Outcome)
      requires Valid()
      modifies this`columnDef
      ensures Valid()
      ensures var merged := ArrayMergeRecursive(Get(old(columnDef), "hidden", Arr([])), Arr(attributes));
              (merged.Ok? ==> o == Done && columnDef == PutProp(old(columnDef), "hidden", merged.value))
              && (merged.Err? ==> o.Thrown? && unchanged(this))
    {
      o := MergeList("hidden", attributes);
    }

    method MakeVisible(attributes: seq<Value>) returns (o: Outcome)
      requires Valid()
      modifies this`columnDef
      ensures Valid()
      ensures var merged := ArrayMergeRecursive(Get(old(columnDef), "visible", Arr([])), Arr(attributes));
              (merged.Ok? ==> o == Done && columnDef == PutProp(old(columnDef), "visible", merged.value))
              && (merged.Err? ==> o.Thrown? && unchanged(this))
    {
      o := MergeList("visible", attributes);
    }

    /** `rawColumns(columns, merge)`: with `merge` the configured
        `columns.raw` is spread in front, which throws when there is none. */
    method RawColumns(columns: seq<Value>, merge: bool) returns (o: Outcome)
      requires Valid()
      modifies this`columnDef
      ensures Valid()
      ensures !merge ==> o == Done && columnDef == PutProp(old(columnDef), "raw", Arr(columns))
      ensures merge ==>
                var configured := Config.ConfigGet(config, ["columns"], None);
                var raw := if IsNullish(configured) then Err(TypeError) else SpreadItems(Prop(configured, "raw"));
                (raw.Ok? ==> o == Done && columnDef == PutProp(old(columnDef), "raw", Arr(raw.value + columns)))
                && (raw.Err? ==> o.Thrown? && unchanged(this))
    {
      if merge {
        var configured := Config.ConfigGet(config, ["columns"], None);
        if IsNullish(configured) {
          return Thrown(TypeError);
        }
        var raw := SpreadItems(Prop(configured, "raw"));
        if raw.Err? {
          return Thrown(raw.message);
        }
        PutDef("raw", Arr(raw.value + columns));
      } else {
        PutDef("raw", Arr(columns));
      }
      return Done;
    }

    /** `blacklist(list)`. */
    method Blacklist(list: seq<Value>)
      requires Valid()
      modifies this`columnDef
      ensures Valid() && columnDef == PutProp(old(columnDef), "blacklist", Arr(list))
    {
      PutDef("blacklist", Arr(list));
    }

    /** `whitelist(list = '*')`. */
    method Whitelist(list: Value)
      requires Valid()
      modifies this`columnDef
      ensures Valid() && columnDef == PutProp(old(columnDef), "whitelist", list)
    {
      PutDef("whitelist", list);
    }

    /** `pushToBlacklist(column)`: a column that is not blacklisted yet is
        appended to the blacklist; a blacklisted one leaves the table as it is. */
    method PushToBlacklist(column: string) returns (o: Outcome)
      requires Valid()
      modifies this`columnDef
      ensures Valid()
      ensures var listed := Blacklisted(config, old(columnDef), column);
              && (listed.Err? ==> o.Thrown? && columnDef == old(columnDef))
              && (listed == Ok(true) ==> o == Done && columnDef == old(columnDef))
              && (listed == Ok(false) ==>
                    var pushed := PushedBlacklist(old(columnDef), column);
                    (pushed.Ok? ==> o == Done && columnDef == pushed.value)
                    && (pushed.Err? ==> o.Thrown? && columnDef == old(columnDef)))
    {
      var listed := IsBlacklisted(column);
      if listed.Err? {
        return Thrown(listed.message);
      }
      if listed.value {
        return Done;
      }
      var pushed := PushedBlacklist(columnDef, column);
      if pushed.Err? {
        return Thrown(pushed.message);
      }
      var bl := Prop(columnDef, "blacklist");
      var list := if bl.Undefined? then [] else bl.items;
      PutDef("blacklist", Arr(list + [Str(column)]));
      return Done;
    }

    /** `setRowId`, `setRowClass`, `setRowData` and `setRowAttr`: the template
        is replaced. */
    method SetTemplate(key: string, content: Value)
      requires Valid()
      modifies this`templates
      ensures Valid() && templates == PutProp(old(templates), key, content)
    {
      templates := PutProp(templates, key, content);
    }

    /** `addRowData(key, value)` and `addRowAttr(key, value)`: the entry is
        stored into the current template; storing into a string template
        throws, and a named entry on an array template is not an element. */
    method AddToTemplate(template: string, key: string, value: Value) returns (o: Outcome)
      requires Valid()
      modifies this`templates
      ensures Valid()
      ensures var stored := Store(Prop(old(templates), template), key, value);
              (stored.Ok? ==> o == Done && templates == PutProp(old(templates), template, stored.value))
              && (stored.Err? ==> o.Thrown? && unchanged(this))
    {
      var stored := Store(Prop(templates, template), key, value);
      if stored.Err? {
        return Thrown(stored.message);
      }
      templates := PutProp(templates, template, stored.value);
      return Done;
    }

    /** `with(key, value)`: an array key replaces all appends; otherwise the
        value (called when it is a function) is stored under the key. */
    method With(key: Value, value: Value)
      requires Valid()
      modifies this`appends
      ensures Valid()
      ensures key.Arr? ==> appends == key
      ensures !key.Arr? ==> appends == PutProp(old(appends), ToJsString(key), Helper.ValueOf(value))
    {
      if key.Arr? {
        appends := key;
      } else {
        appends := PutProp(appends, ToJsString(key), Helper.ValueOf(value));
      }
    }

    /** `withQuery(key, callback)`: the callback itself is stored. */
    method WithQuery(key: string, callback: Value)
      requires Valid()
      modifies this`appends
      ensures Valid() && appends == PutProp(old(appends), key, callback)
    {
      appends := PutProp(appends, key, callback);
    }

    /** `order(callback)`. */
    method Order(callback: Value)
      modifies this`orderCallback
      ensures orderCallback == callback
    {
      orderCallback := callback;
    }

    /** `filter(callback, globalSearch = false)`: automatic global search
        stays on only on request. */
    method Filter(callback: Value, globalSearch: bool)
      modifies this`autoFilter, this`filterCallback
      ensures autoFilter == globalSearch && filterCallback == callback
    {
      autoFilter := globalSearch;
      filterCallback := callback;
    }

    method SetTotalRecords(total: int)
      modifies this`totalRecords
      ensures totalRecords == total
    {
      totalRecords := total;
    }

    /** `skipTotalRecords()`: the total is cleared and later taken from the
        filtered count. */
    method SkipTotalRecords()
      modifies this`totalRecords, this`skipTotal
      ensures totalRecords == 0 && skipTotal
    {
      totalRecords := 0;
      skipTotal := true;
    }

    method SetFilteredRecords(total: int)
      modifies this`filteredRecords
      ensures filteredRecords == total
    {
      filteredRecords := total;
    }

    method SkipPaging()
      modifies this`skipPaging
      ensures skipPaging
    {
      skipPaging := true;
    }

    method EditOnlySelectedColumns()
      modifies this`editOnlySelected
      ensures editOnlySelected
    {
      editOnlySelected := true;
    }

    /** `filterColumn(column, callback)` of the database engines. */
    method FilterColumn(column: string, callback: Value)
      modifies this`filters
      ensures filters == Assign(old(filters), column, Obj([Field("method", callback)]))
      ensures HasFilterColumn(column)
    {
      AssignLookup(filters, column, Obj([Field("method", callback)]), column);
      filters := Assign(filters, column, Obj([Field("method", callback)]));
    }

    /** `orderColumn(column, sql, bindings)` of the database engines. */
    method OrderColumn(column: string, sql: Value, bindings: Value)
      modifies this`orders
      ensures orders == Assign(old(orders), column, Obj([Field("sql", sql), Field("bindings", bindings)]))
      ensures HasOrderColumn(column)
    {
      AssignLookup(orders, column, Obj([Field("sql", sql), Field("bindings", bindings)]), column);
      orders := Assign(orders, column, Obj([Field("sql", sql), Field("bindings", bindings)]));
    }

    /** `filteredCount()`: a filtered count already set is kept. */
    method FilteredCount(counted: int)
      modifies this`filteredRecords
      ensures filteredRecords == CountOr(old(filteredRecords), counted)
    {
      filteredRecords := CountOr(filteredRecords, counted);
    }
  }

  /** The initial definition has unique keys, array `append` and `edit`
      entries and no `access` key. */
  lemma InitialDefValid()
    ensures InitialColumnDef.Obj? && UniqueKeys(InitialColumnDef.fields)
    ensures Prop(InitialColumnDef, "append").Arr? && Prop(InitialColumnDef, "edit").Arr?
    ensures Lookup(InitialColumnDef.fields, "access").None?
  {
    var fs := InitialColumnDef.fields;
    forall i | 0 <= i < |fs| ensures fs[i].key != "access" {
      assert fs[i].key[0] != 'a' || fs[i].key[1] != 'c';
    }
  }

  /** No merged definition has the key `access` that `removeColumn` reads. */
  lemma NoAccessKey(config: Value, columnDef: Value)
    requires columnDef.Obj? && UniqueKeys(columnDef.fields) && !HasKey(columnDef.fields, "access")
    requires ColumnsDefinition(config, columnDef).Ok?
    ensures Prop(ColumnsDefinition(config, columnDef).value, "access") == Undefined
  {
    var base := IntersectKey(Config.ConfigGet(config, ["columns"], None), Allowed).value;
    ReplaceObjects(base.fields, columnDef.fields, "access");
    assert "access" !in Allowed;
  }

  /** Two `makeHidden` calls with lists of names: the second list
      overwrites the first position by position instead of adding to it. */
  lemma HiddenOverlay(first: seq<Value>, second: seq<Value>)
    requires forall j :: 0 <= j < |first| ==> !IsObject(first[j])
    requires forall j :: 0 <= j < |second| ==> !IsObject(second[j])
    ensures ArrayMergeRecursive(Arr([]), Arr(first)) == Ok(Arr(first))
    ensures ArrayMergeRecursive(Arr(first), Arr(second)) == Ok(Arr(Overlay(first, second)))
  {
    ReplaceArrays([], first);
    assert Overlay([], first) == first;
    ReplaceArrays(first, second);
  }
}
