/** The query-builder engines: `DatabaseDataTable` of
    src/engines/database_datatable.ts and its subclass `LucidDataTable` of
    src/engines/lucid_datatable.ts, which searches through eager-loaded
    relations, joins them for ordering and reads the model's primary key.
    The query builder is the log of the calls made on it (see `Sql`); the
    row counts the database would answer are inputs. */
module Database {
  import opened Wrappers
  import opened Strings
  import opened Values
  import opened Sql
  import Helper
  import Config
  import Request
  import Registry

  // ----- the Lucid model ---------------------------------------------------

  /** The relation types of Lucid; only `belongsTo` can be joined. */
  datatype RelationKind = BelongsTo | HasOne | HasMany | ManyToMany | HasManyThrough

  /** One key of the model's `$relationsDefinitions`, with what
      `$getRelation(name)` tells of it. */
  datatype Relation = Relation(name: string, kind: RelationKind, relatedTable: string,
                               foreignKey: string, localKey: string)

  /** What the Lucid engine reads of the model behind its query. */
  datatype Model = Model(name: string, table: string, primaryKey: Value, relations: seq<Relation>)

  /** `$getRelation(name)`: the relation of that name, the first one should
      the list repeat a name. */
  function FindRelation(relations: seq<Relation>, name: string): (r: Option<Relation>)
    ensures r.Some? ==> r.value in relations && r.value.name == name
    ensures r.None? <==> forall k :: 0 <= k < |relations| ==> relations[k].name != name
  {
    if relations == [] then None
    else if relations[0].name == name then Some(relations[0])
    else
      var r := FindRelation(relations[1..], name);
      assert forall k :: 1 <= k < |relations| ==> relations[k] == relations[1..][k - 1];
      r
  }

  /** `isNotEagerLoaded(relation)`: the empty prefix, a name the model does
      not define, and the model's own name are no relation to go through. */
  predicate IsNotEagerLoaded(m: Model, relation: string) {
    relation == "" || FindRelation(m.relations, relation).None? || relation == m.name
  }

  /** The relation prefix of a column: its dot-separated parts without the
      last, joined again. */
  function RelationPath(column: string): string {
    var parts := Split(column, ".");
    Join(parts[..|parts| - 1], ".")
  }

  /** The column part of a column: its last dot-separated part. */
  function ColumnPart(column: string): string {
    Helper.Last(Split(column, "."))
  }

  /** A qualified name splits into the prefix's parts and the column. */
  lemma SplitQualified(prefix: string, column: string)
    requires '.' !in column
    ensures Split(prefix + "." + column, ".") == Split(prefix, ".") + [column]
  {
    var parts := Split(prefix, ".");
    SplitPartsFree(prefix, ".");
    forall k | 0 <= k < |parts| ensures '.' !in parts[k] {
      ContainsChar(parts[k], '.');
    }
    JoinSplit(prefix, ".");
    Helper.JoinSnoc(parts, column, ".");
    SplitJoin(parts + [column], '.');
  }

  /** `relation.column` is taken apart into the relation and the column. */
  lemma QualifiedParts(relation: string, column: string)
    requires '.' !in column
    ensures RelationPath(relation + "." + column) == relation
    ensures ColumnPart(relation + "." + column) == column
  {
    SplitQualified(relation, column);
    var parts := Split(relation + "." + column, ".");
    assert parts[..|parts| - 1] == Split(relation, ".");
    JoinSplit(relation, ".");
  }

  // ----- joins ----------------------------------------------------------------

  /** The join `joinEagerLoadedColumn` records for one relation segment,
      looked up on the root model: a missing relation has no `type` to read,
      a relation other than `belongsTo` is refused, and a `belongsTo` joins
      its related table on the root table's foreign key. */
  function JoinCall(m: Model, segment: string): (r: Result<Call>)
    ensures FindRelation(m.relations, segment).None? ==> r == Err(TypeError)
    ensures FindRelation(m.relations, segment).Some? && !FindRelation(m.relations, segment).value.kind.BelongsTo?
            ==> r == Err("Relation " + segment + " is not yet supported.")
    ensures r.Ok? ==> FindRelation(m.relations, segment).Some? && FindRelation(m.relations, segment).value.kind.BelongsTo?
    ensures r.Ok? ==> var rel := FindRelation(m.relations, segment).value;
                      r.value == LeftJoin(rel.relatedTable, m.table + "." + rel.foreignKey, "=",
                                          rel.relatedTable + "." + rel.localKey)
  {
    match FindRelation(m.relations, segment)
    case None => Err(TypeError)
    case Some(rel) =>
      if rel.kind.BelongsTo? then
        Ok(LeftJoin(rel.relatedTable, m.table + "." + rel.foreignKey, "=", rel.relatedTable + "." + rel.localKey))
      else Err("Relation " + segment + " is not yet supported.")
  }

  /** The join step for segment `i` of a relation path. */
  function JoinAt(m: Model, segments: seq<string>, i: nat): Run {
    if i < |segments| then Single(JoinCall(m, segments[i])) else Run([], Done)
  }

  function JoinStep(m: Model, segments: seq<string>): nat -> Run {
    (i: nat) => JoinAt(m, segments, i)
  }

  /** The joins for the segments of a relation path, one after another. */
  function Joins(m: Model, segments: seq<string>): Run {
    Steps(|segments|, JoinStep(m, segments))
  }

  /** The table the last segment joined (`''` before any segment). */
  function TableAfter(m: Model, segments: seq<string>): string {
    if segments == [] then ""
    else
      var rel := FindRelation(m.relations, segments[|segments| - 1]);
      if rel.Some? then rel.value.relatedTable else ""
  }

  /** The column `joinEagerLoadedColumn` answers: the column on the table
      the last segment joined. */
  function JoinedColumn(m: Model, segments: seq<string>, column: string): string {
    TableAfter(m, segments) + "." + column
  }

  /** A segment that cannot be joined ends the joins with its error. */
  lemma JoinsStopAt(m: Model, segments: seq<string>, step: nat -> Run, i: nat)
    requires forall j: nat {:trigger step(j)} :: step(j) == JoinAt(m, segments, j)
    requires i < |segments| && Steps(i, step).outcome == Done && JoinCall(m, segments[i]).Err?
    ensures Steps(|segments|, step) == Run(Steps(i, step).calls, Thrown(JoinCall(m, segments[i]).message))
  {
    assert step(i) == Single(JoinCall(m, segments[i]));
    StepsStop(|segments|, step, i);
    assert Steps(i, step).calls + step(i).calls == Steps(i, step).calls;
  }

  /** A segment that can be joined adds its join and becomes the last
      joined table. */
  lemma JoinsNextAt(m: Model, segments: seq<string>, step: nat -> Run, i: nat)
    requires forall j: nat {:trigger step(j)} :: step(j) == JoinAt(m, segments, j)
    requires i < |segments| && JoinCall(m, segments[i]).Ok?
    ensures Steps(i + 1, step) == Then(Steps(i, step), Run([JoinCall(m, segments[i]).value], Done))
    ensures TableAfter(m, segments[..i + 1]) == FindRelation(m.relations, segments[i]).value.relatedTable
  {
    assert step(i) == Single(JoinCall(m, segments[i]));
    assert segments[..i + 1][i] == segments[i];
  }

  /** What `resolveRelationColumn(column)` records and answers. */
  datatype Resolved = Resolved(run: Run, column: string)

  // ----- what a table reads ----------------------------------------------------

  /** The state a database table reads while it builds its query: the
      registry's configuration, request, columns and definition, the
      overrides registered with `filterColumn` and `orderColumn`, the
      connection's dialect, the table the query reads (`from`), and the
      model when the query is a Lucid model query. */
  datatype Table = Table(config: Value, params: Value, columns: Value, columnDef: Value,
                         extraColumns: seq<string>, filters: seq<Field>, orders: seq<Field>,
                         dialect: Dialect, from: string, model: Option<Model>)

  /** `getPrimaryKeyName()`: the model's `primaryKey` for Lucid, `'id'`
      otherwise. */
  function PrimaryKey(t: Table): (r: Value)
    ensures t.model.Some? ==> r == t.model.value.primaryKey
    ensures t.model.None? ==> r == Str("id")
  {
    if t.model.Some? then t.model.value.primaryKey else Str("id")
  }

  /** `getColumnName(index, wantsAlias)`; `None` is the `null` it answers
      for a column the request does not name. */
  function ColumnName(t: Table, index: int, wantsAlias: bool): Result<Option<string>> {
    Registry.GetColumnName(t.params, t.columns, t.extraColumns, PrimaryKey(t), index, wantsAlias)
  }

  function NameValue(name: Option<string>): Value {
    if name.Some? then Str(name.value) else Null
  }

  /** The property key a column name reads: `null` becomes `'null'`. */
  function NameKey(name: Option<string>): string {
    if name.Some? then name.value else "null"
  }

  /** `isBlacklisted(column)` for a name or `null`. */
  function IsBlacklisted(t: Table, name: Option<string>): Result<bool> {
    Registry.BlacklistedValue(t.config, t.columnDef, NameValue(name))
  }

  /** `hasFilterColumn(column)`. */
  predicate HasFilter(t: Table, column: string) {
    Registry.HasNamedEntry(t.filters, column)
  }

  /** `hasOrderColumn(column)`. */
  predicate HasOrder(t: Table, column: string) {
    Registry.HasNamedEntry(t.orders, column)
  }

  function Flags(t: Table): Config.Flags {
    Config.FlagsOf(t.config)
  }

  /** `resolveRelationColumn(column)`: the database engine keeps the column;
      the Lucid engine keeps it unless its prefix is an eager-loaded
      relation, which it joins. */
  function Resolve(t: Table, column: string): (r: Resolved)
    ensures t.model.None? ==> r == Resolved(Run([], Done), column)
    ensures t.model.Some? && IsNotEagerLoaded(t.model.value, RelationPath(column)) ==> r == Resolved(Run([], Done), column)
  {
    match t.model
    case None => Resolved(Run([], Done), column)
    case Some(m) =>
      var relation := RelationPath(column);
      if IsNotEagerLoaded(m, relation) then Resolved(Run([], Done), column)
      else
        var segments := Split(relation, ".");
        Resolved(Joins(m, segments), JoinedColumn(m, segments, ColumnPart(column)))
  }

  // ----- column search ------------------------------------------------------------

  /** `request.columnKeyword(i)`, as the text the engine binds. */
  function ColumnKeyword(params: Value, i: int): string {
    ToJsString(Request.ColumnKeyword(Request.Legacy, params, i))
  }

  /** `getColumnSearchKeyword(i, raw)`: the keyword as typed for a filter
      override or a regular expression, else through `setupKeyword`. */
  function SearchKeyword(t: Table, i: int, raw: bool): string {
    var keyword := ColumnKeyword(t.params, i);
    if raw || Request.IsRegex(Request.Legacy, t.params, i) then keyword
    else Registry.SetupKeyword(t.config, keyword)
  }

  /** `applyFilterColumn(query, column, keyword)`: the registered callback is
      handed the query and the keyword; the `length` entry of the `filter`
      array has no `method` to call. */
  function FilterCall(t: Table, column: string, keyword: string): (r: Result<Call>)
    ensures var entry := Lookup(t.filters, column);
            entry.Some? && Prop(entry.value, "method").Fun? ==> r == Ok(Invoke(Prop(entry.value, "method").id, [keyword]))
    ensures r.Ok? ==> r.value.Invoke? && r.value.args == [keyword]
  {
    var entry := if HasKey(t.filters, column) then Lookup(t.filters, column).value else Num(0);
    var callback := Prop(entry, "method");
    if callback.Fun? then Ok(Invoke(callback.id, [keyword])) else Err(TypeError)
  }

  /** `compileQuerySearch(query, column, keyword, boolean)` on a builder
      reading `table`. The Lucid engine searches a column whose prefix is an
      eager-loaded relation through `whereHas`/`orWhereHas`, with the inner
      search on the related table's column. */
  function CompileSearch(t: Table, table: string, column: string, keyword: string, conj: Conjunction): (c: Call)
    ensures t.model.None? ==> c == LikeSearch(t.dialect, Flags(t), table, column, keyword, conj)
  {
    match t.model
    case None => LikeSearch(t.dialect, Flags(t), table, column, keyword, conj)
    case Some(m) =>
      var relation := RelationPath(column);
      if IsNotEagerLoaded(m, relation) then LikeSearch(t.dialect, Flags(t), table, column, keyword, conj)
      else
        var related := FindRelation(m.relations, relation).value.relatedTable;
        var inner := [LikeSearch(t.dialect, Flags(t), related, ColumnPart(column), keyword, AndWhere)];
        if conj.OrWhere? then OrWhereHas(relation, inner) else WhereHas(relation, inner)
  }

  /** `compileColumnSearch(i, column, keyword)` with the keyword of
      `getColumnSearchKeyword(i)`. */
  function CompileColumnSearch(t: Table, i: int, column: string): Call {
    var keyword := SearchKeyword(t, i, false);
    if Request.IsRegex(Request.Legacy, t.params, i) then RegexSearch(t.dialect, Flags(t).caseInsensitive, column, keyword)
    else CompileSearch(t, t.from, column, keyword, AndWhere)
  }

  /** One turn of the `columnSearch` loop: columns the request does not
      name and unsearchable columns are skipped. */
  function ColumnStep(t: Table, i: nat): Run {
    match ColumnName(t, i, false)
    case Err(e) => Run([], Thrown(e))
    case Ok(None) => Run([], Done)
    case Ok(Some(column)) =>
      if !Request.IsColumnSearchable(Request.Legacy, t.params, i, true) then Run([], Done)
      else NamedColumnStep(t, i, column)
  }

  /** The rest of a turn for a named searchable column: blacklisted columns
      without a filter override are skipped; an override gets the keyword
      as typed; any other column is resolved (joined) and searched. */
  function NamedColumnStep(t: Table, i: nat, column: string): Run {
    match IsBlacklisted(t, Some(column))
    case Err(e) => Run([], Thrown(e))
    case Ok(listed) =>
      if listed && !HasFilter(t, column) then Run([], Done)
      else if HasFilter(t, column) then Single(FilterCall(t, column, SearchKeyword(t, i, true)))
      else ResolvedSearch(t, i, column)
  }

  /** A column without override: resolved (joined), then searched. */
  function ResolvedSearch(t: Table, i: nat, column: string): Run {
    var resolved := Resolve(t, column);
    Then(resolved.run, Run([CompileColumnSearch(t, i, resolved.column)], Done))
  }

  function ColumnSteps(t: Table): nat -> Run {
    (i: nat) => ColumnStep(t, i)
  }

  /** `columnSearch()`: one turn per request column; reading the length of
      missing columns throws. */
  function ColumnSearchRun(t: Table): Run {
    if IsNullish(Request.Columns(Request.Legacy, t.params)) then Run([], Thrown(TypeError))
    else Steps(Request.ColumnCount(Request.Legacy, t.params), ColumnSteps(t))
  }

  // ----- global search -------------------------------------------------------------

  /** `.map(index => getColumnName(index))` over the searchable indices. */
  function ColumnNames(t: Table, indices: seq<nat>): (r: Result<seq<Option<string>>>)
    ensures r.Ok? ==> |r.value| == |indices|
    ensures r.Ok? ==> forall k :: 0 <= k < |indices| ==> ColumnName(t, indices[k], false) == Ok(r.value[k])
  {
    if indices == [] then Ok([])
    else
      var first :- ColumnName(t, indices[0], false);
      var rest :- ColumnNames(t, indices[1..]);
      assert forall k :: 1 <= k < |indices| ==> indices[k] == indices[1..][k - 1];
      Ok([first] + rest)
  }

  /** Blacklisted without a filter override. */
  predicate Rejected(t: Table, name: Option<string>) {
    IsBlacklisted(t, name) == Ok(true) && !HasFilter(t, NameKey(name))
  }

  /** `.reject(column => isBlacklisted(column) && !hasFilterColumn(column))`. */
  function Unrejected(t: Table, names: seq<Option<string>>): (r: Result<seq<Option<string>>>)
    ensures r.Ok? ==> forall n :: n in r.value <==> n in names && !Rejected(t, n)
    ensures r.Ok? ==> forall n :: n in names ==> IsBlacklisted(t, n).Ok?
  {
    if names == [] then Ok([])
    else
      var listed :- IsBlacklisted(t, names[0]);
      var rest :- Unrejected(t, names[1..]);
      assert forall n :: n in names <==> n == names[0] || n in names[1..];
      if listed && !HasFilter(t, NameKey(names[0])) then Ok(rest) else Ok([names[0]] + rest)
  }

  /** One kept column inside the group: its filter override gets the keyword
      as typed; any other column is searched with `orWhereRaw` on the
      group's builder, whose SQL names no table; a `null` column cannot be
      split or searched. */
  function GlobalCall(t: Table, name: Option<string>, keyword: string): Result<Call> {
    if HasFilter(t, NameKey(name)) then FilterCall(t, NameKey(name), keyword)
    else if name.None? then Err(TypeError)
    else Ok(CompileSearch(t, "", name.value, keyword, OrWhere))
  }

  function GlobalCalls(t: Table, names: seq<Option<string>>, keyword: string): (r: Result<seq<Call>>)
    ensures r.Ok? ==> |r.value| == |names|
    ensures r.Ok? ==> forall k :: 0 <= k < |names| ==> GlobalCall(t, names[k], keyword) == Ok(r.value[k])
  {
    if names == [] then Ok([])
    else
      var first :- GlobalCall(t, names[0], keyword);
      var rest :- GlobalCalls(t, names[1..], keyword);
      assert forall k :: 1 <= k < |names| ==> names[k] == names[1..][k - 1];
      Ok([first] + rest)
  }

  /** The calls `globalSearch(keyword)` makes inside its grouped `where`. */
  function GlobalGroup(t: Table, keyword: string): Result<seq<Call>> {
    var indices :- Request.SearchableIndices(Request.Legacy, t.params);
    var names :- ColumnNames(t, indices);
    var kept :- Unrejected(t, names);
    GlobalCalls(t, kept, keyword)
  }

  /** `globalSearch(keyword)`: one grouped `where`. */
  function GlobalSearchCall(t: Table, keyword: string): Result<Call> {
    var group :- GlobalGroup(t, keyword);
    Ok(Where(group))
  }

  /** The keywords `filtering()` searches for. */
  function Terms(t: Table): seq<string> {
    Registry.SearchTerms(ToJsString(Request.Keyword(Request.Legacy, t.params)), Flags(t).multiTerm)
  }

  /** The turn of `filtering()` for the `i`-th keyword. */
  function TermStep(t: Table, terms: seq<string>, i: nat): Run {
    if i < |terms| then Single(GlobalSearchCall(t, terms[i])) else Run([], Done)
  }

  function TermSteps(t: Table, terms: seq<string>): nat -> Run {
    (i: nat) => TermStep(t, terms, i)
  }

  /** `filtering()`: one global search per keyword. */
  function FilteringRun(t: Table): Run {
    Steps(|Terms(t)|, TermSteps(t, Terms(t)))
  }

  /** The calls of `filterRecords()`: the global search when automatic
      filtering is on and the request searches, the filter callback, then
      the column search. */
  function FilterRun(t: Table, autoFilter: bool, filterCallback: Value): Run {
    var global := if autoFilter && Request.IsSearchable(Request.Legacy, t.params) then FilteringRun(t) else Run([], Done);
    var callback := if filterCallback.Fun? then Run([Invoke(filterCallback.id, [])], Done) else Run([], Done);
    Then(Then(global, callback), ColumnSearchRun(t))
  }

  // ----- ordering -------------------------------------------------------------------

  /** An order directive with the column name `defaultOrdering` read for it. */
  datatype Orderable = Orderable(name: Option<string>, direction: string)

  /** `.map(orderable => name = getColumnName(orderable.column, true))`. */
  function OrderNames(t: Table, ds: seq<Request.OrderDirective>): (r: Result<seq<Orderable>>)
    ensures r.Ok? ==> |r.value| == |ds|
    ensures r.Ok? ==> forall k :: 0 <= k < |ds| ==>
              r.value[k].direction == ds[k].direction
              && ColumnName(t, Request.AsInt(ds[k].column), true) == Ok(r.value[k].name)
  {
    if ds == [] then Ok([])
    else
      var first :- ColumnName(t, Request.AsInt(ds[0].column), true);
      var rest :- OrderNames(t, ds[1..]);
      assert forall k :: 1 <= k < |ds| ==> ds[k] == ds[1..][k - 1];
      Ok([Orderable(first, ds[0].direction)] + rest)
  }

  /** Blacklisted without an order override. */
  predicate OrderRejected(t: Table, o: Orderable) {
    IsBlacklisted(t, o.name) == Ok(true) && !HasOrder(t, NameKey(o.name))
  }

  /** `.reject(orderable => isBlacklisted(name) && !hasOrderColumn(name))`. */
  function OrderKept(t: Table, os: seq<Orderable>): (r: Result<seq<Orderable>>)
    ensures r.Ok? ==> forall o :: o in r.value <==> o in os && !OrderRejected(t, o)
    ensures r.Ok? ==> forall o :: o in os ==> IsBlacklisted(t, o.name).Ok?
  {
    if os == [] then Ok([])
    else
      var listed :- IsBlacklisted(t, os[0].name);
      var rest :- OrderKept(t, os[1..]);
      assert forall o :: o in os <==> o == os[0] || o in os[1..];
      if listed && !HasOrder(t, NameKey(os[0].name)) then Ok(rest) else Ok([os[0]] + rest)
  }

  /** The `order` entry of a column: the registered `{ sql, bindings }`, or
      the `order` array's own `length`. */
  function OrderEntry(t: Table, column: string): Value {
    if HasKey(t.orders, column) then Lookup(t.orders, column).value else Num(0)
  }

  /** `applyOrderColumn(column, orderable)`: `sql === false` orders by
      nothing, a function is handed the query and the direction, a string
      has its first `$1` replaced by the direction and goes to `orderByRaw`
      with the registered bindings; anything else has no `replace`. */
  function OrderColumnRun(t: Table, column: string, direction: string): Run {
    var entry := OrderEntry(t, column);
    var sql := Prop(entry, "sql");
    if StrictEquals(sql, Bool(false)) then Run([], Done)
    else if sql.Fun? then Run([Invoke(sql.id, [direction])], Done)
    else if sql.Str? then Run([OrderByRaw(OrderSql(sql.s, direction), Prop(entry, "bindings"))], Done)
    else Run([], Thrown(TypeError))
  }

  /** The ordering of a column without override: the nulls-last template is
      filled (and can throw) whether or not it is used; without nulls-last
      the quoted column and the direction are ordered by. */
  function PlainOrder(t: Table, nullsLast: bool, column: string, direction: string): Run {
    match NullsLastSql(t.config, column, direction)
    case Err(e) => Run([], Thrown(e))
    case Ok(sql) =>
      Run([OrderByRaw(if nullsLast then sql else Helper.Wrap(column) + " " + direction, Undefined)], Done)
  }

  /** The plain ordering as written: `normalSql` is built with `wrapColumn`
      (which throws, see `WrapColumnAsWritten`) whether or not nulls-last is
      on, so no column without an override is ever ordered by. */
  function PlainOrderAsWritten(t: Table, nullsLast: bool, column: string, direction: string): (r: Run)
    ensures r.calls == [] && r.outcome.Thrown?
    ensures NullsLastSql(t.config, column, direction).Ok? ==> r.outcome == Thrown(TypeError)
  {
    match NullsLastSql(t.config, column, direction)
    case Err(e) => Run([], Thrown(e))
    case Ok(sql) =>
      match WrapColumnAsWritten(column)
      case Err(e) => Run([], Thrown(e))
      case Ok(_) => PlainOrder(t, nullsLast, column, direction)
  }

  /** One turn of the `.each` of `defaultOrdering`. A `null` name cannot be
      split by the Lucid engine, and for the database engine only an
      override stored under `'null'` avoids quoting it, which throws. */
  function OrderStep(t: Table, nullsLast: bool, o: Orderable): Run {
    match o.name
    case None =>
      if t.model.Some? then Run([], Thrown(TypeError))
      else if HasOrder(t, "null") then OrderColumnRun(t, "null", o.direction)
      else
        (match NullsLastSql(t.config, "null", o.direction)
         case Err(e) => Run([], Thrown(e))
         case Ok(_) => Run([], Thrown(TypeError)))
    case Some(name) =>
      var resolved := Resolve(t, name);
      Then(resolved.run, NamedOrder(t, nullsLast, name, resolved.column, o.direction))
  }

  /** A named directive once its column is resolved: an override stored
      under the name, else one under the resolved column, else the plain
      clause. */
  function NamedOrder(t: Table, nullsLast: bool, name: string, column: string, direction: string): Run {
    if HasOrder(t, name) then OrderColumnRun(t, name, direction)
    else if HasOrder(t, column) then OrderColumnRun(t, column, direction)
    else PlainOrder(t, nullsLast, column, direction)
  }

  /** The turn of `defaultOrdering()` for the `i`-th kept directive. */
  function OrderStepAt(t: Table, nullsLast: bool, kept: seq<Orderable>, i: nat): Run {
    if i < |kept| then OrderStep(t, nullsLast, kept[i]) else Run([], Done)
  }

  function OrderSteps(t: Table, nullsLast: bool, kept: seq<Orderable>): nat -> Run {
    (i: nat) => OrderStepAt(t, nullsLast, kept, i)
  }

  /** `defaultOrdering()`. */
  function DefaultOrderingRun(t: Table, nullsLast: bool): Run {
    match Request.OrderableColumnsSpec(Request.Legacy, t.params)
    case Err(e) => Run([], Thrown(e))
    case Ok(ds) =>
      match OrderNames(t, ds)
      case Err(e) => Run([], Thrown(e))
      case Ok(os) =>
        match OrderKept(t, os)
        case Err(e) => Run([], Thrown(e))
        case Ok(kept) => Steps(|kept|, OrderSteps(t, nullsLast, kept))
  }

  /** `ordering()`: nothing when user ordering is disabled, else the order
      callback (handed the query) or the default ordering. */
  function OrderingRun(t: Table, disable: bool, orderCallback: Value, nullsLast: bool): Run {
    if disable then Run([], Done)
    else if Registry.UsesOrderCallback(orderCallback) then Run([Invoke(orderCallback.id, [])], Done)
    else DefaultOrderingRun(t, nullsLast)
  }

  // ----- paging ----------------------------------------------------------------------

  /** `length > 0 ? length : 10`. */
  function PageSize(length: Value): (r: Value)
    ensures Request.Positive(length) ==> r == length
    ensures !Request.Positive(length) ==> r == Num(10)
  {
    if Request.Positive(length) then length else Num(10)
  }

  /** `paging()`: `offset(start).limit(limit)`. */
  function PagingCalls(params: Value): seq<Call> {
    [Offset(Request.Start(Request.Legacy, params)), Limit(PageSize(Request.Length(Request.Legacy, params)))]
  }

  /** `paginate()`. */
  function PaginateCalls(params: Value, skipPaging: bool): seq<Call> {
    if Registry.ShouldPaginate(params, skipPaging) then PagingCalls(params) else []
  }

  /** The calls the first `prepareQuery()` makes: filtering, ordering, paging. */
  function PrepareRun(t: Table, autoFilter: bool, filterCallback: Value, disable: bool,
                      orderCallback: Value, nullsLast: bool, skipPaging: bool): Run {
    Then(Then(FilterRun(t, autoFilter, filterCallback), OrderingRun(t, disable, orderCallback, nullsLast)),
         Run(PaginateCalls(t.params, skipPaging), Done))
  }

  // ----- appends and the reply ------------------------------------------------------

  /** An appended value as `attachAppends` sends it: a function is called
      with the filtered query and its answer read with `value`. */
  function EvaluatedAppend(v: Value): Value {
    if v.Fun? then Helper.ValueOf(v.result) else v
  }

  /** The appends copied one by one into `{}`. */
  function EvaluatedAppends(entries: seq<Field>): seq<Field>
    decreases |entries|
  {
    if entries == [] then []
    else
      var last := entries[|entries| - 1];
      Assign(EvaluatedAppends(entries[..|entries| - 1]), last.key, EvaluatedAppend(last.val))
  }

  /** The appends of the database engine's `attachAppends`, with
      `disableOrdering` last. */
  function AttachedAppends(appends: Value, disable: bool): seq<Field> {
    Assign(EvaluatedAppends(Entries(appends)), "disableOrdering", Bool(disable))
  }

  /** The error envelope as `errorResponse` sends it. */
  function ErrorReply(params: Value, total: int, message: string): Registry.Response {
    Registry.Response(200, [], Obj(Registry.ErrorEnvelope(Request.Draw(Request.Legacy, params), total, message)))
  }

  /** The reply of `results()` once the query is prepared: the rendered
      envelope, or the error envelope when rendering throws. */
  function Reply(config: Value, params: Value, total: int, filtered: int, data: Value, appends: Value): Registry.Response {
    match Registry.RenderFixed(config, params, total, filtered, data, appends)
    case Ok(r) => r
    case Err(e) => ErrorReply(params, total, e)
  }

  /** What a pending promise turns into in a JSON body. */
  const PendingPromise: Value := Obj([])

  /** The reply of `results()` as written: the processor's promise is not
      awaited, so it is the promise that is rendered. */
  function ReplyAsWritten(config: Value, params: Value, total: int, filtered: int, rows: seq<Value>,
                          appends: Value): Registry.Response {
    Reply(config, params, total, filtered, PendingPromise, appends)
  }

  /** `orderColumn` of every column `orderColumns(columns, sql, bindings)`
      names, each with its own `:column` substitution. */
  function OrdersAfter(orders: seq<Field>, columns: seq<string>, sql: string, bindings: Value): seq<Field>
    decreases |columns|
  {
    if columns == [] then orders
    else
      var c := columns[|columns| - 1];
      Assign(OrdersAfter(orders, columns[..|columns| - 1], sql, bindings), c,
             Obj([Field("sql", Str(ReplaceFirst(sql, ":column", c))), Field("bindings", bindings)]))
  }

  // ----- the engine -------------------------------------------------------------------

  /** A `DatabaseDataTable`, or a `LucidDataTable` when `model` is present.
      `dt` is the registry every engine shares; `log` is what the query
      builder has been asked to do so far. */
  class DatabaseTable {
    const dt: Registry.DataTable
    const dialect: Dialect
    const from: string
    const model: Option<Model>
    var log: seq<Call>
    var prepared: bool
    var nullsLast: bool
    var disableUserOrdering: bool

    /** `new DatabaseDataTable(query)`: `$columns` are the query's selected
        columns. */
    constructor(config: Value, params: Value, columns: Value, dialect: Dialect, from: string, model: Option<Model>)
      ensures fresh(dt) && dt.Valid()
      ensures dt.config == config && dt.params == params && dt.columns == columns
      ensures dt.filters == [] && dt.orders == [] && dt.totalRecords == 0 && dt.filteredRecords == 0
      ensures this.dialect == dialect && this.from == from && this.model == model
      ensures log == [] && !prepared && !nullsLast && !disableUserOrdering
    {
      dt := new Registry.DataTable(config, params, columns);
      this.dialect := dialect;
      this.from := from;
      this.model := model;
      log := [];
      prepared := false;
      nullsLast := false;
      disableUserOrdering := false;
    }

    /** What the table reads while it builds the query. */
    function State(): Table
      reads dt`columns, dt`columnDef, dt`extraColumns, dt`filters, dt`orders
    {
      Table(dt.config, dt.params, dt.columns, dt.columnDef, dt.extraColumns, dt.filters, dt.orders,
            dialect, from, model)
    }

    /** `joinEagerLoadedColumn(relation, relationColumn)`: every segment is
        looked up on the root model and joined in turn; the answer is the
        column on the last joined table. */
    method JoinEagerLoadedColumn(relation: string, relationColumn: string) returns (o: Outcome, column: string)
      requires model.Some?
      modifies this`log
      ensures var segments := Split(relation, ".");
              var run := Joins(model.value, segments);
              log == old(log) + run.calls && o == run.outcome
              && (o == Done ==> column == JoinedColumn(model.value, segments, relationColumn))
    {
      var segments := Split(relation, ".");
      var tableName;
      o, tableName := JoinSegments(model.value, segments, JoinStep(model.value, segments));
      if o.Thrown? {
        return o, "";
      }
      column := tableName + "." + relationColumn;
    }

    /** The loop of `joinEagerLoadedColumn`, over a step known only by its
        value at each segment. */
    method JoinSegments(m: Model, segments: seq<string>, ghost step: nat -> Run) returns (o: Outcome, tableName: string)
      requires forall i: nat {:trigger step(i)} :: step(i) == JoinAt(m, segments, i)
      modifies this`log
      ensures log == old(log) + Steps(|segments|, step).calls && o == Steps(|segments|, step).outcome
      ensures o == Done ==> tableName == TableAfter(m, segments)
    {
      tableName := "";
      var i := 0;
      while i < |segments|
        invariant 0 <= i <= |segments|
        invariant log == old(log) + Steps(i, step).calls && Steps(i, step).outcome == Done
        invariant tableName == TableAfter(m, segments[..i])
      {
        var join := JoinCall(m, segments[i]);
        if join.Err? {
          JoinsStopAt(m, segments, step, i);
          o := Thrown(join.message);
          return;
        }
        JoinsNextAt(m, segments, step, i);
        tableName := FindRelation(m.relations, segments[i]).value.relatedTable;
        log := log + [join.value];
        i := i + 1;
      }
      assert segments[..i] == segments;
      o := Done;
    }

    /** `resolveRelationColumn(column)`. */
    method ResolveRelationColumn(column: string) returns (o: Outcome, resolved: string)
      modifies this`log
      ensures var r := Resolve(State(), column);
              log == old(log) + r.run.calls && o == r.run.outcome && (o == Done ==> resolved == r.column)
    {
      if model.None? || IsNotEagerLoaded(model.value, RelationPath(column)) {
        return Done, column;
      }
      o, resolved := JoinEagerLoadedColumn(RelationPath(column), ColumnPart(column));
    }

    /** One turn of the `columnSearch` loop. */
    method SearchColumn(i: nat) returns (o: Outcome)
      modifies this`log
      ensures log == old(log) + ColumnStep(State(), i).calls && o == ColumnStep(State(), i).outcome
    {
      var t := State();
      var name := ColumnName(t, i, false);
      if name.Err? {
        return Thrown(name.message);
      }
      if name.value.None? || !Request.IsColumnSearchable(Request.Legacy, t.params, i, true) {
        return Done;
      }
      o := SearchNamedColumn(i, name.value.value);
    }

    /** The turn for a named searchable column. */
    method SearchNamedColumn(i: nat, column: string) returns (o: Outcome)
      modifies this`log
      ensures log == old(log) + NamedColumnStep(State(), i, column).calls && o == NamedColumnStep(State(), i, column).outcome
    {
      var t := State();
      var listed := IsBlacklisted(t, Some(column));
      if listed.Err? {
        return Thrown(listed.message);
      }
      if listed.value && !HasFilter(t, column) {
        return Done;
      }
      if HasFilter(t, column) {
        var call := FilterCall(t, column, SearchKeyword(t, i, true));
        if call.Err? {
          return Thrown(call.message);
        }
        log := log + [call.value];
        return Done;
      }
      o := SearchResolvedColumn(i, column);
    }

    /** Resolving and searching a column without override. */
    method SearchResolvedColumn(i: nat, column: string) returns (o: Outcome)
      modifies this`log
      ensures log == old(log) + ResolvedSearch(State(), i, column).calls && o == ResolvedSearch(State(), i, column).outcome
    {
      var t := State();
      var resolved;
      o, resolved := ResolveRelationColumn(column);
      if o == Done {
        log := log + [CompileColumnSearch(t, i, resolved)];
      }
    }

    method SearchColumnAs(t: Table, i: nat, ghost step: nat -> Run) returns (o: Outcome)
      requires t == State()
      requires forall i {:trigger ColumnStep(t, i)} :: step(i) == ColumnStep(t, i)
      modifies this`log
      ensures log == old(log) + step(i).calls && o == step(i).outcome
    {
      o := SearchColumn(i);
      assert State() == t;
      assert step(i) == ColumnStep(t, i);
    }

    /** `columnSearch()`. */
    method ColumnSearch() returns (o: Outcome)
      modifies this`log
      ensures log == old(log) + ColumnSearchRun(State()).calls && o == ColumnSearchRun(State()).outcome
    {
      var t := State();
      if IsNullish(Request.Columns(Request.Legacy, t.params)) {
        return Thrown(TypeError);
      }
      o := SearchColumns(t, Request.ColumnCount(Request.Legacy, t.params), ColumnSteps(t));
    }

    /** The loop of `columnSearch()` over the first `n` columns; `step`
        stands for `ColumnStep(t, _)`, which it equals wherever that is
        mentioned. */
    method SearchColumns(t: Table, n: nat, ghost step: nat -> Run) returns (o: Outcome)
      requires t == State()
      requires forall i {:trigger ColumnStep(t, i)} :: step(i) == ColumnStep(t, i)
      modifies this`log
      ensures log == old(log) + Steps(n, step).calls && o == Steps(n, step).outcome
    {
      var index := 0;
      while index < n
        invariant 0 <= index <= n
        invariant log == old(log) + Steps(index, step).calls
        invariant Steps(index, step).outcome == Done
      {
        o := SearchColumnAs(t, index, step);
        if o.Thrown? {
          StepsStop(n, step, index);
          return;
        }
        index := index + 1;
      }
      return Done;
    }

    /** `globalSearch(keyword)`. */
    method GlobalSearch(keyword: string) returns (o: Outcome)
      modifies this`log
      ensures var r := Single(GlobalSearchCall(State(), keyword));
              log == old(log) + r.calls && o == r.outcome
    {
      var group := GlobalGroup(State(), keyword);
      if group.Err? {
        return Thrown(group.message);
      }
      log := log + [Where(group.value)];
      return Done;
    }

    /** `filtering()`, with `smartGlobalSearch` when multi-term search is on. */
    method Filtering() returns (o: Outcome)
      modifies this`log
      ensures log == old(log) + FilteringRun(State()).calls && o == FilteringRun(State()).outcome
    {
      var t := State();
      o := SearchEachTerm(t, Terms(t), TermSteps(t, Terms(t)));
    }

    /** The loop of `filtering()`; `step` stands for `TermStep(t, terms, _)`. */
    method SearchEachTerm(t: Table, terms: seq<string>, ghost step: nat -> Run) returns (o: Outcome)
      requires t == State()
      requires forall i {:trigger TermStep(t, terms, i)} :: step(i) == TermStep(t, terms, i)
      modifies this`log
      ensures log == old(log) + Steps(|terms|, step).calls && o == Steps(|terms|, step).outcome
    {
      var i := 0;
      while i < |terms|
        invariant 0 <= i <= |terms|
        invariant log == old(log) + Steps(i, step).calls
        invariant Steps(i, step).outcome == Done
      {
        o := SearchTermAs(t, terms, i, step);
        if o.Thrown? {
          StepsStop(|terms|, step, i);
          return;
        }
        i := i + 1;
      }
      return Done;
    }

    /** `globalSearch(terms[i])`, seen as the loop's turn `step(i)`. */
    method SearchTermAs(t: Table, terms: seq<string>, i: nat, ghost step: nat -> Run) returns (o: Outcome)
      requires t == State() && i < |terms|
      requires forall i {:trigger TermStep(t, terms, i)} :: step(i) == TermStep(t, terms, i)
      modifies this`log
      ensures log == old(log) + step(i).calls && o == step(i).outcome
    {
      o := GlobalSearch(terms[i]);
      assert step(i) == TermStep(t, terms, i);
    }

    /** The filters `filterRecords()` applies: the global search when
        automatic filtering is on and the request searches, the filter
        callback, then the column search. */
    method ApplyFilters() returns (o: Outcome)
      modifies this`log
      ensures var r := FilterRun(State(), dt.autoFilter, dt.filterCallback);
              log == old(log) + r.calls && o == r.outcome
    {
      var t := State();
      var searching := dt.autoFilter && Request.IsSearchable(Request.Legacy, t.params);
      ghost var global := if searching then FilteringRun(t) else Run([], Done);
      ghost var start := log;
      o := Done;
      if searching {
        o := Filtering();
        if o.Thrown? {
          return;
        }
      } else {
        assert log == start + global.calls;
      }
      ghost var callback := if dt.filterCallback.Fun? then Run([Invoke(dt.filterCallback.id, [])], Done) else Run([], Done);
      ghost var mid := log;
      if dt.filterCallback.Fun? {
        log := log + [Invoke(dt.filterCallback.id, [])];
      } else {
        assert log == mid + callback.calls;
      }
      LogThen(start, mid, log, global, callback);
      mid := log;
      o := ColumnSearch();
      LogThen(start, mid, log, Then(global, callback), ColumnSearchRun(t));
    }

    /** `filterRecords()`: the filters are applied, then the filtered count
        is read (a count already set wins); with `skipTotalRecords` the total
        becomes the filtered count. */
    method FilterRecords(counted: int) returns (o: Outcome)
      modifies this`log, dt`filteredRecords, dt`totalRecords
      ensures var r := FilterRun(State(), dt.autoFilter, dt.filterCallback);
              log == old(log) + r.calls && o == r.outcome
      ensures o == Done ==> dt.filteredRecords == Registry.CountOr(old(dt.filteredRecords), counted)
                            && dt.totalRecords == (if dt.skipTotal then dt.filteredRecords else old(dt.totalRecords))
      ensures o.Thrown? ==> dt.filteredRecords == old(dt.filteredRecords) && dt.totalRecords == old(dt.totalRecords)
    {
      o := ApplyFilters();
      if o.Thrown? {
        return;
      }
      dt.FilteredCount(counted);
      if dt.skipTotal {
        dt.SetTotalRecords(dt.filteredRecords);
      }
    }

    /** `applyOrderColumn(column, orderable)`. */
    method ApplyOrderColumn(column: string, direction: string) returns (o: Outcome)
      modifies this`log
      ensures var r := OrderColumnRun(State(), column, direction);
              log == old(log) + r.calls && o == r.outcome
    {
      var entry := OrderEntry(State(), column);
      var sql := Prop(entry, "sql");
      if StrictEquals(sql, Bool(false)) {
        return Done;
      }
      if sql.Fun? {
        log := log + [Invoke(sql.id, [direction])];
      } else if sql.Str? {
        log := log + [OrderByRaw(OrderSql(sql.s, direction), Prop(entry, "bindings"))];
      } else {
        return Thrown(TypeError);
      }
      return Done;
    }

    /** One turn of the `.each` of `defaultOrdering()`. */
    method OrderBy(orderable: Orderable) returns (o: Outcome)
      modifies this`log
      ensures var r := OrderStep(State(), nullsLast, orderable);
              log == old(log) + r.calls && o == r.outcome
    {
      var t := State();
      if orderable.name.None? {
        if model.Some? {
          return Thrown(TypeError);
        }
        if HasOrder(t, "null") {
          o := ApplyOrderColumn("null", orderable.direction);
          return;
        }
        var sql := NullsLastSql(t.config, "null", orderable.direction);
        return if sql.Err? then Thrown(sql.message) else Thrown(TypeError);
      }
      var name := orderable.name.value;
      ghost var start := log;
      var column;
      o, column := ResolveRelationColumn(name);
      if o.Thrown? {
        return;
      }
      ghost var mid := log;
      o := OrderNamed(name, column, orderable.direction);
      LogThen(start, mid, log, Resolve(t, name).run, NamedOrder(t, nullsLast, name, column, orderable.direction));
    }

    /** The rest of a turn once the directive's column is resolved. */
    method OrderNamed(name: string, column: string, direction: string) returns (o: Outcome)
      modifies this`log
      ensures var r := NamedOrder(State(), nullsLast, name, column, direction);
              log == old(log) + r.calls && o == r.outcome
    {
      var t := State();
      if HasOrder(t, name) {
        o := ApplyOrderColumn(name, direction);
      } else if HasOrder(t, column) {
        o := ApplyOrderColumn(column, direction);
      } else {
        var nullsLastSql := NullsLastSql(t.config, column, direction);
        if nullsLastSql.Err? {
          return Thrown(nullsLastSql.message);
        }
        var normalSql := Helper.Wrap(column) + " " + direction;
        log := log + [OrderByRaw(if nullsLast then nullsLastSql.value else normalSql, Undefined)];
        return Done;
      }
    }

    /** `defaultOrdering()`. */
    method DefaultOrdering() returns (o: Outcome)
      modifies this`log
      ensures var r := DefaultOrderingRun(State(), nullsLast);
              log == old(log) + r.calls && o == r.outcome
    {
      var t := State();
      var directives := Request.OrderableColumns(Request.Legacy, t.params);
      if directives.Err? {
        return Thrown(directives.message);
      }
      var named := OrderNames(t, directives.value);
      if named.Err? {
        return Thrown(named.message);
      }
      var kept := OrderKept(t, named.value);
      if kept.Err? {
        return Thrown(kept.message);
      }
      o := OrderEach(t, kept.value, OrderSteps(t, nullsLast, kept.value));
    }

    /** The `.each` of `defaultOrdering()`; `step` stands for
        `OrderStepAt(t, nullsLast, kept, _)`. */
    method OrderEach(t: Table, kept: seq<Orderable>, ghost step: nat -> Run) returns (o: Outcome)
      requires t == State()
      requires forall i {:trigger OrderStepAt(t, nullsLast, kept, i)} :: step(i) == OrderStepAt(t, nullsLast, kept, i)
      modifies this`log
      ensures log == old(log) + Steps(|kept|, step).calls && o == Steps(|kept|, step).outcome
    {
      var i := 0;
      while i < |kept|
        invariant 0 <= i <= |kept|
        invariant log == old(log) + Steps(i, step).calls
        invariant Steps(i, step).outcome == Done
      {
        o := OrderByAs(t, kept, i, step);
        if o.Thrown? {
          StepsStop(|kept|, step, i);
          return;
        }
        i := i + 1;
      }
      return Done;
    }

    /** `OrderBy(kept[i])`, seen as the loop's turn `step(i)`. */
    method OrderByAs(t: Table, kept: seq<Orderable>, i: nat, ghost step: nat -> Run) returns (o: Outcome)
      requires t == State() && i < |kept|
      requires forall i {:trigger OrderStepAt(t, nullsLast, kept, i)} :: step(i) == OrderStepAt(t, nullsLast, kept, i)
      modifies this`log
      ensures log == old(log) + step(i).calls && o == step(i).outcome
    {
      o := OrderBy(kept[i]);
      assert step(i) == OrderStepAt(t, nullsLast, kept, i);
    }

    /** `ordering()`. */
    method Ordering() returns (o: Outcome)
      modifies this`log
      ensures var r := OrderingRun(State(), disableUserOrdering, dt.orderCallback, nullsLast);
              log == old(log) + r.calls && o == r.outcome
    {
      if disableUserOrdering {
        return Done;
      }
      if Registry.UsesOrderCallback(dt.orderCallback) {
        log := log + [Invoke(dt.orderCallback.id, [])];
        return Done;
      }
      o := DefaultOrdering();
    }

    /** `paging()`. */
    method Paging()
      modifies this`log
      ensures log == old(log) + PagingCalls(dt.params)
    {
      var start := Request.Start(Request.Legacy, dt.params);
      var length := Request.Length(Request.Legacy, dt.params);
      var limit := if Request.Positive(length) then length else Num(10);
      log := log + [Offset(start), Limit(limit)];
    }

    /** `paginate()`. */
    method Paginate()
      modifies this`log
      ensures log == old(log) + PaginateCalls(dt.params, dt.skipPaging)
    {
      if Registry.ShouldPaginate(dt.params, dt.skipPaging) {
        Paging();
      }
    }

    /** `prepareQuery()`: the first call counts the rows (a total already
        set wins), filters, orders and pages; it is marked prepared only when
        none of that threw. Later calls do nothing. */
    method PrepareQuery(counted: int, countedFiltered: int) returns (o: Outcome)
      modifies this`log, this`prepared, dt`totalRecords, dt`filteredRecords
      ensures old(prepared) ==> o == Done && prepared && log == old(log)
                                && dt.totalRecords == old(dt.totalRecords) && dt.filteredRecords == old(dt.filteredRecords)
      ensures !old(prepared) ==>
                var r := PrepareRun(State(), dt.autoFilter, dt.filterCallback, disableUserOrdering,
                                    dt.orderCallback, nullsLast, dt.skipPaging);
                log == old(log) + r.calls && o == r.outcome && prepared == (o == Done)
      ensures !old(prepared) ==>
                var total := Registry.CountOr(old(dt.totalRecords), counted);
                var f := FilterRun(State(), dt.autoFilter, dt.filterCallback);
                (f.outcome == Done ==> dt.filteredRecords == Registry.CountOr(old(dt.filteredRecords), countedFiltered)
                                       && dt.totalRecords == (if dt.skipTotal then dt.filteredRecords else total))
                && (f.outcome.Thrown? ==> dt.filteredRecords == old(dt.filteredRecords) && dt.totalRecords == total)
    {
      if prepared {
        return Done;
      }
      o := PrepareOnce(counted, countedFiltered);
      prepared := o == Done;
    }

    /** What the first `prepareQuery()` does: count the rows, filter, order
        and page. */
    method PrepareOnce(counted: int, countedFiltered: int) returns (o: Outcome)
      modifies this`log, dt`totalRecords, dt`filteredRecords
      ensures var r := PrepareRun(State(), dt.autoFilter, dt.filterCallback, disableUserOrdering,
                                  dt.orderCallback, nullsLast, dt.skipPaging);
              log == old(log) + r.calls && o == r.outcome
      ensures var total := Registry.CountOr(old(dt.totalRecords), counted);
              var f := FilterRun(State(), dt.autoFilter, dt.filterCallback);
              (f.outcome == Done ==> dt.filteredRecords == Registry.CountOr(old(dt.filteredRecords), countedFiltered)
                                     && dt.totalRecords == (if dt.skipTotal then dt.filteredRecords else total))
              && (f.outcome.Thrown? ==> dt.filteredRecords == old(dt.filteredRecords) && dt.totalRecords == total)
    {
      ghost var t := State();
      ghost var start := log;
      dt.SetTotalRecords(Registry.CountOr(dt.totalRecords, counted));
      o := FilterAndOrder(countedFiltered);
      if o.Thrown? {
        return;
      }
      ghost var mid := log;
      Paginate();
      LogThen(start, mid, log, Then(FilterRun(t, dt.autoFilter, dt.filterCallback),
                                    OrderingRun(t, disableUserOrdering, dt.orderCallback, nullsLast)),
              Run(PaginateCalls(t.params, dt.skipPaging), Done));
    }

    /** The filtering and ordering steps of `prepareQuery()`; ordering does
        not run once filtering threw. */
    method FilterAndOrder(counted: int) returns (o: Outcome)
      modifies this`log, dt`filteredRecords, dt`totalRecords
      ensures var r := Then(FilterRun(State(), dt.autoFilter, dt.filterCallback),
                            OrderingRun(State(), disableUserOrdering, dt.orderCallback, nullsLast));
              log == old(log) + r.calls && o == r.outcome
      ensures var f := FilterRun(State(), dt.autoFilter, dt.filterCallback);
              (f.outcome == Done ==> dt.filteredRecords == Registry.CountOr(old(dt.filteredRecords), counted)
                                     && dt.totalRecords == (if dt.skipTotal then dt.filteredRecords else old(dt.totalRecords)))
              && (f.outcome.Thrown? ==> dt.filteredRecords == old(dt.filteredRecords) && dt.totalRecords == old(dt.totalRecords))
    {
      ghost var start := log;
      o := FilterRecords(counted);
      if o.Thrown? {
        return;
      }
      ghost var mid := log;
      o := Ordering();
      LogThen(start, mid, log, FilterRun(State(), dt.autoFilter, dt.filterCallback),
              OrderingRun(State(), disableUserOrdering, dt.orderCallback, nullsLast));
    }

    /** `addColumn(name, content, order)`: the column is blacklisted, so
        that it is neither searched nor ordered, then registered. */
    method AddColumn(name: string, content: Value, order: Value) returns (o: Outcome)
      requires dt.Valid()
      modifies dt`columnDef, dt`extraColumns
      ensures dt.Valid()
      ensures var listed := Registry.Blacklisted(dt.config, old(dt.columnDef), name);
              o.Thrown? <==> listed.Err? || (listed == Ok(false) && Registry.PushedBlacklist(old(dt.columnDef), name).Err?)
      ensures o.Thrown? ==> dt.columnDef == old(dt.columnDef) && dt.extraColumns == old(dt.extraColumns)
      ensures o == Done ==>
                dt.extraColumns == old(dt.extraColumns) + [name]
                && dt.columnDef == Registry.AddedColumnDef(old(dt.columnDef), name, Registry.AppendItem(name, content, order),
                                                           Registry.Blacklisted(dt.config, old(dt.columnDef), name) == Ok(true))
    {
      ghost var before := dt.columnDef;
      ghost var listed := Registry.Blacklisted(dt.config, before, name);
      o := dt.PushToBlacklist(name);
      if o.Thrown? {
        return;
      }
      ghost var pushed := dt.columnDef;
      assert pushed == if listed == Ok(true) then before else Registry.PushedBlacklist(before, name).value;
      dt.AddColumn(name, content, order);
      assert dt.columnDef == Registry.AddedColumnDef(before, name, Registry.AppendItem(name, content, order), listed == Ok(true));
    }

    /** `orderColumns(columns, sql, bindings)`. */
    method OrderColumns(columns: seq<string>, sql: string, bindings: Value)
      modifies dt`orders
      ensures dt.orders == OrdersAfter(old(dt.orders), columns, sql, bindings)
    {
      var i := 0;
      while i < |columns|
        invariant 0 <= i <= |columns|
        invariant dt.orders == OrdersAfter(old(dt.orders), columns[..i], sql, bindings)
      {
        assert columns[..i + 1][..i] == columns[..i];
        dt.OrderColumn(columns[i], Str(ReplaceFirst(sql, ":column", columns[i])), bindings);
        i := i + 1;
      }
      assert columns[..|columns|] == columns;
    }

    /** `orderByNullsLast()`. */
    method OrderByNullsLast()
      modifies this`nullsLast
      ensures nullsLast
    {
      nullsLast := true;
    }

    /** `attachAppends(data)`: the appends, functions evaluated, with
        `disableOrdering`, spread over the data. */
    method AttachAppends(data: seq<Field>) returns (out: seq<Field>)
      ensures out == Spread(data, Obj(AttachedAppends(dt.appends, disableUserOrdering)))
    {
      var entries := Entries(dt.appends);
      var appends: seq<Field> := [];
      var i := 0;
      while i < |entries|
        invariant 0 <= i <= |entries|
        invariant appends == EvaluatedAppends(entries[..i])
      {
        assert entries[..i + 1][..i] == entries[..i];
        var value := entries[i].val;
        appends := Assign(appends, entries[i].key, if value.Fun? then Helper.ValueOf(value.result) else value);
        i := i + 1;
      }
      assert entries[..|entries|] == entries;
      appends := Assign(appends, "disableOrdering", Bool(disableUserOrdering));
      out := AssignAll(data, appends);
    }

    /** `results()` with the processor's rows awaited: the query is
        prepared, then the rows are rendered with the appends; anything
        thrown gives the error envelope. `rows` stands for what the
        processor makes of the database's answer. */
    method Results(counted: int, countedFiltered: int, rows: seq<Value>) returns (reply: Registry.Response)
      modifies this`log, this`prepared, dt`totalRecords, dt`filteredRecords
      ensures var rendered := Reply(dt.config, dt.params, dt.totalRecords, dt.filteredRecords, Arr(rows),
                                    Obj(AttachedAppends(dt.appends, disableUserOrdering)));
              (old(prepared) ==> reply == rendered)
              && (!old(prepared) ==>
                    var r := PrepareRun(State(), dt.autoFilter, dt.filterCallback, disableUserOrdering,
                                        dt.orderCallback, nullsLast, dt.skipPaging);
                    (r.outcome == Done ==> reply == rendered)
                    && (r.outcome.Thrown? ==> reply == ErrorReply(dt.params, dt.totalRecords, r.outcome.message)))
    {
      var o := PrepareQuery(counted, countedFiltered);
      if o.Thrown? {
        return ErrorReply(dt.params, dt.totalRecords, o.message);
      }
      var appends := Obj(AttachedAppends(dt.appends, disableUserOrdering));
      var rendered := Registry.RenderFixed(dt.config, dt.params, dt.totalRecords, dt.filteredRecords, Arr(rows), appends);
      if rendered.Err? {
        return ErrorReply(dt.params, dt.totalRecords, rendered.message);
      }
      return rendered.value;
    }
  }
}
