/** The older `LucidDataTable` of src/lucid_datatable.ts. It shares the
    registry of every engine, but most of its query building is stubbed:
    `compileQuerySearch`, `applyFilterColumn`, `filtering`, `filter` and
    `defaultOrdering` do nothing, so a column search records only regular
    expressions, and ordering only the order callback. Its own fields carry
    a `$` (`$prepared`, `$limitCallback`, …); it also writes `$totalRecords`,
    a property the shared registry never reads. */
module LegacyLucid {
  import opened Wrappers
  import opened Strings
  import opened Values
  import opened Sql
  import Helper
  import Config
  import Request
  import Registry
  import Database

  // ----- keywords ---------------------------------------------------------------

  /** `prepareKeyword(keyword)`: starts-with search and smart search answer
      the literal texts `keyword%` and `%keyword%` instead of the keyword;
      otherwise the keyword is lower-cased when the search ignores case and
      put in wildcard form when wildcards are on. */
  function LegacyKeyword(flags: Config.Flags, keyword: string): (r: string)
    ensures flags.startsWith ==> r == "keyword%"
    ensures !flags.startsWith && flags.smart ==> r == "%keyword%"
  {
    var k := if flags.caseInsensitive then ToLower(keyword) else keyword;
    if flags.startsWith then "keyword%"
    else
      var w := if flags.wildcard then Helper.WildcardSpec(k, "%", true) else k;
      if flags.smart then "%keyword%" else w
  }

  /** Only without starts-with and smart search does the typed keyword
      survive, and then exactly as the database engine prepares it. */
  lemma PlainKeywordAgrees(flags: Config.Flags, keyword: string)
    requires !flags.startsWith && !flags.smart
    ensures LegacyKeyword(flags, keyword) == Sql.PrepareKeyword(flags, keyword)
  {
  }

  /** With starts-with or smart search the answer does not depend on the
      keyword at all. */
  lemma LegacyKeywordConstant(flags: Config.Flags, a: string, b: string)
    requires flags.startsWith || flags.smart
    ensures LegacyKeyword(flags, a) == LegacyKeyword(flags, b)
  {
  }

  /** The typed keyword is lost: with starts-with search `abc` becomes the
      text `keyword%`, where the query-builder engine prepares `abc%`. */
  lemma KeywordLost()
    ensures var flags := Config.Flags(false, false, false, true, false);
            LegacyKeyword(flags, "abc") == "keyword%" && Sql.PrepareKeyword(flags, "abc") == "abc%"
            && LegacyKeyword(flags, "abc") != Sql.PrepareKeyword(flags, "abc")
  {
    var flags := Config.Flags(false, false, false, true, false);
    assert Sql.PrepareKeyword(flags, "abc") == "abc" + "%";
    assert LegacyKeyword(flags, "abc")[0] != Sql.PrepareKeyword(flags, "abc")[0];
  }

  /** `regexColumnSearch(column, keyword)`: the dialect's operator on the
      column as given, neither quoted nor cast; outside Oracle and
      PostgreSQL the keyword is lower-cased whatever the case setting. */
  function UnquotedRegexSearch(dialect: Dialect, caseInsensitive: bool, column: string, keyword: string): (c: Call)
    ensures c.WhereRaw? && |c.bindings| == 1
    ensures c.bindings[0] == if dialect.Oracle? || dialect.Pgsql? then keyword else ToLower(keyword)
  {
    match dialect
    case Oracle =>
      WhereRaw(if !caseInsensitive then "REGEXP_LIKE( " + column + " , ? )"
               else "REGEXP_LIKE( LOWER(" + column + ") , ?, 'i' )", [keyword])
    case Pgsql =>
      WhereRaw(if !caseInsensitive then column + " ~ ?" else column + " ~* ? ", [keyword])
    case _ =>
      WhereRaw(if !caseInsensitive then column + " REGEXP ?" else "LOWER(" + column + ") REGEXP ?", [ToLower(keyword)])
  }

  /** Each dialect's fragment names the column as given; the database
      engine's names it quoted (and cast, for PostgreSQL). */
  lemma UnquotedRegexFragments(column: string, keyword: string)
    ensures UnquotedRegexSearch(Oracle, false, column, keyword).sql == "REGEXP_LIKE( " + column + " , ? )"
    ensures UnquotedRegexSearch(Oracle, true, column, keyword).sql == "REGEXP_LIKE( LOWER(" + column + ") , ?, 'i' )"
    ensures UnquotedRegexSearch(Pgsql, false, column, keyword).sql == column + " ~ ?"
    ensures UnquotedRegexSearch(Pgsql, true, column, keyword).sql == column + " ~* ? "
    ensures UnquotedRegexSearch(Firebird, true, column, keyword).sql == "LOWER(" + column + ") REGEXP ?"
    ensures UnquotedRegexSearch(OtherDialect, false, column, keyword).sql == column + " REGEXP ?"
    ensures forall d: Dialect, ci: bool :: !d.Pgsql? ==>
              UnquotedRegexSearch(d, ci, Helper.Wrap(column), keyword) == Sql.RegexSearch(d, ci, column, keyword)
  {
  }

  // ----- column search ------------------------------------------------------------

  /** One turn of `columnSearch()`: columns the request does not name,
      unsearchable columns and blacklisted columns without override are
      skipped; an override is handed nothing (`applyFilterColumn` is a
      stub), nor is a column searched without regular expression
      (`compileQuerySearch` is a stub); a regular expression is matched. */
  function ColumnStep(t: Database.Table, i: nat): Run {
    match Database.ColumnName(t, i, false)
    case Err(e) => Run([], Thrown(e))
    case Ok(None) => Run([], Done)
    case Ok(Some(column)) =>
      if !Request.IsColumnSearchable(Request.Legacy, t.params, i, true) then Run([], Done)
      else NamedColumnStep(t, i, column)
  }

  function NamedColumnStep(t: Database.Table, i: nat, column: string): Run {
    match Database.IsBlacklisted(t, Some(column))
    case Err(e) => Run([], Thrown(e))
    case Ok(listed) =>
      if listed && !Database.HasFilter(t, column) then Run([], Done)
      else if Database.HasFilter(t, column) then Run([], Done)
      else if Request.IsRegex(Request.Legacy, t.params, i) then
        Run([UnquotedRegexSearch(t.dialect, Database.Flags(t).caseInsensitive, column, Database.SearchKeyword(t, i, false))], Done)
      else Run([], Done)
  }

  function ColumnSteps(t: Database.Table): nat -> Run {
    (i: nat) => ColumnStep(t, i)
  }

  /** `columnSearch()`: one turn per request column; reading the length of
      missing columns throws. */
  function ColumnSearchRun(t: Database.Table): Run {
    if IsNullish(Request.Columns(Request.Legacy, t.params)) then Run([], Thrown(TypeError))
    else Steps(Request.ColumnCount(Request.Legacy, t.params), ColumnSteps(t))
  }

  /** A turn records at most the regular-expression search of its column,
      on the keyword as typed. */
  lemma ColumnStepCalls(t: Database.Table, i: nat)
    ensures ColumnStep(t, i).calls == [] || ColumnStep(t, i).calls == [RegexOf(t, i)]
    ensures ColumnStep(t, i).calls != [] ==>
              Request.IsRegex(Request.Legacy, t.params, i) && !Database.HasFilter(t, ColumnNameOf(t, i))
              && Request.IsColumnSearchable(Request.Legacy, t.params, i, true)
  {
  }

  /** The name of request column `i`, where it has one. */
  function ColumnNameOf(t: Database.Table, i: nat): string {
    match Database.ColumnName(t, i, false)
    case Ok(Some(column)) => column
    case _ => ""
  }

  /** The regular-expression search of request column `i`. */
  function RegexOf(t: Database.Table, i: nat): Call {
    UnquotedRegexSearch(t.dialect, Database.Flags(t).caseInsensitive, ColumnNameOf(t, i), Database.ColumnKeyword(t.params, i))
  }

  /** The legacy column search records nothing but regular-expression
      searches of searchable columns without override, each on the keyword
      as typed: no `LIKE` and no filter override ever reaches the query. */
  lemma {:induction false} ColumnSearchOnlyRegex(t: Database.Table, c: Call)
    requires c in ColumnSearchRun(t).calls
    ensures exists i: nat :: c == RegexOf(t, i) && Request.IsRegex(Request.Legacy, t.params, i)
                             && !Database.HasFilter(t, ColumnNameOf(t, i))
  {
    var n := Request.ColumnCount(Request.Legacy, t.params);
    StepsCallsFrom(n, ColumnSteps(t), c);
    var i :| 0 <= i < n && c in ColumnSteps(t)(i).calls;
    ColumnStepCalls(t, i);
  }

  // ----- global search, ordering, paging ----------------------------------------------

  /** `globalSearch(keyword)`: the column names are read and filtered as in
      the database engine, but every kept column is left alone, so the
      grouped `where` is empty. */
  function GlobalSearchCall(t: Database.Table): (r: Result<Call>)
    ensures r.Ok? ==> r == Ok(Where([]))
  {
    var indices :- Request.SearchableIndices(Request.Legacy, t.params);
    var names :- Database.ColumnNames(t, indices);
    var kept :- Database.Unrejected(t, names);
    Ok(Where([]))
  }

  /** `ordering()`: nothing when user ordering is disabled. With a function
      order callback the inherited `ordering()` first calls
      `this.resolveCallback()`, which the legacy class never defines (it has
      only `resolveCallbackParameter`), so it throws a TypeError before the
      callback runs; otherwise `defaultOrdering` is a stub. No call reaches
      the query either way. */
  function OrderingRun(disable: bool, orderCallback: Value): (r: Run)
    ensures r.calls == []
    ensures r.outcome.Thrown? <==> !disable && orderCallback.Fun?
    ensures r.outcome.Thrown? ==> r.outcome == Thrown(TypeError)
  {
    if disable then Run([], Done)
    else if Registry.UsesOrderCallback(orderCallback) then Run([], Thrown(TypeError))
    else Run([], Done)
  }

  /** `paging()`: with a limit callback only `limit`, then the callback;
      otherwise `offset(start).limit(limit)`. */
  function PagingCalls(params: Value, limitCallback: Value): seq<Call> {
    var limit := Database.PageSize(Request.Length(Request.Legacy, params));
    if TypeOf(limitCallback) == "function" then [Limit(limit), Invoke(limitCallback.id, [])]
    else [Offset(Request.Start(Request.Legacy, params)), Limit(limit)]
  }

  /** Without a limit callback the legacy engine pages as the database
      engine does; with one it skips the offset and calls the callback. */
  lemma PagingAgrees(params: Value, limitCallback: Value)
    ensures !limitCallback.Fun? ==> PagingCalls(params, limitCallback) == Database.PagingCalls(params)
    ensures limitCallback.Fun? ==>
              PagingCalls(params, limitCallback)
              == [Database.PagingCalls(params)[1], Invoke(limitCallback.id, [])]
  {
  }

  /** `paginate()`. */
  function PaginateCalls(params: Value, skipPaging: bool, limitCallback: Value): seq<Call> {
    if Registry.ShouldPaginate(params, skipPaging) then PagingCalls(params, limitCallback) else []
  }

  /** The calls of the first `prepareQuery()`: the column search (the
      legacy `filterRecords` reads `$autoFilter` and `$filterCallback`,
      which are never set, so it neither filters globally nor calls the
      filter callback), the ordering and the paging. */
  function PrepareRun(t: Database.Table, disable: bool, orderCallback: Value, skipPaging: bool,
                      limitCallback: Value): Run {
    Then(Then(ColumnSearchRun(t), OrderingRun(disable, orderCallback)),
         Run(PaginateCalls(t.params, skipPaging, limitCallback), Done))
  }

  /** A function order callback (with user ordering on) makes the first
      `prepareQuery()` reject once the column search is done: nothing is
      ordered or paged, and the table stays unprepared. */
  lemma OrderCallbackRejects(t: Database.Table, orderCallback: Value, skipPaging: bool, limitCallback: Value)
    requires orderCallback.Fun? && ColumnSearchRun(t).outcome == Done
    ensures PrepareRun(t, false, orderCallback, skipPaging, limitCallback)
            == Run(ColumnSearchRun(t).calls, Thrown(TypeError))
  {
    assert ColumnSearchRun(t).calls + [] == ColumnSearchRun(t).calls;
  }

  /** No global search and no default ordering ever reaches the query:
      everything `prepareQuery` records is a regular-expression search, a
      callback, an offset or a limit. */
  lemma PrepareRecordsNoSearchOrOrder(t: Database.Table, disable: bool, orderCallback: Value,
                                      skipPaging: bool, limitCallback: Value, c: Call)
    requires c in PrepareRun(t, disable, orderCallback, skipPaging, limitCallback).calls
    ensures c.WhereRaw? || c.Invoke? || c.Offset? || c.Limit?
  {
    var search := ColumnSearchRun(t);
    if c in search.calls {
      ColumnSearchOnlyRegex(t, c);
    }
  }

  // ----- the engine -----------------------------------------------------------------

  class LegacyTable {
    const dt: Registry.DataTable
    const dialect: Dialect
    var log: seq<Call>
    /** `$prepared`. */
    var prepared: bool
    /** `$limitCallback`. */
    var limitCallback: Value
    /** `$disableUserOrdering`: nothing sets it. */
    var disableUserOrdering: bool
    /** `$totalRecords`: written by `prepareQuery`, read by nothing. */
    var legacyTotal: Value

    /** `new LucidDataTable(query)`. */
    constructor(config: Value, params: Value, columns: Value, dialect: Dialect)
      ensures fresh(dt) && dt.Valid()
      ensures dt.config == config && dt.params == params && dt.columns == columns
      ensures dt.filters == [] && dt.orders == [] && dt.totalRecords == 0 && dt.filteredRecords == 0
      ensures this.dialect == dialect && log == [] && !prepared && !disableUserOrdering
      ensures limitCallback == Null && legacyTotal == Undefined
    {
      dt := new Registry.DataTable(config, params, columns);
      this.dialect := dialect;
      log := [];
      prepared := false;
      limitCallback := Null;
      disableUserOrdering := false;
      legacyTotal := Undefined;
    }

    /** What the engine reads while it builds the query; `getPrimaryKeyName`
        is the shared one (`'id'`). */
    function State(): Database.Table
      reads dt`columns, dt`columnDef, dt`extraColumns, dt`filters, dt`orders
    {
      Database.Table(dt.config, dt.params, dt.columns, dt.columnDef, dt.extraColumns, dt.filters, dt.orders,
                     dialect, "", None)
    }

    /** One turn of the `columnSearch` loop. */
    method SearchColumn(i: nat) returns (o: Outcome)
      modifies this`log
      ensures log == old(log) + ColumnStep(State(), i).calls && o == ColumnStep(State(), i).outcome
    {
      var t := State();
      var name := Database.ColumnName(t, i, false);
      if name.Err? {
        return Thrown(name.message);
      }
      if name.value.None? || !Request.IsColumnSearchable(Request.Legacy, t.params, i, true) {
        return Done;
      }
      var column := name.value.value;
      var listed := Database.IsBlacklisted(t, Some(column));
      if listed.Err? {
        return Thrown(listed.message);
      }
      if listed.value && !Database.HasFilter(t, column) {
        return Done;
      }
      if Database.HasFilter(t, column) {
        return Done;
      }
      var keyword := Database.SearchKeyword(t, i, false);
      if Request.IsRegex(Request.Legacy, t.params, i) {
        log := log + [UnquotedRegexSearch(dialect, Database.Flags(t).caseInsensitive, column, keyword)];
      }
      return Done;
    }

    method SearchColumnAs(t: Database.Table, i: nat, ghost step: nat -> Run) returns (o: Outcome)
      requires t == State()
      requires forall i {:trigger ColumnStep(t, i)} :: step(i) == ColumnStep(t, i)
      modifies this`log
      ensures log == old(log) + step(i).calls && o == step(i).outcome
    {
      o := SearchColumn(i);
      assert step(i) == ColumnStep(t, i);
    }

    /** `columnSearch()`. */
    method ColumnSearch() returns (o: Outcome)
      modifies this`log
      ensures log == old(log) + ColumnSearchRun(State()).calls && o == ColumnSearchRun(State()).outcome
    {
      var t := State();
      if IsNullish(Request.Columns(Request.Legacy, t.params)) {
        return Thrown(TypeError);
      }
      var n := Request.ColumnCount(Request.Legacy, t.params);
      ghost var step := ColumnSteps(t);
      var index := 0;
      while index < n
        invariant 0 <= index <= n
        invariant log == old(log) + Steps(index, step).calls
        invariant Steps(index, step).outcome == Done
      {
        o := SearchColumnAs(t, index, step);
        if o.Thrown? {
          StepsStop(n, step, index);
          return;
        }
        index := index + 1;
      }
      return Done;
    }

    /** `globalSearch(keyword)`. */
    method GlobalSearch(keyword: string) returns (o: Outcome)
      modifies this`log
      ensures var r := Single(GlobalSearchCall(State()));
              log == old(log) + r.calls && o == r.outcome
    {
      var call := GlobalSearchCall(State());
      if call.Err? {
        return Thrown(call.message);
      }
      log := log + [Where([])];
      return Done;
    }

    /** `filtering()`, `filter(callback, globalSearch)` and
        `defaultOrdering()`: stubs that change nothing. */
    method Filtering()
      ensures log == old(log)
    {
    }

    /** `ordering()`: it records nothing; it throws for a function order
        callback. */
    method Ordering() returns (o: Outcome)
      ensures o == OrderingRun(disableUserOrdering, dt.orderCallback).outcome
    {
      if disableUserOrdering {
        return Done;
      }
      if Registry.UsesOrderCallback(dt.orderCallback) {
        return Thrown(TypeError);
      }
      return Done;
    }

    /** `limit(callback)`. */
    method Limit(callback: Value)
      modifies this`limitCallback
      ensures limitCallback == callback
    {
      limitCallback := callback;
    }

    /** `paging()`. */
    method Paging()
      modifies this`log
      ensures log == old(log) + PagingCalls(dt.params, limitCallback)
    {
      var start := Request.Start(Request.Legacy, dt.params);
      var length := Request.Length(Request.Legacy, dt.params);
      var limit := if Request.Positive(length) then length else Num(10);
      if TypeOf(limitCallback) == "function" {
        log := log + [Sql.Limit(limit)];
        log := log + [Invoke(limitCallback.id, [])];
      } else {
        log := log + [Offset(start), Sql.Limit(limit)];
      }
    }

    /** `filterRecords()`: the column search, then the filtered count (the
        query is never the clone it is compared with); with
        `skipTotalRecords`, `$totalRecords` takes the never-set
        `$filteredRecords`. */
    method FilterRecords(counted: int) returns (o: Outcome)
      modifies this`log, dt`filteredRecords, this`legacyTotal
      ensures log == old(log) + ColumnSearchRun(State()).calls && o == ColumnSearchRun(State()).outcome
      ensures o == Done ==> dt.filteredRecords == Registry.CountOr(old(dt.filteredRecords), counted)
                            && legacyTotal == (if dt.skipTotal then Undefined else old(legacyTotal))
      ensures o.Thrown? ==> dt.filteredRecords == old(dt.filteredRecords) && legacyTotal == old(legacyTotal)
    {
      o := ColumnSearch();
      if o.Thrown? {
        return;
      }
      dt.FilteredCount(counted);
      if dt.skipTotal {
        legacyTotal := Undefined;
      }
    }

    /** `prepareQuery()`: the first call stores the total count in
        `$totalRecords`, filters, orders and pages, and is marked prepared
        only when none of that threw; later calls do nothing. The shared
        `totalRecords` is left as it was. */
    method PrepareQuery(counted: int, countedFiltered: int) returns (o: Outcome)
      modifies this`log, this`prepared, this`legacyTotal, dt`filteredRecords
      ensures dt.totalRecords == old(dt.totalRecords)
      ensures old(prepared) ==> o == Done && prepared && log == old(log) && legacyTotal == old(legacyTotal)
                                && dt.filteredRecords == old(dt.filteredRecords)
      ensures !old(prepared) ==>
                var r := PrepareRun(State(), disableUserOrdering, dt.orderCallback, dt.skipPaging, limitCallback);
                log == old(log) + r.calls && o == r.outcome && prepared == (o == Done)
      ensures !old(prepared) ==>
                var total := Num(Registry.CountOr(dt.totalRecords, counted));
                var search := ColumnSearchRun(State());
                (search.outcome == Done ==> dt.filteredRecords == Registry.CountOr(old(dt.filteredRecords), countedFiltered)
                                            && legacyTotal == (if dt.skipTotal then Undefined else total))
                && (search.outcome.Thrown? ==> dt.filteredRecords == old(dt.filteredRecords) && legacyTotal == total)
    {
      if prepared {
        return Done;
      }
      ghost var t := State();
      ghost var start := log;
      legacyTotal := Num(Registry.CountOr(dt.totalRecords, counted));
      o := FilterRecords(countedFiltered);
      if o.Thrown? {
        prepared := false;
        return;
      }
      ghost var mid := log;
      o := Ordering();
      LogThen(start, mid, log, ColumnSearchRun(t), OrderingRun(disableUserOrdering, dt.orderCallback));
      if o.Thrown? {
        prepared := false;
        return;
      }
      mid := log;
      if Registry.ShouldPaginate(dt.params, dt.skipPaging) {
        Paging();
      }
      LogThen(start, mid, log, Then(ColumnSearchRun(t), OrderingRun(disableUserOrdering, dt.orderCallback)),
              Run(PaginateCalls(t.params, dt.skipPaging, limitCallback), Done));
      prepared := true;
    }
  }
}
