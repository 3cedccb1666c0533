/** The SQL fragments the query-builder engines of
    src/engines/database_datatable.ts and src/engines/lucid_datatable.ts
    hand to the query builder, and the builder itself seen as the log of
    the calls made on it. */
module Sql {
  import opened Wrappers
  import opened Strings
  import opened Values
  import Helper
  import Config

  /** The connection's `driverName`, as far as the engines tell drivers apart. */
  datatype Dialect = Oracle | Pgsql | Firebird | OtherDialect

  /** One call on a query builder. A callback the engine passes on
      (`where(cb)`, `whereHas(relation, cb)`) shows as the calls it makes on
      the builder it is given; a user callback that is handed the query shows
      as `Invoke` with its identity and the extra arguments it receives. */
  datatype Call =
    | WhereRaw(sql: string, bindings: seq<string>)
    | OrWhereRaw(sql: string, bindings: seq<string>)
    | Where(group: seq<Call>)
    | WhereHas(relation: string, group: seq<Call>)
    | OrWhereHas(relation: string, group: seq<Call>)
    | OrderByRaw(sql: string, orderBindings: Value)
    | Offset(offset: Value)
    | Limit(limit: Value)
    | LeftJoin(table: string, first: string, operator: string, second: string)
    | Invoke(callback: int, args: seq<string>)

  /** The `boolean` argument of `compileQuerySearch`: `''` gives `whereRaw`,
      `'or'` gives `orWhereRaw`. */
  datatype Conjunction = AndWhere | OrWhere

  /** The calls a step recorded before it finished or threw. */
  datatype Run = Run(calls: seq<Call>, outcome: Outcome)

  /** One step after another; the second does not run once the first threw. */
  function Then(first: Run, second: Run): (r: Run)
    ensures first.outcome.Thrown? ==> r == first
    ensures first.outcome == Done ==> r == Run(first.calls + second.calls, second.outcome)
  {
    if first.outcome.Thrown? then first else Run(first.calls + second.calls, second.outcome)
  }

  /** A step that makes one call, or throws before making it. */
  function Single(c: Result<Call>): Run {
    if c.Ok? then Run([c.value], Done) else Run([], Thrown(c.message))
  }

  /** A log that recorded a finished step and then a second step holds
      the calls of the two in sequence. */
  lemma LogThen(before: seq<Call>, mid: seq<Call>, after: seq<Call>, first: Run, second: Run)
    requires mid == before + first.calls && first.outcome == Done
    requires after == mid + second.calls
    ensures after == before + Then(first, second).calls && Then(first, second).outcome == second.outcome
  {
  }

  /** `n` steps run one after another, `step(0)` first, until one throws. */
  function Steps(n: nat, step: nat -> Run): Run {
    if n == 0 then Run([], Done) else Then(Steps(n - 1, step), step(n - 1))
  }

  /** The steps finish exactly when every one of them does. */
  lemma {:induction false} StepsDone(n: nat, step: nat -> Run)
    ensures Steps(n, step).outcome == Done <==> forall i :: 0 <= i < n ==> step(i).outcome == Done
  {
    if n > 0 {
      StepsDone(n - 1, step);
    }
  }

  /** Once step `k` throws, the steps after it record nothing. */
  lemma {:induction false} StepsStop(n: nat, step: nat -> Run, k: nat)
    requires k < n && Steps(k, step).outcome == Done && step(k).outcome.Thrown?
    ensures Steps(n, step) == Run(Steps(k, step).calls + step(k).calls, step(k).outcome)
  {
    if n - 1 > k {
      StepsStop(n - 1, step, k);
    }
  }

  /** Steps that each record one call, or throw having recorded none: when
      they all finish, the log holds one call per step, in step order. */
  lemma {:induction false} StepsSingles(n: nat, step: nat -> Run)
    requires forall i :: 0 <= i < n ==>
               (step(i).outcome == Done ==> |step(i).calls| == 1) && (step(i).outcome.Thrown? ==> step(i).calls == [])
    ensures Steps(n, step).outcome == Done ==>
              |Steps(n, step).calls| == n
              && forall k :: 0 <= k < n ==>
                   step(k).outcome == Done && |step(k).calls| == 1 && Steps(n, step).calls[k] == step(k).calls[0]
  {
    if n > 0 {
      StepsSingles(n - 1, step);
      StepsDone(n, step);
      StepsDone(n - 1, step);
    }
  }

  /** Every call the steps record was recorded by one of them. */
  lemma {:induction false} StepsCallsFrom(n: nat, step: nat -> Run, c: Call)
    requires c in Steps(n, step).calls
    ensures exists i :: 0 <= i < n && c in step(i).calls
  {
    if n > 0 {
      if Steps(n - 1, step).outcome.Thrown? || c in Steps(n - 1, step).calls {
        StepsCallsFrom(n - 1, step, c);
      } else {
        assert c in step(n - 1).calls;
      }
    }
  }

  // ----- keywords ----------------------------------------------------------------

  /** `prepareKeyword(keyword)` of the query-builder engine: lower-cased when
      the search ignores case; with starts-with search followed by `%` and
      nothing else; otherwise the wildcard form when wildcards are on, and
      that wrapped in `%…%` with smart search. */
  function PrepareKeyword(flags: Config.Flags, keyword: string): (r: string)
  {
    var k := if flags.caseInsensitive then ToLower(keyword) else keyword;
    if flags.startsWith then k + "%"
    else
      var w := if flags.wildcard then Helper.WildcardSpec(k, "%", true) else k;
      if flags.smart then "%" + w + "%" else w
  }

  /** The steps of `prepareKeyword` compose: starts-with wins over every
      other flag, and wildcards and smart search both apply. */
  lemma PrepareKeywordSteps(flags: Config.Flags, keyword: string)
    ensures var k := if flags.caseInsensitive then ToLower(keyword) else keyword;
            var r := PrepareKeyword(flags, keyword);
            (flags.startsWith ==> r == k + "%")
            && (!flags.startsWith && flags.wildcard && flags.smart ==> r == "%" + Helper.WildcardSpec(k, "%", true) + "%")
            && (!flags.startsWith && !flags.wildcard && flags.smart ==> r == "%" + k + "%")
            && (!flags.startsWith && !flags.wildcard && !flags.smart ==> r == k)
    ensures flags.caseInsensitive ==> NoUpper(PrepareKeyword(flags, keyword))
  {
    if flags.caseInsensitive {
      var k := ToLower(keyword);
      if !flags.startsWith && flags.wildcard {
        assert NoUpper(Helper.WildcardSpec(k, "%", true));
      }
      NoUpperConcat(k, "%");
      if !flags.startsWith {
        var w := if flags.wildcard then Helper.WildcardSpec(k, "%", true) else k;
        NoUpperConcat("%", w);
        NoUpperConcat("%" + w, "%");
      }
    }
  }

  lemma NoUpperConcat(a: string, b: string)
    requires NoUpper(a) && NoUpper(b)
    ensures NoUpper(a + b)
  {
    assert forall i :: 0 <= i < |a + b| ==> (a + b)[i] == if i < |a| then a[i] else b[i - |a|];
  }

  // ----- columns -------------------------------------------------------------------

  /** `castColumn(column)`: PostgreSQL and Firebird compare as text. */
  function CastColumn(dialect: Dialect, column: string): (r: string)
    ensures dialect.Pgsql? ==> r == "CAST(" + column + " AS TEXT)"
    ensures dialect.Firebird? ==> r == "CAST(" + column + " AS VARCHAR(255))"
    ensures dialect.Oracle? || dialect.OtherDialect? ==> r == column
  {
    match dialect
    case Pgsql => "CAST(" + column + " AS TEXT)"
    case Firebird => "CAST(" + column + " AS VARCHAR(255))"
    case _ => column
  }

  /** `addTablePrefix(query, column)`: a column without a dot is qualified by
      the table the query reads (`table`, the name found after `from` in
      the query's SQL, `''` when there is none), and the result is quoted
      by `wrap`. */
  function AddTablePrefix(table: string, column: string): string {
    Helper.Wrap(Qualified(table, column))
  }

  /** The column `addTablePrefix` hands to `wrapColumn`. */
  function Qualified(table: string, column: string): string {
    if '.' in column then column
    else
      var parts := Split(table, " as ");
      var from := if Contains(table, " as ") && |parts| > 1 then parts[1] else table;
      from + "." + column
  }

  /** `wrapColumn(column)` of the database engine as written: it returns
      `Helper.wrapColumn(column, true)`, a member `Helper` does not define,
      so it throws. The rest of the model quotes by `Helper.wrap`, the
      evident intent. */
  function WrapColumnAsWritten(column: string): (r: Result<string>)
    ensures r == Err(TypeError)
  {
    if Helper.Defines("wrapColumn") then Ok(Helper.Wrap(column)) else Err(TypeError)
  }

  /** The `LIKE` test of a quoted column: cast to text where the dialect
      needs it, and lower-cased when the search ignores case. */
  function LikeSql(dialect: Dialect, caseInsensitive: bool, column: string): string {
    var col := CastColumn(dialect, column);
    if caseInsensitive then "LOWER(" + col + ") LIKE ?" else col + " LIKE ?"
  }

  /** The `LIKE` fragment of each dialect. */
  lemma LikeSqlForms(col: string)
    ensures LikeSql(Pgsql, false, col) == "CAST(" + col + " AS TEXT) LIKE ?"
    ensures LikeSql(Pgsql, true, col) == "LOWER(CAST(" + col + " AS TEXT)) LIKE ?"
    ensures LikeSql(Firebird, false, col) == "CAST(" + col + " AS VARCHAR(255)) LIKE ?"
    ensures LikeSql(Firebird, true, col) == "LOWER(CAST(" + col + " AS VARCHAR(255))) LIKE ?"
    ensures LikeSql(Oracle, false, col) == col + " LIKE ?" && LikeSql(OtherDialect, false, col) == col + " LIKE ?"
    ensures LikeSql(Oracle, true, col) == "LOWER(" + col + ") LIKE ?"
    ensures LikeSql(OtherDialect, true, col) == "LOWER(" + col + ") LIKE ?"
  {
    assert "CAST(" + col + " AS TEXT)" + " LIKE ?" == "CAST(" + col + " AS TEXT) LIKE ?";
    assert "LOWER(" + ("CAST(" + col + " AS TEXT)") + ") LIKE ?" == "LOWER(CAST(" + col + " AS TEXT)) LIKE ?";
    assert "CAST(" + col + " AS VARCHAR(255))" + " LIKE ?" == "CAST(" + col + " AS VARCHAR(255)) LIKE ?";
    assert "LOWER(" + ("CAST(" + col + " AS VARCHAR(255))") + ") LIKE ?"
        == "LOWER(CAST(" + col + " AS VARCHAR(255))) LIKE ?";
  }

  /** `compileQuerySearch(query, column, keyword, boolean)`: the keyword only
      ever travels as the single binding, prepared by `prepareKeyword`; the
      column is qualified, quoted and compared with `LIKE`. */
  function LikeSearch(dialect: Dialect, flags: Config.Flags, table: string, column: string,
                      keyword: string, conj: Conjunction): (c: Call)
    ensures (conj.OrWhere? ==> c.OrWhereRaw?) && (conj.AndWhere? ==> c.WhereRaw?)
    ensures c.bindings == [PrepareKeyword(flags, keyword)]
    ensures c.sql == LikeSql(dialect, flags.caseInsensitive, AddTablePrefix(table, column))
  {
    var sql := LikeSql(dialect, flags.caseInsensitive, AddTablePrefix(table, column));
    var bindings := [PrepareKeyword(flags, keyword)];
    if conj.OrWhere? then OrWhereRaw(sql, bindings) else WhereRaw(sql, bindings)
  }

  /** `compileQuerySearch` as written: `addTablePrefix` ends in
      `wrapColumn`, so the search throws before any `LIKE` is added, where
      `LikeSearch` adds one. */
  function LikeSearchAsWritten(dialect: Dialect, flags: Config.Flags, table: string, column: string,
                               keyword: string, conj: Conjunction): (r: Result<Call>)
    ensures r == Err(TypeError)
    ensures LikeSearch(dialect, flags, table, column, keyword, conj).bindings == [PrepareKeyword(flags, keyword)]
  {
    match WrapColumnAsWritten(Qualified(table, column))
    case Err(e) => Err(e)
    case Ok(_) => Ok(LikeSearch(dialect, flags, table, column, keyword, conj))
  }

  /** `regexColumnSearch` as written: its first statement is
      `wrapColumn(column)`, so it throws before any `whereRaw`. */
  function RegexSearchAsWritten(dialect: Dialect, caseInsensitive: bool, column: string, keyword: string): (r: Result<Call>)
    ensures r == Err(TypeError)
    ensures RegexSearch(dialect, caseInsensitive, column, keyword).WhereRaw?
  {
    match WrapColumnAsWritten(column)
    case Err(e) => Err(e)
    case Ok(_) => Ok(RegexSearch(dialect, caseInsensitive, column, keyword))
  }

  /** `regexColumnSearch(column, keyword)`: the quoted column matched with
      the dialect's regular-expression operator; outside Oracle and
      PostgreSQL the keyword is lower-cased whatever the case setting. */
  function RegexSearch(dialect: Dialect, caseInsensitive: bool, column: string, keyword: string): (c: Call)
    ensures c.WhereRaw? && |c.bindings| == 1
    ensures c.bindings[0] == if dialect.Oracle? || dialect.Pgsql? then keyword else ToLower(keyword)
  {
    var col := Helper.Wrap(column);
    match dialect
    case Oracle =>
      WhereRaw(if !caseInsensitive then "REGEXP_LIKE( " + col + " , ? )"
               else "REGEXP_LIKE( LOWER(" + col + ") , ?, 'i' )", [keyword])
    case Pgsql =>
      var cast := CastColumn(Pgsql, col);
      WhereRaw(if !caseInsensitive then cast + " ~ ?" else cast + " ~* ? ", [keyword])
    case _ =>
      WhereRaw(if !caseInsensitive then col + " REGEXP ?" else "LOWER(" + col + ") REGEXP ?", [ToLower(keyword)])
  }

  /** The regular-expression fragments of each dialect. */
  lemma RegexFragments(column: string, keyword: string)
    ensures var col := Helper.Wrap(column);
            RegexSearch(Oracle, false, column, keyword).sql == "REGEXP_LIKE( " + col + " , ? )"
            && RegexSearch(Oracle, true, column, keyword).sql == "REGEXP_LIKE( LOWER(" + col + ") , ?, 'i' )"
            && RegexSearch(Pgsql, false, column, keyword).sql == "CAST(" + col + " AS TEXT) ~ ?"
            && RegexSearch(Pgsql, true, column, keyword).sql == "CAST(" + col + " AS TEXT) ~* ? "
            && RegexSearch(Firebird, false, column, keyword).sql == col + " REGEXP ?"
            && RegexSearch(OtherDialect, true, column, keyword).sql == "LOWER(" + col + ") REGEXP ?"
  {
    var col := Helper.Wrap(column);
    assert "CAST(" + col + " AS TEXT)" + " ~ ?" == "CAST(" + col + " AS TEXT) ~ ?";
    assert "CAST(" + col + " AS TEXT)" + " ~* ? " == "CAST(" + col + " AS TEXT) ~* ? ";
  }

  // ----- ordering ----------------------------------------------------------------------

  /** The `%s` and `%%` conversions of `sprintf`, from position `i` of the
      template on: each `%s` takes the next argument in turn, `%%` is a
      literal percent sign; a missing argument or any other conversion throws. */
  function FillFrom(template: string, i: nat, args: seq<string>): Result<string>
    requires i <= |template|
    decreases |template| - i
  {
    if i == |template| then Ok([])
    else if template[i] == '%' && i + 1 < |template| && template[i + 1] == 's' then
      if args == [] then Err("SyntaxError")
      else var rest :- FillFrom(template, i + 2, args[1..]); Ok(args[0] + rest)
    else if template[i] == '%' && i + 1 < |template| && template[i + 1] == '%' then
      var rest :- FillFrom(template, i + 2, args); Ok("%" + rest)
    else if template[i] == '%' then Err("SyntaxError")
    else var rest :- FillFrom(template, i + 1, args); Ok([template[i]] + rest)
  }

  const NullsLastTemplate: string := "%s %s NULLS LAST"

  /** `getNullsLastSql(column, direction)`: the configured template (key
      `datatables.nulls_last_sql` inside the datatables configuration,
      `'%s %s NULLS LAST'` by default) filled with the column and the
      direction, then its first `:column` and `:direction` replaced. */
  function NullsLastSql(config: Value, column: string, direction: string): Result<string> {
    var template := Config.ConfigGet(config, ["datatables", "nulls_last_sql"], Some(Str(NullsLastTemplate)));
    if !template.Str? then Err(TypeError)
    else
      var filled :- FillFrom(template.s, 0, [column, direction]);
      Ok(ReplaceFirst(ReplaceFirst(filled, ":column", column), ":direction", direction))
  }

  /** With the default template the clause is `column direction NULLS LAST`. */
  lemma NullsLastDefault(column: string, direction: string)
    requires ':' !in column && ':' !in direction
    ensures NullsLastSql(Obj([]), column, direction) == Ok(column + " " + direction + " NULLS LAST")
  {
    var template := Config.ConfigGet(Obj([]), ["datatables", "nulls_last_sql"], Some(Str(NullsLastTemplate)));
    assert template == Str(NullsLastTemplate) by {
      Config.EmptyMisses(["datatables", "nulls_last_sql"]);
    }
    FillDefault(column, direction);
    var filled := column + " " + direction + " NULLS LAST";
    assert ':' !in filled;
    ColonFree(filled, ":column");
    ColonFree(filled, ":direction");
  }

  /** `sprintf('%s %s NULLS LAST', column, direction)`. */
  lemma FillDefault(column: string, direction: string)
    ensures FillFrom(NullsLastTemplate, 0, [column, direction]) == Ok(column + " " + direction + " NULLS LAST")
  {
    var t := NullsLastTemplate;
    NullsLastShape();
    FillDefaultDirection(direction);
    assert [column, direction][1..] == [direction];
    FillConversion(t, 0, [column, direction]);
    assert column + (" " + direction + " NULLS LAST") == column + " " + direction + " NULLS LAST";
  }

  /** The default template: two `%s` conversions around a space, then plain text. */
  lemma NullsLastShape()
    ensures var t := NullsLastTemplate;
            |t| > 5 && t[0] == '%' && t[1] == 's' && t[2] == ' ' && t[3] == '%' && t[4] == 's'
            && t[5..] == " NULLS LAST" && '%' !in t[5..]
  {
    assert NullsLastTemplate == "%s %s" + " NULLS LAST";
  }

  /** The default template from its second `%s` on. */
  lemma FillDefaultDirection(direction: string)
    ensures FillFrom(NullsLastTemplate, 2, [direction]) == Ok(" " + direction + " NULLS LAST")
  {
    var t := NullsLastTemplate;
    var tail := " NULLS LAST";
    NullsLastShape();
    FillPlain(t, 5, []);
    assert [direction][1..] == [];
    FillConversion(t, 3, [direction]);
    FillChar(t, 2, [direction]);
    assert [' '] + (direction + tail) == " " + direction + tail;
  }

  lemma FillConversion(t: string, i: nat, args: seq<string>)
    requires i + 1 < |t| && t[i] == '%' && t[i + 1] == 's' && args != [] && FillFrom(t, i + 2, args[1..]).Ok?
    ensures FillFrom(t, i, args) == Ok(args[0] + FillFrom(t, i + 2, args[1..]).value)
  {
  }

  lemma FillChar(t: string, i: nat, args: seq<string>)
    requires i < |t| && t[i] != '%' && FillFrom(t, i + 1, args).Ok?
    ensures FillFrom(t, i, args) == Ok([t[i]] + FillFrom(t, i + 1, args).value)
  {
  }

  /** A template without `%` is copied as it is. */
  lemma {:induction false} FillPlain(template: string, i: nat, args: seq<string>)
    requires i <= |template| && '%' !in template[i..]
    ensures FillFrom(template, i, args) == Ok(template[i..])
    decreases |template| - i
  {
    if i == |template| {
      assert template[i..] == [];
    } else {
      assert template[i] == template[i..][0];
      assert template[i..] == [template[i]] + template[i + 1..];
      FillPlain(template, i + 1, args);
      FillChar(template, i, args);
    }
  }

  lemma ColonFree(s: string, pattern: string)
    requires ':' !in s && |pattern| >= 1 && pattern[0] == ':'
    ensures !Contains(s, pattern)
  {
    IndexOfContains(s, pattern);
    IndexOfFirst(s, pattern);
  }

  /** `sql.replace('$1', direction)` of an order override. */
  function OrderSql(sql: string, direction: string): (r: string)
    ensures !Contains(sql, "$1") ==> r == sql
  {
    ReplaceFirst(sql, "$1", direction)
  }
}
