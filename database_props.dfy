/** What the query-builder engines of src/engines/database_datatable.ts and
    src/engines/lucid_datatable.ts promise about the calls they record:
    joins through `belongsTo` relations, the column and global searches,
    ordering, the appends and the reply. */
module DatabaseProperties {
  import opened Wrappers
  import opened Strings
  import opened Values
  import opened Sql
  import opened Database
  import Config
  import Request
  import Registry
  import Helper
  import Seqs

  // ----- joins ------------------------------------------------------------------

  /** A segment the Lucid engine can join: a `belongsTo` of the root model. */
  predicate Joinable(m: Model, segment: string) {
    FindRelation(m.relations, segment).Some? && FindRelation(m.relations, segment).value.kind.BelongsTo?
  }

  /** The join of a `belongsTo` relation, always on the root table's
      foreign key. */
  function RootJoin(m: Model, rel: Relation): Call {
    LeftJoin(rel.relatedTable, m.table + "." + rel.foreignKey, "=", rel.relatedTable + "." + rel.localKey)
  }

  /** The join a joinable segment records. */
  function SegmentJoin(m: Model, segment: string): Call
    requires Joinable(m, segment)
  {
    RootJoin(m, FindRelation(m.relations, segment).value)
  }

  /** While the segments are `belongsTo` relations of the root model, each
      records its own join, in segment order, on the root table. */
  lemma JoinsUpTo(m: Model, segments: seq<string>, n: nat)
    requires n <= |segments|
    requires forall k :: 0 <= k < n ==> Joinable(m, segments[k])
    ensures var run := Steps(n, JoinStep(m, segments));
            run.outcome == Done && |run.calls| == n
            && forall k :: 0 <= k < n ==> run.calls[k] == SegmentJoin(m, segments[k])
  {
    var step := JoinStep(m, segments);
    forall i | 0 <= i < n
      ensures step(i) == Run([SegmentJoin(m, segments[i])], Done)
    {
    }
    StepsDone(n, step);
    StepsSingles(n, step);
  }

  /** A path of `belongsTo` relations is joined segment by segment. */
  lemma JoinsAllBelongsTo(m: Model, segments: seq<string>)
    requires forall k :: 0 <= k < |segments| ==> Joinable(m, segments[k])
    ensures Joins(m, segments).outcome == Done && |Joins(m, segments).calls| == |segments|
    ensures forall k :: 0 <= k < |segments| ==>
              Joins(m, segments).calls[k] == SegmentJoin(m, segments[k])
  {
    JoinsUpTo(m, segments, |segments|);
  }

  /** The first segment that is not a `belongsTo` stops the joins: those
      before it are recorded, nothing after, and a relation of another type
      is refused by name. */
  lemma JoinsStopAtUnsupported(m: Model, segments: seq<string>, k: nat)
    requires k < |segments|
    requires forall j :: 0 <= j < k ==> Joinable(m, segments[j])
    requires !Joinable(m, segments[k])
    ensures Joins(m, segments).outcome.Thrown? && |Joins(m, segments).calls| == k
    ensures forall j :: 0 <= j < k ==>
              Joins(m, segments).calls[j] == SegmentJoin(m, segments[j])
    ensures FindRelation(m.relations, segments[k]).Some? ==>
              Joins(m, segments).outcome == Thrown("Relation " + segments[k] + " is not yet supported.")
  {
    var step := JoinStep(m, segments);
    JoinsUpTo(m, segments, k);
    assert step(k) == Single(JoinCall(m, segments[k]));
    StepsStop(|segments|, step, k);
  }

  /** The Lucid engine resolves `relation.column`, for an eager-loaded
      `belongsTo` relation, by joining the related table and answering the
      column on it. */
  lemma EagerColumnJoins(t: Table, relation: string, column: string)
    requires t.model.Some? && '.' !in relation && '.' !in column
    requires relation != "" && relation != t.model.value.name && Joinable(t.model.value, relation)
    ensures var m := t.model.value;
            var rel := FindRelation(m.relations, relation).value;
            Resolve(t, relation + "." + column) == Resolved(Run([RootJoin(m, rel)], Done), rel.relatedTable + "." + column)
  {
    var m := t.model.value;
    QualifiedParts(relation, column);
    ContainsChar(relation, '.');
    SplitWithout(relation, ".");
    JoinsUpTo(m, [relation], 1);
  }

  /** A column without a dot has no relation prefix, so the Lucid engine
      searches it as the database engine does. */
  lemma UndottedSearchesLike(t: Table, table: string, column: string, keyword: string, conj: Conjunction)
    requires '.' !in column
    ensures CompileSearch(t, table, column, keyword, conj) == LikeSearch(t.dialect, Flags(t), table, column, keyword, conj)
  {
    ContainsChar(column, '.');
    SplitWithout(column, ".");
    assert RelationPath(column) == "";
  }

  /** A column behind an eager-loaded relation is searched through
      `whereHas` (`orWhereHas` for the `or` conjunction) with a `LIKE` on the
      related table's column inside. */
  lemma EagerSearchUsesWhereHas(t: Table, table: string, relation: string, column: string,
                                keyword: string, conj: Conjunction)
    requires t.model.Some? && '.' !in column && !IsNotEagerLoaded(t.model.value, relation)
    ensures var rel := FindRelation(t.model.value.relations, relation).value;
            var inner := [LikeSearch(t.dialect, Flags(t), rel.relatedTable, column, keyword, AndWhere)];
            CompileSearch(t, table, relation + "." + column, keyword, conj)
              == if conj.OrWhere? then OrWhereHas(relation, inner) else WhereHas(relation, inner)
  {
    QualifiedParts(relation, column);
  }

  // ----- column search -------------------------------------------------------------

  /** A request column that is named but not searchable, or blacklisted
      without a filter override, records nothing. */
  lemma ColumnStepSkips(t: Table, i: nat, column: string)
    requires ColumnName(t, i, false) == Ok(Some(column))
    requires !Request.IsColumnSearchable(Request.Legacy, t.params, i, true)
             || (IsBlacklisted(t, Some(column)) == Ok(true) && !HasFilter(t, column))
    ensures ColumnStep(t, i) == Run([], Done)
  {
  }

  /** A filter override is handed the keyword as typed, whether or not the
      column is blacklisted and whatever the regex flag says. */
  lemma FilterGetsRawKeyword(t: Table, i: nat, column: string, callback: nat, result: Value)
    requires ColumnName(t, i, false) == Ok(Some(column))
    requires Request.IsColumnSearchable(Request.Legacy, t.params, i, true)
    requires IsBlacklisted(t, Some(column)).Ok?
    requires HasKey(t.filters, column) && Prop(Lookup(t.filters, column).value, "method") == Fun(callback, result)
    ensures ColumnStep(t, i) == Run([Invoke(callback, [ColumnKeyword(t.params, i)])], Done)
  {
    assert HasFilter(t, column);
    assert SearchKeyword(t, i, true) == ColumnKeyword(t.params, i);
  }

  /** A searchable column without override is resolved and searched with
      one call; the database engine resolves nothing. */
  lemma UnfilteredColumnStep(t: Table, i: nat, column: string)
    requires t.model.None?
    requires ColumnName(t, i, false) == Ok(Some(column))
    requires Request.IsColumnSearchable(Request.Legacy, t.params, i, true)
    requires IsBlacklisted(t, Some(column)) == Ok(false) && !HasFilter(t, column)
    ensures ColumnStep(t, i) == Run([CompileColumnSearch(t, i, column)], Done)
  {
    assert Resolve(t, column) == Resolved(Run([], Done), column);
  }

  /** The database engine's search of a column: a regular expression is
      matched against the keyword as typed; otherwise a `LIKE` is bound to
      the keyword after `setupKeyword` and then `prepareKeyword`. */
  lemma ColumnSearchCall(t: Table, i: nat, column: string)
    requires t.model.None?
    ensures var keyword := ColumnKeyword(t.params, i);
            Request.IsRegex(Request.Legacy, t.params, i) ==>
              CompileColumnSearch(t, i, column) == RegexSearch(t.dialect, Flags(t).caseInsensitive, column, keyword)
    ensures var keyword := ColumnKeyword(t.params, i);
            !Request.IsRegex(Request.Legacy, t.params, i) ==>
              CompileColumnSearch(t, i, column).WhereRaw?
              && CompileColumnSearch(t, i, column).bindings
                 == [PrepareKeyword(Flags(t), Registry.SetupKeyword(t.config, keyword))]
  {
  }

  /** With the default configuration (smart search on, wildcards off) the
      keyword `a` of a column search is bound as `%%a%}%`. */
  lemma DefaultKeywordTwiceWrapped()
    ensures PrepareKeyword(Config.FlagsOf(Obj([])), Registry.SetupKeyword(Obj([]), "a")) == "%%a%}%"
  {
    Config.Defaults([""]);
    Registry.SetupKeywordCases(Obj([]), "a");
    assert "%" + "a" + "%}" == "%a%}";
    assert "%" + "%a%}" + "%" == "%%a%}%";
  }

  // ----- global search ---------------------------------------------------------------

  /** The grouped `where` of `globalSearch` holds one call per column kept
      from the searchable ones: no kept column is blacklisted without a
      filter override (appended columns, which `addColumn` blacklists, are
      thus left out), and each call is the column's filter override or an
      `OR`ed search. */
  lemma GlobalGroupShape(t: Table, keyword: string)
    requires GlobalGroup(t, keyword).Ok?
    ensures var group := GlobalGroup(t, keyword).value;
            exists kept: seq<Option<string>> ::
              |kept| == |group|
              && (forall n :: n in kept ==> !Rejected(t, n))
              && forall k :: 0 <= k < |kept| ==> GlobalCall(t, kept[k], keyword) == Ok(group[k])
    ensures forall c :: c in GlobalGroup(t, keyword).value ==> c.Invoke? || c.OrWhereRaw? || c.OrWhereHas?
  {
    var indices := Request.SearchableIndices(Request.Legacy, t.params).value;
    var names := ColumnNames(t, indices).value;
    var kept := Unrejected(t, names).value;
    var group := GlobalCalls(t, kept, keyword).value;
    assert GlobalGroup(t, keyword).value == group;
    forall c | c in group ensures c.Invoke? || c.OrWhereRaw? || c.OrWhereHas? {
      var k :| 0 <= k < |group| && group[k] == c;
      GlobalCallShape(t, kept[k], keyword);
    }
  }

  lemma GlobalCallShape(t: Table, name: Option<string>, keyword: string)
    requires GlobalCall(t, name, keyword).Ok?
    ensures var c := GlobalCall(t, name, keyword).value;
            c.Invoke? || c.OrWhereRaw? || c.OrWhereHas?
  {
  }

  /** `filtering()` records one grouped `where` per keyword, in keyword order. */
  lemma FilteringOncePerTerm(t: Table)
    ensures var run := FilteringRun(t);
            var terms := Terms(t);
            run.outcome == Done ==>
              |run.calls| == |terms|
              && forall k :: 0 <= k < |terms| ==> GlobalSearchCall(t, terms[k]) == Ok(run.calls[k])
  {
    var terms := Terms(t);
    var step := TermSteps(t, terms);
    forall i | 0 <= i < |terms|
      ensures step(i) == Single(GlobalSearchCall(t, terms[i]))
    {
    }
    StepsSingles(|terms|, step);
  }

  // ----- ordering ------------------------------------------------------------------------

  /** Without an override the database engine orders by the quoted column
      and the direction, or, after `orderByNullsLast`, by the default
      template filled with the column as it is. */
  lemma PlainOrderDefault(t: Table, column: string, direction: string)
    requires t.config == Obj([]) && ':' !in column && ':' !in direction
    ensures PlainOrder(t, true, column, direction)
            == Run([OrderByRaw(column + " " + direction + " NULLS LAST", Undefined)], Done)
    ensures PlainOrder(t, false, column, direction)
            == Run([OrderByRaw(Helper.Wrap(column) + " " + direction, Undefined)], Done)
  {
    NullsLastDefault(column, direction);
  }

  /** A named directive of the database engine is ordered by its override
      when it has one, else as a plain column. */
  lemma DatabaseOrderStep(t: Table, nullsLast: bool, name: string, direction: string)
    requires t.model.None?
    ensures HasOrder(t, name) ==>
              OrderStep(t, nullsLast, Orderable(Some(name), direction)) == OrderColumnRun(t, name, direction)
    ensures !HasOrder(t, name) ==>
              OrderStep(t, nullsLast, Orderable(Some(name), direction)) == PlainOrder(t, nullsLast, name, direction)
  {
    assert Resolve(t, name) == Resolved(Run([], Done), name);
  }

  /** An override whose `sql` is `false` orders by nothing; a string has its
      first `$1` replaced by the direction and goes to `orderByRaw` with its
      bindings; a function is handed the direction. */
  lemma OrderOverride(t: Table, column: string, direction: string)
    ensures var entry := OrderEntry(t, column);
            var sql := Prop(entry, "sql");
            (sql == Bool(false) ==> OrderColumnRun(t, column, direction) == Run([], Done))
            && (sql.Str? ==> OrderColumnRun(t, column, direction)
                             == Run([OrderByRaw(ReplaceFirst(sql.s, "$1", direction), Prop(entry, "bindings"))], Done))
            && (sql.Fun? ==> OrderColumnRun(t, column, direction) == Run([Invoke(sql.id, [direction])], Done))
  {
  }

  /** `disableUserOrdering` suppresses every ordering, the callback included. */
  lemma DisabledOrdering(t: Table, orderCallback: Value, nullsLast: bool)
    ensures OrderingRun(t, true, orderCallback, nullsLast) == Run([], Done)
  {
  }

  // ----- appends and the reply ------------------------------------------------------------

  /** Looking a key up in fields with one more field at the end. */
  lemma {:induction false} LookupSnoc(fields: seq<Field>, f: Field, k: string)
    ensures Lookup(fields + [f], k)
            == if HasKey(fields, k) then Lookup(fields, k) else if k == f.key then Some(f.val) else None
  {
    if fields != [] {
      assert (fields + [f])[1..] == fields[1..] + [f];
      LookupSnoc(fields[1..], f, k);
      if fields[0].key != k {
        assert HasKey(fields, k) == HasKey(fields[1..], k) by {
          if HasKey(fields, k) {
            var j :| 0 <= j < |fields| && fields[j].key == k;
            assert fields[1..][j - 1] == fields[j];
          }
          if HasKey(fields[1..], k) {
            var j :| 0 <= j < |fields[1..]| && fields[1..][j].key == k;
            assert fields[j + 1] == fields[1..][j];
          }
        }
      }
    }
  }

  /** Each append is copied under its own key, a function's answer in
      place of the function. */
  lemma {:induction false} EvaluatedLookup(entries: seq<Field>, k: string)
    requires UniqueKeys(entries)
    ensures Lookup(EvaluatedAppends(entries), k)
            == if HasKey(entries, k) then Some(EvaluatedAppend(Lookup(entries, k).value)) else None
    decreases |entries|
  {
    if entries != [] {
      var n := |entries| - 1;
      var last := entries[n];
      assert UniqueKeys(entries[..n]);
      EvaluatedLookup(entries[..n], k);
      AssignLookup(EvaluatedAppends(entries[..n]), last.key, EvaluatedAppend(last.val), k);
      assert entries[..n] + [last] == entries;
      LookupSnoc(entries[..n], last, k);
      assert !HasKey(entries[..n], last.key) by {
        forall j | 0 <= j < n ensures entries[..n][j].key != last.key {
          assert entries[..n][j] == entries[j];
        }
      }
    }
  }

  /** `attachAppends` sends every append under its key, evaluated, and
      `disableOrdering` with the engine's flag, over any append of that name. */
  lemma AttachedAppendsLookup(fields: seq<Field>, disable: bool, k: string)
    requires UniqueKeys(fields)
    ensures Lookup(AttachedAppends(Obj(fields), disable), "disableOrdering") == Some(Bool(disable))
    ensures k != "disableOrdering" ==>
              Lookup(AttachedAppends(Obj(fields), disable), k)
              == if HasKey(fields, k) then Some(EvaluatedAppend(Lookup(fields, k).value)) else None
  {
    var evaluated := EvaluatedAppends(fields);
    assert AttachedAppends(Obj(fields), disable) == Assign(evaluated, "disableOrdering", Bool(disable));
    AssignLookup(evaluated, "disableOrdering", Bool(disable), "disableOrdering");
    if k != "disableOrdering" {
      EvaluatedLookup(fields, k);
      AssignLookup(evaluated, "disableOrdering", Bool(disable), k);
    }
  }

  /** After `orderColumns(columns, sql, bindings)` every listed column has
      the template with its own name for `:column`; the others keep their
      override. */
  lemma {:induction false} OrderColumnsEntries(orders: seq<Field>, columns: seq<string>, sql: string,
                                               bindings: Value, c: string)
    ensures Lookup(OrdersAfter(orders, columns, sql, bindings), c)
            == if c in columns
               then Some(Obj([Field("sql", Str(ReplaceFirst(sql, ":column", c))), Field("bindings", bindings)]))
               else Lookup(orders, c)
    decreases |columns|
  {
    if columns != [] {
      var n := |columns| - 1;
      var init := columns[..n];
      var last := columns[n];
      var before := OrdersAfter(orders, init, sql, bindings);
      var entry := Obj([Field("sql", Str(ReplaceFirst(sql, ":column", last))), Field("bindings", bindings)]);
      assert OrdersAfter(orders, columns, sql, bindings) == Assign(before, last, entry);
      OrderColumnsEntries(orders, init, sql, bindings, c);
      AssignLookup(before, last, entry, c);
      Seqs.InInitOrLast(columns, c);
    }
  }

  /** The envelope's `data` is the data rendered when no append is named
      `data`. */
  lemma EnvelopeData(draw: Value, total: int, filtered: int, data: Value, appends: seq<Field>,
                     debug: bool, input: Value)
    requires UniqueKeys(appends) && !HasKey(appends, "data")
    ensures Lookup(Registry.Envelope(draw, total, filtered, data, Obj(appends), debug, input), "data") == Some(data)
  {
    var base := Registry.BaseEnvelope(draw, total, filtered, data);
    var out := Spread(base, Obj(appends));
    assert Lookup(out, "data") == Some(data) by {
      Registry.AssignAllLookup(base, appends, "data");
      BaseData(draw, total, filtered, data);
    }
    assert Registry.Envelope(draw, total, filtered, data, Obj(appends), debug, input)
           == if debug then Assign(out, "input", input) else out;
    AssignLookup(out, "input", input, "data");
  }

  /** The envelope before its appends holds `data` under `data`. */
  lemma BaseData(draw: Value, total: int, filtered: int, data: Value)
    ensures Lookup(Registry.BaseEnvelope(draw, total, filtered, data), "data") == Some(data)
  {
    var base := Registry.BaseEnvelope(draw, total, filtered, data);
    assert base[0].key != "data" && base[1].key != "data" && base[2].key != "data";
    assert Lookup(base, "data") == Lookup(base[3..], "data");
  }

  /** `results()` as written renders the processor's pending promise, so
      the rows never reach the reply: its `data` is `{}`. */
  lemma PromiseRendered(config: Value, params: Value, total: int, filtered: int, rows: seq<Value>,
                        appends: seq<Field>)
    requires !IsNullish(Config.JsonHeaders(config)) && UniqueKeys(appends) && !HasKey(appends, "data")
    ensures var reply := ReplyAsWritten(config, params, total, filtered, rows, Obj(appends));
            reply.body.Obj? && Lookup(reply.body.fields, "data") == Some(Obj([]))
            && Lookup(reply.body.fields, "data") != Some(Arr(rows))
  {
    EnvelopeData(Request.Draw(Request.Legacy, params), total, filtered, PendingPromise, appends,
                 Truthy(Config.IsDebugging(config)), params);
  }

  /** With the rows awaited, the reply's `data` is the rows. */
  lemma RowsRendered(config: Value, params: Value, total: int, filtered: int, rows: seq<Value>,
                     appends: seq<Field>)
    requires !IsNullish(Config.JsonHeaders(config)) && UniqueKeys(appends) && !HasKey(appends, "data")
    ensures var reply := Reply(config, params, total, filtered, Arr(rows), Obj(appends));
            reply.status == 200 && reply.body.Obj? && Lookup(reply.body.fields, "data") == Some(Arr(rows))
  {
    EnvelopeData(Request.Draw(Request.Legacy, params), total, filtered, Arr(rows), appends,
                 Truthy(Config.IsDebugging(config)), params);
  }
}
