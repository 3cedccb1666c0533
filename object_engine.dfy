/** `ObjectDataTable` of src/engines/object_datatable.ts: the engine over an
    in-memory list of rows. It shares the registry of every engine; each
    search, sort and slice replaces `collection`, the list it holds. The
    collect.js operations it calls (`filter`, `sortBy`, `sortByDesc`,
    `slice`) are functions on lists here; the loops of the source are
    methods proved against the functions that specify them. */
module ObjectEngine {
  import opened Wrappers
  import opened Strings
  import opened Values
  import Seqs
  import Helper
  import StrUtil
  import Config
  import Request
  import Registry
  import Rows
  import Processor
  import Sql
  import Database

  // ----- sorting ----------------------------------------------------------------

  /** The groups `sortBy` orders cell values in: numbers, then strings, then
      every other value, with `null` and `undefined` last. */
  function Rank(v: Value): nat {
    if v.Num? then 0 else if v.Str? then 1 else if IsNullish(v) then 3 else 2
  }

  /** `a < b` on two strings: code unit by code unit, a proper prefix first. */
  predicate TextBefore(a: string, b: string)
    decreases |a|
  {
    if a == [] then b != []
    else b != [] && (a[0] < b[0] || (a[0] == b[0] && TextBefore(a[1..], b[1..])))
  }

  /** Whether `sortBy` puts cell value `a` strictly before cell value `b`. */
  predicate Before(a: Value, b: Value) {
    Rank(a) < Rank(b)
    || (a.Num? && b.Num? && a.n < b.n)
    || (a.Str? && b.Str? && TextBefore(a.s, b.s))
  }

  lemma {:induction false} TextBeforeAsymmetric(a: string, b: string)
    ensures !(TextBefore(a, b) && TextBefore(b, a))
    decreases |a|
  {
    if a != [] && b != [] && a[0] == b[0] {
      TextBeforeAsymmetric(a[1..], b[1..]);
    }
  }

  lemma {:induction false} TextBeforeTransitive(a: string, b: string, c: string)
    requires TextBefore(a, b) && TextBefore(b, c)
    ensures TextBefore(a, c)
    decreases |a|
  {
    if a != [] && a[0] == b[0] && b[0] == c[0] {
      TextBeforeTransitive(a[1..], b[1..], c[1..]);
    }
  }

  /** Two different strings are ordered one way or the other. */
  lemma {:induction false} TextBeforeTotal(a: string, b: string)
    requires a != b
    ensures TextBefore(a, b) || TextBefore(b, a)
    decreases |a|
  {
    if a != [] && b != [] && a[0] == b[0] {
      assert a == [a[0]] + a[1..] && b == [b[0]] + b[1..];
      TextBeforeTotal(a[1..], b[1..]);
    }
  }

  lemma BeforeAsymmetric(a: Value, b: Value)
    ensures !(Before(a, b) && Before(b, a))
  {
    if a.Str? && b.Str? {
      TextBeforeAsymmetric(a.s, b.s);
    }
  }

  /** "Not after" is transitive: `Before` is a strict weak order, so the
      sorted order is well defined up to ties. */
  lemma NotBeforeTransitive(a: Value, b: Value, c: Value)
    requires !Before(b, a) && !Before(c, b)
    ensures !Before(c, a)
  {
    if a.Str? && b.Str? && c.Str? {
      if a.s != b.s { TextBeforeTotal(a.s, b.s); }
      if b.s != c.s { TextBeforeTotal(b.s, c.s); }
      if a.s != b.s && b.s != c.s { TextBeforeTransitive(a.s, b.s, c.s); }
      if a.s != c.s { TextBeforeAsymmetric(a.s, c.s); }
    }
  }

  /** The value `sortBy(column)` compares a row by. */
  function Key(row: Value, column: string): Value {
    Get(row, column, Undefined)
  }

  /** No row is followed by one that sorts strictly before it. */
  predicate SortedBy(rows: seq<Value>, column: string) {
    forall i :: 0 < i < |rows| ==> !Before(Key(rows[i], column), Key(rows[i - 1], column))
  }

  /** No row is followed by one that sorts strictly after it. */
  predicate SortedDescBy(rows: seq<Value>, column: string) {
    forall i :: 0 < i < |rows| ==> !Before(Key(rows[i - 1], column), Key(rows[i], column))
  }

  /** `row` placed before the first row that sorts strictly after it, so
      after every row it ties with. */
  function Insert(row: Value, rows: seq<Value>, column: string): (r: seq<Value>)
    ensures |r| == |rows| + 1 && multiset(r) == multiset(rows) + multiset{row}
    ensures r[0] == row || (rows != [] && r[0] == rows[0])
    ensures SortedBy(rows, column) ==> SortedBy(r, column)
    decreases |rows|
  {
    if rows == [] then [row]
    else if Before(Key(row, column), Key(rows[0], column)) then
      BeforeAsymmetric(Key(row, column), Key(rows[0], column));
      [row] + rows
    else
      assert rows == [rows[0]] + rows[1..];
      [rows[0]] + Insert(row, rows[1..], column)
  }

  /** `sortBy(column)`: a stable sort of the rows by their value at
      `column`. */
  function SortBy(rows: seq<Value>, column: string): (r: seq<Value>)
    ensures |r| == |rows| && multiset(r) == multiset(rows)
    ensures SortedBy(r, column)
    decreases |rows|
  {
    if rows == [] then []
    else
      assert rows == rows[..|rows| - 1] + [rows[|rows| - 1]];
      Insert(rows[|rows| - 1], SortBy(rows[..|rows| - 1], column), column)
  }

  function Reversed(rows: seq<Value>): (r: seq<Value>)
    ensures |r| == |rows| && multiset(r) == multiset(rows)
    ensures forall i :: 0 <= i < |rows| ==> r[i] == rows[|rows| - 1 - i]
    decreases |rows|
  {
    if rows == [] then []
    else
      assert rows == rows[..|rows| - 1] + [rows[|rows| - 1]];
      [rows[|rows| - 1]] + Reversed(rows[..|rows| - 1])
  }

  /** `sortByDesc(column)`: the ascending order, reversed. */
  function SortByDesc(rows: seq<Value>, column: string): (r: seq<Value>)
    ensures |r| == |rows| && multiset(r) == multiset(rows)
  {
    Reversed(SortBy(rows, column))
  }

  /** The descending sort is sorted the other way round. */
  lemma SortByDescSorted(rows: seq<Value>, column: string)
    ensures SortedDescBy(SortByDesc(rows, column), column)
  {
    var up := SortBy(rows, column);
    var r := SortByDesc(rows, column);
    forall i | 0 < i < |r|
      ensures !Before(Key(r[i - 1], column), Key(r[i], column))
    {
      assert r[i - 1] == up[|up| - i] && r[i] == up[|up| - 1 - i];
    }
  }

  /** Sorted in the adjacent sense means sorted pairwise. */
  lemma {:induction false} SortedPairwise(rows: seq<Value>, column: string, i: nat, j: nat)
    requires SortedBy(rows, column) && i <= j < |rows|
    ensures !Before(Key(rows[j], column), Key(rows[i], column))
    decreases j - i
  {
    if i < j {
      SortedPairwise(rows, column, i, j - 1);
      NotBeforeTransitive(Key(rows[i], column), Key(rows[j - 1], column), Key(rows[j], column));
    } else {
      BeforeAsymmetric(Key(rows[i], column), Key(rows[i], column));
    }
  }

  // ----- passes ------------------------------------------------------------------

  /** The rows after a run of steps that each replace them, and whether
      the run finished or threw; a step that throws leaves them as they were. */
  datatype Pass = Pass(rows: seq<Value>, outcome: Outcome)

  /** A step of a pass that may throw. */
  function Apply(p: Pass, step: Result<seq<Value>>): Pass {
    if p.outcome.Thrown? then p
    else if step.Ok? then Pass(step.value, Done)
    else Pass(p.rows, Thrown(step.message))
  }

  /** The first `n` turns of a loop whose `i`-th turn replaces the rows by
      `step(i, rows)`, stopping at the first turn that throws. */
  function Turns(n: nat, step: (nat, seq<Value>) -> Result<seq<Value>>, rows: seq<Value>): Pass {
    if n == 0 then Pass(rows, Done)
    else
      var p := Turns(n - 1, step, rows);
      Apply(p, step(n - 1, p.rows))
  }

  /** Once a turn throws, the later turns change nothing. */
  lemma {:induction false} TurnsStop(n: nat, k: nat, step: (nat, seq<Value>) -> Result<seq<Value>>, rows: seq<Value>)
    requires k <= n && Turns(k, step, rows).outcome.Thrown?
    ensures Turns(n, step, rows) == Turns(k, step, rows)
    decreases n - k
  {
    if k < n {
      TurnsStop(n - 1, k, step, rows);
    }
  }

  /** Turns that each keep a row exactly when it passes their test keep,
      when they all finish, exactly the rows that pass every test; finished
      or not, they only ever drop rows. */
  lemma {:induction false} TurnsKeep(n: nat, step: (nat, seq<Value>) -> Result<seq<Value>>,
                                     keeps: (nat, Value) -> bool, rows: seq<Value>, row: Value)
    requires forall i: nat, rs :: i < n && step(i, rs).Ok? ==>
               |step(i, rs).value| <= |rs| && (row in step(i, rs).value <==> row in rs && keeps(i, row))
    ensures |Turns(n, step, rows).rows| <= |rows|
    ensures row in Turns(n, step, rows).rows ==> row in rows
    ensures Turns(n, step, rows).outcome == Done ==>
              (row in Turns(n, step, rows).rows <==> row in rows && forall i :: 0 <= i < n ==> keeps(i, row))
  {
    if n > 0 {
      TurnsKeep(n - 1, step, keeps, rows, row);
    }
  }

  /** Turns that each rearrange the rows rearrange them. */
  lemma {:induction false} TurnsPermute(n: nat, step: (nat, seq<Value>) -> Result<seq<Value>>, rows: seq<Value>)
    requires forall i: nat, rs :: i < n && step(i, rs).Ok? ==> multiset(step(i, rs).value) == multiset(rs)
    ensures multiset(Turns(n, step, rows).rows) == multiset(rows)
  {
    if n > 0 {
      TurnsPermute(n - 1, step, rows);
    }
  }

  // ----- filtering rows ------------------------------------------------------------

  /** The rows `keep` accepts, in order. `collection.filter(keep)` tests the
      rows first to last, so the first row whose test throws decides the
      error. */
  function KeepRows(rows: seq<Value>, keep: Value -> Result<bool>): (r: Result<seq<Value>>)
    ensures r.Ok? ==> r.value == Seqs.Filter(rows, Passes(keep))
    decreases |rows|
  {
    if rows == [] then Ok([])
    else
      var init := rows[..|rows| - 1];
      var kept :- KeepRows(init, keep);
      var last :- keep(rows[|rows| - 1]);
      Ok(kept + (if last then [rows[|rows| - 1]] else []))
  }

  /** The rows a test accepts without throwing. */
  function Passes(keep: Value -> Result<bool>): Value -> bool {
    (row: Value) => keep(row) == Ok(true)
  }

  /** A row is kept exactly when it is one of the rows and passes, and no
      rows are added. */
  lemma KeptMembers(rows: seq<Value>, keep: Value -> Result<bool>, row: Value)
    requires KeepRows(rows, keep).Ok?
    ensures |KeepRows(rows, keep).value| <= |rows|
    ensures row in KeepRows(rows, keep).value <==> row in rows && keep(row) == Ok(true)
  {
    Seqs.FilterMembers(rows, Passes(keep), row);
  }

  /** Once a row's test throws, the filter throws that error. */
  lemma {:induction false} KeepRowsStops(rows: seq<Value>, keep: Value -> Result<bool>, k: nat)
    requires k <= |rows| && KeepRows(rows[..k], keep).Err?
    ensures KeepRows(rows, keep) == KeepRows(rows[..k], keep)
    decreases |rows| - k
  {
    if k < |rows| {
      var init := rows[..|rows| - 1];
      assert init[..k] == rows[..k];
      KeepRowsStops(init, keep, k);
    } else {
      assert rows[..k] == rows;
    }
  }

  /** A row whose test throws makes the whole filter throw. */
  lemma {:induction false} KeepRowsThrows(rows: seq<Value>, keep: Value -> Result<bool>, k: nat)
    requires k < |rows| && keep(rows[k]).Err?
    ensures KeepRows(rows, keep).Err?
    decreases |rows|
  {
    var init := rows[..|rows| - 1];
    if k < |rows| - 1 {
      assert init[k] == rows[k];
      KeepRowsThrows(init, keep, k);
    }
  }

  // ----- column search ----------------------------------------------------------------

  /** `new RegExp(pattern, ignoreCase ? 'i' : '').test(subject)`: the
      regular-expression engine is a parameter of the model. Building the
      expression throws on an invalid pattern (an unbalanced `(`, say),
      which the engine answers as `Err(SyntaxError)`. */
  type RegexTest = (string, bool, string) -> Result<bool>

  /** `haystack.includes(needle)`: a string is searched for the needle's
      text, an array for the needle itself; nothing else has `includes`. */
  function Includes(haystack: Value, needle: Value): (r: Result<bool>)
    ensures r.Err? <==> !haystack.Str? && !haystack.Arr?
  {
    match haystack
    case Str(s) => Ok(Contains(s, ToJsString(needle)))
    case Arr(items) => Ok(exists i :: 0 <= i < |items| && StrictEquals(items[i], needle))
    case _ => Err(TypeError)
  }

  /** `Helper.contains(haystack, needle)`, the `Str.contains` of
      src/utils/string.ts with one needle: an empty needle matches nothing,
      and only then is the haystack left unread. */
  function ContainsValue(haystack: Value, needle: Value): (r: Result<bool>)
    ensures StrictEquals(needle, Str("")) ==> r == Ok(false)
    ensures haystack.Str? && needle.Str? ==> r == Ok(StrUtil.Matches(haystack.s, needle.s, false))
    ensures r.Err? <==> !StrictEquals(needle, Str("")) && !haystack.Str? && !haystack.Arr?
  {
    if StrictEquals(needle, Str("")) then Ok(false) else Includes(haystack, needle)
  }

  /** The test one column search applies to a cell: a regular expression on
      the texts, or containment, of the lower-cased texts when case is
      ignored; `toLowerCase` exists on strings only. */
  function CellKept(ignoreCase: bool, test: RegexTest, regex: bool, keyword: Value, cell: Value): (r: Result<bool>)
    ensures regex ==> r == test(ToJsString(keyword), ignoreCase, ToJsString(cell))
  {
    if ignoreCase then
      if regex then test(ToJsString(keyword), true, ToJsString(cell))
      else if !cell.Str? || !keyword.Str? then Err(TypeError)
      else ContainsValue(Str(ToLower(cell.s)), Str(ToLower(keyword.s)))
    else if regex then test(ToJsString(keyword), false, ToJsString(cell))
    else ContainsValue(cell, keyword)
  }

  /** Without a regular expression, a string cell passes a string keyword
      exactly when the keyword is not empty and the cell contains it, both
      lower-cased when case is ignored. */
  lemma TextCellKept(ignoreCase: bool, test: RegexTest, keyword: string, cell: string)
    ensures CellKept(ignoreCase, test, false, Str(keyword), Str(cell))
            == Ok(keyword != "" && Contains(StrUtil.Fold(cell, ignoreCase), StrUtil.Fold(keyword, ignoreCase)))
  {
    assert |StrUtil.Fold(keyword, ignoreCase)| == |keyword|;
  }

  /** When case is ignored, a cell or keyword that is not a string makes a
      search without a regular expression throw: `toLowerCase` is missing;
      when case counts, only a cell with no `includes` does. */
  lemma NonTextCellThrows(ignoreCase: bool, test: RegexTest, keyword: Value, cell: Value)
    ensures ignoreCase && (!cell.Str? || !keyword.Str?) ==> CellKept(ignoreCase, test, false, keyword, cell) == Err(TypeError)
    ensures !ignoreCase ==>
              (CellKept(ignoreCase, test, false, keyword, cell).Err?
               <==> keyword != Str("") && !cell.Str? && !cell.Arr?)
  {
  }

  /** The test of one column search as written: without a regular
      expression the filter calls `Helper.contains`, a member `Helper` does
      not define, so it throws for every cell (`toLowerCase` of a non-string
      throws first when case is ignored). `CellKept` is the evident intent,
      with the `Str.contains` of src/utils/string.ts. */
  function CellKeptAsWritten(ignoreCase: bool, test: RegexTest, regex: bool, keyword: Value, cell: Value): (r: Result<bool>)
    ensures regex ==> r == CellKept(ignoreCase, test, regex, keyword, cell)
    ensures !regex ==> r == Err(TypeError)
  {
    if regex then CellKept(ignoreCase, test, regex, keyword, cell)
    else if ignoreCase && (!cell.Str? || !keyword.Str?) then Err(TypeError)
    else if Helper.Defines("contains") then CellKept(ignoreCase, test, regex, keyword, cell)
    else Err(TypeError)
  }

  /** What one turn of the `columnSearch` loop searches: the column, whether
      its keyword is a regular expression, and the keyword. */
  datatype ColumnQuery = ColumnQuery(column: string, regex: bool, keyword: Value)

  /** The turn for request column `i`: columns the request does not name,
      unsearchable columns and blacklisted columns are skipped; filter
      overrides are not consulted. */
  function ColumnQueryAt(t: Database.Table, i: nat): Result<Option<ColumnQuery>> {
    var name :- Database.ColumnName(t, i, false);
    if name.None? || !Request.IsColumnSearchable(Request.Legacy, t.params, i, true) then Ok(None)
    else
      var listed :- Database.IsBlacklisted(t, name);
      if listed then Ok(None)
      else Ok(Some(ColumnQuery(name.value, Request.IsRegex(Request.Legacy, t.params, i),
                               Request.ColumnKeyword(Request.Legacy, t.params, i))))
  }

  /** A column is searched exactly when it is named, searchable with a
      keyword, and not blacklisted; it is searched for its own keyword, as
      a regular expression when the request says so. */
  lemma ColumnQueryCases(t: Database.Table, i: nat)
    ensures Database.ColumnName(t, i, false) == Ok(None) ==> ColumnQueryAt(t, i) == Ok(None)
    ensures Database.ColumnName(t, i, false).Ok? && !Request.IsColumnSearchable(Request.Legacy, t.params, i, true)
            ==> ColumnQueryAt(t, i) == Ok(None)
    ensures ColumnQueryAt(t, i).Ok? && ColumnQueryAt(t, i).value.Some? <==>
              Database.ColumnName(t, i, false).Ok? && Database.ColumnName(t, i, false).value.Some?
              && Request.IsColumnSearchable(Request.Legacy, t.params, i, true)
              && Database.IsBlacklisted(t, Database.ColumnName(t, i, false).value) == Ok(false)
    ensures ColumnQueryAt(t, i).Ok? && ColumnQueryAt(t, i).value.Some? ==>
              var q := ColumnQueryAt(t, i).value.value;
              Database.ColumnName(t, i, false) == Ok(Some(q.column))
              && q.keyword == Request.ColumnKeyword(Request.Legacy, t.params, i)
              && q.regex == Request.IsRegex(Request.Legacy, t.params, i)
  {
  }

  /** The filter of one column search: the test applied to `lodash.get(row, column)`. */
  function ColumnKept(t: Database.Table, test: RegexTest, q: ColumnQuery, row: Value): Result<bool> {
    CellKept(Database.Flags(t).caseInsensitive, test, q.regex, q.keyword, Key(row, q.column))
  }

  function ColumnKeep(t: Database.Table, test: RegexTest, q: ColumnQuery): Value -> Result<bool> {
    (row: Value) => ColumnKept(t, test, q, row)
  }

  /** One turn of `columnSearch()` on the current rows. */
  function ColumnTurn(t: Database.Table, test: RegexTest, i: nat, rows: seq<Value>): Result<seq<Value>> {
    match ColumnQueryAt(t, i)
    case Err(e) => Err(e)
    case Ok(None) => Ok(rows)
    case Ok(Some(q)) => KeepRows(rows, ColumnKeep(t, test, q))
  }

  function ColumnStep(t: Database.Table, test: RegexTest): (nat, seq<Value>) -> Result<seq<Value>> {
    (i: nat, rows: seq<Value>) => ColumnTurn(t, test, i, rows)
  }

  lemma ColumnStepIs(t: Database.Table, test: RegexTest)
    ensures forall i: nat, rs {:trigger ColumnTurn(t, test, i, rs)} :: ColumnStep(t, test)(i, rs) == ColumnTurn(t, test, i, rs)
  {
  }

  /** `columnSearch()`: reading the length of missing columns throws. */
  function ColumnSearchPass(t: Database.Table, test: RegexTest, rows: seq<Value>): Pass {
    if IsNullish(Request.Columns(Request.Legacy, t.params)) then Pass(rows, Thrown(TypeError))
    else Turns(Request.ColumnCount(Request.Legacy, t.params), ColumnStep(t, test), rows)
  }

  /** Whether turn `i` lets `row` through. */
  predicate TurnKeeps(t: Database.Table, test: RegexTest, i: nat, row: Value) {
    match ColumnQueryAt(t, i)
    case Err(_) => false
    case Ok(None) => true
    case Ok(Some(q)) => ColumnKeep(t, test, q)(row) == Ok(true)
  }

  function TurnKeepsAt(t: Database.Table, test: RegexTest): (nat, Value) -> bool {
    (i: nat, row: Value) => TurnKeeps(t, test, i, row)
  }

  /** A turn keeps a row exactly when it lets it through. */
  lemma ColumnTurnKeeps(t: Database.Table, test: RegexTest, i: nat, rows: seq<Value>, row: Value)
    requires ColumnTurn(t, test, i, rows).Ok?
    ensures |ColumnTurn(t, test, i, rows).value| <= |rows|
    ensures row in ColumnTurn(t, test, i, rows).value <==> row in rows && TurnKeeps(t, test, i, row)
  {
    var q := ColumnQueryAt(t, i).value;
    if q.Some? {
      KeptMembers(rows, ColumnKeep(t, test, q.value), row);
    }
  }

  /** A regular-expression column whose pattern the engine rejects for some
      row's cell (`new RegExp` throws a `SyntaxError` on an invalid
      pattern) makes its turn of the column search throw. */
  lemma InvalidPatternThrows(t: Database.Table, test: RegexTest, i: nat, rows: seq<Value>, k: nat)
    requires ColumnQueryAt(t, i).Ok? && ColumnQueryAt(t, i).value.Some? && ColumnQueryAt(t, i).value.value.regex
    requires k < |rows|
    requires var q := ColumnQueryAt(t, i).value.value;
             test(ToJsString(q.keyword), Database.Flags(t).caseInsensitive, ToJsString(Key(rows[k], q.column))).Err?
    ensures ColumnTurn(t, test, i, rows).Err?
  {
    var q := ColumnQueryAt(t, i).value.value;
    assert ColumnKeep(t, test, q)(rows[k]) == ColumnKept(t, test, q, rows[k]);
    KeepRowsThrows(rows, ColumnKeep(t, test, q), k);
  }

  /** The first `n` turns of a column search keep, when they finish,
      exactly the rows every searched column accepts; finished or not, they
      only drop rows. */
  lemma ColumnTurnsKeep(t: Database.Table, test: RegexTest, n: nat, rows: seq<Value>, row: Value)
    ensures |Turns(n, ColumnStep(t, test), rows).rows| <= |rows|
    ensures row in Turns(n, ColumnStep(t, test), rows).rows ==> row in rows
    ensures Turns(n, ColumnStep(t, test), rows).outcome == Done ==>
              (row in Turns(n, ColumnStep(t, test), rows).rows <==>
                 row in rows && forall i :: 0 <= i < n ==> TurnKeeps(t, test, i, row))
  {
    forall i: nat, rs | i < n && ColumnStep(t, test)(i, rs).Ok?
      ensures |ColumnStep(t, test)(i, rs).value| <= |rs|
      ensures row in ColumnStep(t, test)(i, rs).value <==> row in rs && TurnKeepsAt(t, test)(i, row)
    {
      ColumnTurnKeeps(t, test, i, rs, row);
    }
    TurnsKeep(n, ColumnStep(t, test), TurnKeepsAt(t, test), rows, row);
  }

  /** With the columns named by position and no model, every numbered
      request column is read as the primary key `'id'`: `$columns` holds
      no positions. */
  lemma NumberedColumnsReadId(t: Database.Table, i: nat, wantsAlias: bool)
    requires t.columns == Obj([]) && t.extraColumns == [] && t.model.None?
    requires Request.ColumnName(Request.Legacy, t.params, i).Num?
    ensures Database.ColumnName(t, i, wantsAlias) == Ok(Some("id"))
  {
    assert !Contains(ToUpper("id"), " AS ");
  }

  // ----- global search ------------------------------------------------------------------

  /** Whether the column `name` holds, in `row`, a string containing the
      keyword (compared lower-cased when case is ignored). */
  predicate CellHas(t: Database.Table, keyword: string, row: Value, name: Option<string>) {
    var v := Key(row, Database.NameKey(name));
    v.Str? && StrUtil.Matches(StrUtil.Fold(v.s, Database.Flags(t).caseInsensitive), keyword, false)
  }

  /** The loop of the `globalSearch` filter over the searchable indices from
      `indices[0]` on: the first column that has the keyword accepts the
      row; a cell that is not a string is passed over. */
  function GlobalFrom(t: Database.Table, keyword: string, row: Value, indices: seq<nat>): Result<bool>
    decreases |indices|
  {
    if indices == [] then Ok(false)
    else
      var name :- Database.ColumnName(t, indices[0], false);
      if CellHas(t, keyword, row, name) then Ok(true)
      else GlobalFrom(t, keyword, row, indices[1..])
  }

  /** One cell of the `globalSearch` loop as written: a cell that is not a
      string is passed over (`false`, the loop goes on), and a string cell
      reaches `Helper.contains`, which `Helper` does not define, so it
      throws. `CellHas` is the evident intent. */
  function GlobalCellAsWritten(ignoreCase: bool, keyword: string, cell: Value): (r: Result<bool>)
    ensures r.Err? <==> cell.Str?
    ensures r.Ok? ==> r == Ok(false)
  {
    match cell
    case Str(text) =>
      if Helper.Defines("contains") then Ok(StrUtil.Matches(StrUtil.Fold(text, ignoreCase), keyword, false))
      else Err(TypeError)
    case _ => Ok(false)
  }

  /** The filter of `globalSearch`: the searchable indices are read for each
      row. */
  function GlobalKept(t: Database.Table, keyword: string, row: Value): Result<bool> {
    match Request.SearchableIndices(Request.Legacy, t.params)
    case Err(e) => Err(e)
    case Ok(indices) => GlobalFrom(t, keyword, row, indices)
  }

  function GlobalKeep(t: Database.Table, keyword: string): Value -> Result<bool> {
    (row: Value) => GlobalKept(t, keyword, row)
  }

  /** The keyword `globalSearch(keyword)` compares. */
  function Folded(t: Database.Table, keyword: string): string {
    StrUtil.Fold(keyword, Database.Flags(t).caseInsensitive)
  }

  /** `globalSearch(keyword)` on the current rows. */
  function GlobalSearchOf(t: Database.Table, keyword: string, rows: seq<Value>): Result<seq<Value>> {
    KeepRows(rows, GlobalKeep(t, Folded(t, keyword)))
  }

  /** Where every searchable column has a name, a row passes the global
      search exactly when one of them holds the keyword in a string; the
      blacklist plays no part. */
  lemma {:induction false} GlobalFromHas(t: Database.Table, keyword: string, row: Value, indices: seq<nat>)
    requires forall k :: 0 <= k < |indices| ==> Database.ColumnName(t, indices[k], false).Ok?
    ensures GlobalFrom(t, keyword, row, indices).Ok?
    ensures GlobalFrom(t, keyword, row, indices).value <==>
              exists k :: 0 <= k < |indices| && CellHas(t, keyword, row, Database.ColumnName(t, indices[k], false).value)
    decreases |indices|
  {
    if indices != [] {
      var tail := indices[1..];
      assert forall k :: 0 <= k < |tail| ==> tail[k] == indices[k + 1];
      GlobalFromHas(t, keyword, row, tail);
      if !CellHas(t, keyword, row, Database.ColumnName(t, indices[0], false).value) {
        if exists k :: 0 <= k < |indices| && CellHas(t, keyword, row, Database.ColumnName(t, indices[k], false).value) {
          var k :| 0 <= k < |indices| && CellHas(t, keyword, row, Database.ColumnName(t, indices[k], false).value);
          assert k > 0 && tail[k - 1] == indices[k];
        }
      }
    }
  }

  /** The `i`-th turn of `filtering()`: the global search for the `i`-th
      keyword. */
  function TermTurn(t: Database.Table, terms: seq<string>, i: nat, rows: seq<Value>): Result<seq<Value>> {
    if i < |terms| then GlobalSearchOf(t, terms[i], rows) else Ok(rows)
  }

  function TermStep(t: Database.Table, terms: seq<string>): (nat, seq<Value>) -> Result<seq<Value>> {
    (i: nat, rows: seq<Value>) => TermTurn(t, terms, i, rows)
  }

  lemma TermStepIs(t: Database.Table, terms: seq<string>)
    ensures forall i: nat, rs {:trigger TermTurn(t, terms, i, rs)} :: TermStep(t, terms)(i, rs) == TermTurn(t, terms, i, rs)
  {
  }

  /** `filtering()`: one global search per keyword of the request. */
  function FilteringPass(t: Database.Table, rows: seq<Value>): Pass {
    var terms := Database.Terms(t);
    Turns(|terms|, TermStep(t, terms), rows)
  }

  /** Whether `row` passes the global search for the `i`-th keyword. */
  predicate TermKept(t: Database.Table, terms: seq<string>, i: nat, row: Value) {
    i < |terms| ==> GlobalKept(t, Folded(t, terms[i]), row) == Ok(true)
  }

  function TermKeeps(t: Database.Table, terms: seq<string>): (nat, Value) -> bool {
    (i: nat, row: Value) => TermKept(t, terms, i, row)
  }

  /** The global search for keyword `i` keeps a row exactly when the row
      passes it. */
  lemma TermTurnKeeps(t: Database.Table, terms: seq<string>, i: nat, rows: seq<Value>, row: Value)
    requires i < |terms| && TermTurn(t, terms, i, rows).Ok?
    ensures |TermTurn(t, terms, i, rows).value| <= |rows|
    ensures row in TermTurn(t, terms, i, rows).value <==> row in rows && TermKept(t, terms, i, row)
  {
    KeptMembers(rows, GlobalKeep(t, Folded(t, terms[i])), row);
  }

  /** The global searches of `filtering()` keep, when they all finish,
      exactly the rows that pass the search for every keyword; finished or
      not, they only drop rows. */
  lemma TermsKeep(t: Database.Table, terms: seq<string>, rows: seq<Value>, row: Value)
    ensures |Turns(|terms|, TermStep(t, terms), rows).rows| <= |rows|
    ensures row in Turns(|terms|, TermStep(t, terms), rows).rows ==> row in rows
    ensures Turns(|terms|, TermStep(t, terms), rows).outcome == Done ==>
              (row in Turns(|terms|, TermStep(t, terms), rows).rows <==>
                 row in rows && forall i :: 0 <= i < |terms| ==> TermKept(t, terms, i, row))
  {
    forall i: nat, rs | i < |terms| && TermStep(t, terms)(i, rs).Ok?
      ensures |TermStep(t, terms)(i, rs).value| <= |rs|
      ensures row in TermStep(t, terms)(i, rs).value <==> row in rs && TermKeeps(t, terms)(i, row)
    {
      TermTurnKeeps(t, terms, i, rs, row);
    }
    TurnsKeep(|terms|, TermStep(t, terms), TermKeeps(t, terms), rows, row);
    assert forall i :: 0 <= i < |terms| ==> TermKeeps(t, terms)(i, row) == TermKept(t, terms, i, row);
  }

  // ----- ordering ----------------------------------------------------------------------

  /** One turn of the `.each` of `defaultOrdering`: the rows sorted by the
      directive's column, descending for `'desc'`; a `null` name reads the
      key `'null'`. */
  function OrderTurn(t: Database.Table, d: Request.OrderDirective, rows: seq<Value>): (r: Result<seq<Value>>)
    ensures r.Ok? ==> multiset(r.value) == multiset(rows)
  {
    var name :- Database.ColumnName(t, Request.AsInt(d.column), false);
    var column := Database.NameKey(name);
    Ok(if d.direction == "desc" then SortByDesc(rows, column) else SortBy(rows, column))
  }

  function OrderTurnAt(t: Database.Table, ds: seq<Request.OrderDirective>, i: nat, rows: seq<Value>): Result<seq<Value>> {
    if i < |ds| then OrderTurn(t, ds[i], rows) else Ok(rows)
  }

  function OrderStep(t: Database.Table, ds: seq<Request.OrderDirective>): (nat, seq<Value>) -> Result<seq<Value>> {
    (i: nat, rows: seq<Value>) => OrderTurnAt(t, ds, i, rows)
  }

  lemma OrderStepIs(t: Database.Table, ds: seq<Request.OrderDirective>)
    ensures forall i: nat, rs {:trigger OrderTurnAt(t, ds, i, rs)} :: OrderStep(t, ds)(i, rs) == OrderTurnAt(t, ds, i, rs)
  {
  }

  /** `defaultOrdering()`: the directives are read and every name looked up
      (`.map`), then the rows are re-sorted once per directive, in
      directive order. */
  function DefaultOrderingPass(t: Database.Table, rows: seq<Value>): Pass {
    match Request.OrderableColumnsSpec(Request.Legacy, t.params)
    case Err(e) => Pass(rows, Thrown(e))
    case Ok(ds) =>
      match Database.OrderNames(t, ds)
      case Err(e) => Pass(rows, Thrown(e))
      case Ok(_) => Turns(|ds|, OrderStep(t, ds), rows)
  }

  /** Ordering only rearranges the rows, whether or not it finishes. */
  lemma DefaultOrderingPermutes(t: Database.Table, rows: seq<Value>)
    ensures multiset(DefaultOrderingPass(t, rows).rows) == multiset(rows)
  {
    match Request.OrderableColumnsSpec(Request.Legacy, t.params)
    case Err(_) =>
    case Ok(ds) =>
      match Database.OrderNames(t, ds)
      case Err(_) =>
      case Ok(_) => TurnsPermute(|ds|, OrderStep(t, ds), rows);
  }

  /** The last directive decides the order: after a finished ordering the
      rows are sorted by the last directive's column, ascending unless it
      asks for `'desc'`. */
  lemma LastDirectiveWins(t: Database.Table, ds: seq<Request.OrderDirective>, rows: seq<Value>)
    requires ds != [] && Turns(|ds|, OrderStep(t, ds), rows).outcome == Done
    ensures var last := ds[|ds| - 1];
            var name := Database.ColumnName(t, Request.AsInt(last.column), false);
            var r := Turns(|ds|, OrderStep(t, ds), rows).rows;
            name.Ok?
            && (last.direction != "desc" ==> SortedBy(r, Database.NameKey(name.value)))
            && (last.direction == "desc" ==> SortedDescBy(r, Database.NameKey(name.value)))
  {
    var p := Turns(|ds| - 1, OrderStep(t, ds), rows);
    var last := ds[|ds| - 1];
    var name := Database.ColumnName(t, Request.AsInt(last.column), false);
    if name.Ok? && last.direction == "desc" {
      SortByDescSorted(p.rows, Database.NameKey(name.value));
    }
  }

  /** The priority the request means: the first directive is the main key,
      so the sorts run from the last directive to the first. */
  function PriorityOrder(rows: seq<Value>, columns: seq<string>, descending: seq<bool>): (r: seq<Value>)
    requires |columns| == |descending|
    ensures multiset(r) == multiset(rows)
    decreases |columns|
  {
    if columns == [] then rows
    else
      var rest := PriorityOrder(rows, columns[1..], descending[1..]);
      if descending[0] then SortByDesc(rest, columns[0]) else SortBy(rest, columns[0])
  }

  /** With the sorts run in priority order, the rows end up sorted by the
      first directive. */
  lemma FirstDirectiveLeads(rows: seq<Value>, columns: seq<string>, descending: seq<bool>)
    requires |columns| == |descending| && columns != []
    ensures var r := PriorityOrder(rows, columns, descending);
            (!descending[0] ==> SortedBy(r, columns[0])) && (descending[0] ==> SortedDescBy(r, columns[0]))
  {
    var rest := PriorityOrder(rows, columns[1..], descending[1..]);
    if descending[0] {
      SortByDescSorted(rest, columns[0]);
    }
  }

  /** Sorting two rows by one column puts the one that sorts before first,
      and otherwise keeps them as they are. */
  lemma SortPair(x: Value, y: Value, column: string)
    ensures SortBy([x, y], column) == (if Before(Key(y, column), Key(x, column)) then [y, x] else [x, y])
  {
    assert [x, y][..1] == [x];
    assert [x][..0] == [];
  }

  /** Two rows ordered one way by `a` and the other way by `b`: the sorts run
      in directive order leave them ordered by `b`, the sorts run in
      priority order by `a`. */
  lemma OrderInvertedFor(x: Value, y: Value, a: string, b: string)
    requires Before(Key(x, a), Key(y, a)) && Before(Key(y, b), Key(x, b))
    ensures SortBy(SortBy([x, y], a), b) == [y, x]
    ensures PriorityOrder([x, y], [a, b], [false, false]) == [x, y]
  {
    BeforeAsymmetric(Key(x, a), Key(y, a));
    SortPair(x, y, a);
    SortPair(x, y, b);
    SortPair(y, x, a);
    assert PriorityOrder([x, y], [b], [false]) == [y, x] by {
      assert [b][1..] == [] && [false][1..] == [];
    }
    assert [a, b][1..] == [b] && [false, false][1..] == [false];
  }

  /** Two rows and two ascending directives, on `a` then on `b`: the sorts
      run in directive order put the row with the smaller `b` first, while
      the priority order puts the row with the smaller `a` first. */
  lemma DirectiveOrderInverted()
    ensures var x := Obj([Field("a", Num(1)), Field("b", Num(2))]);
            var y := Obj([Field("a", Num(2)), Field("b", Num(1))]);
            SortBy(SortBy([x, y], "a"), "b") == [y, x]
            && PriorityOrder([x, y], ["a", "b"], [false, false]) == [x, y]
  {
    PairKeys(Num(1), Num(2));
    PairKeys(Num(2), Num(1));
    OrderInvertedFor(Obj([Field("a", Num(1)), Field("b", Num(2))]), Obj([Field("a", Num(2)), Field("b", Num(1))]),
                     "a", "b");
  }

  /** The row `{a: p, b: q}` holds `p` at `a` and `q` at `b`. */
  lemma PairKeys(p: Value, q: Value)
    requires !p.Undefined? && !q.Undefined?
    ensures Key(Obj([Field("a", p), Field("b", q)]), "a") == p
    ensures Key(Obj([Field("a", p), Field("b", q)]), "b") == q
  {
    var fs := [Field("a", p), Field("b", q)];
    GetPlain(Obj(fs), "a", Undefined);
    GetPlain(Obj(fs), "b", Undefined);
    assert "a" != "b" by { assert "a"[0] != "b"[0]; }
    assert fs[1..] == [Field("b", q)];
    assert Lookup(fs, "b") == Lookup([Field("b", q)], "b");
  }

  // ----- paging ----------------------------------------------------------------------

  /** Where `Array.prototype.slice` starts (or ends) for the index `k` on
      `n` elements: a negative index counts from the end. */
  function SliceIndex(k: int, n: nat): (r: nat)
    ensures r <= n
    ensures 0 <= k ==> r == if k < n then k else n
    ensures k < 0 ==> r == if 0 <= n + k then n + k else 0
  {
    if k < 0 then (if 0 <= n + k then n + k else 0) else if k < n then k else n
  }

  /** `paging()`: `collection.slice(start - $offset, limit)`, which is
      `items.slice(start - $offset).slice(0, limit)`. */
  function Paged(params: Value, offset: int, rows: seq<Value>): seq<Value> {
    var from := SliceIndex(Request.AsInt(Request.Start(Request.Legacy, params)) - offset, |rows|);
    var rest := rows[from..];
    var limit := Request.AsInt(Database.PageSize(Request.Length(Request.Legacy, params)));
    rest[..SliceIndex(limit, |rest|)]
  }

  /** A page: the rows from position `start - $offset` on (counted from the
      end when negative), as many as `length > 0 ? length : 10` allows. */
  lemma PagedWindow(params: Value, offset: int, rows: seq<Value>)
    ensures var limit := Request.AsInt(Database.PageSize(Request.Length(Request.Legacy, params)));
            var from := SliceIndex(Request.AsInt(Request.Start(Request.Legacy, params)) - offset, |rows|);
            var r := Paged(params, offset, rows);
            0 < limit && |r| <= limit
            && r == rows[from..from + |r|]
            && (from + limit <= |rows| ==> |r| == limit)
            && (|rows| < from + limit ==> |r| == |rows| - from)
  {
  }

  // ----- the request, end to end ------------------------------------------------------------

  /** `ObjectDataTable.canCreate(source)`: any `typeof` `'object'` value,
      `null` included. */
  function CanCreate(source: Value): (r: bool)
    ensures r <==> source.Null? || source.Arr? || source.Obj?
  {
    TypeOf(source) == "object"
  }

  /** `ordering()` on the rows: a registered order callback replaces the
      default ordering. */
  function OrderingPass(t: Database.Table, orderCallback: Value, rows: seq<Value>): Pass {
    if Registry.UsesOrderCallback(orderCallback) then Pass(rows, Done) else DefaultOrderingPass(t, rows)
  }

  /** The global search of `filterRecords()`, run when automatic filtering
      is on and the request searches. */
  function GlobalPass(t: Database.Table, autoFilter: bool, rows: seq<Value>): Pass {
    if autoFilter && Request.IsSearchable(Request.Legacy, t.params) then FilteringPass(t, rows)
    else Pass(rows, Done)
  }

  /** `filterRecords()` on the rows: the global search, then the column search. */
  function FilterPass(t: Database.Table, autoFilter: bool, test: RegexTest, rows: seq<Value>): Pass {
    var global := GlobalPass(t, autoFilter, rows);
    if global.outcome.Thrown? then global else ColumnSearchPass(t, test, global.rows)
  }

  /** The rows `toJson()` has before processing them: ordered, filtered and,
      when the request pages, sliced. */
  function Prepared(t: Database.Table, orderCallback: Value, autoFilter: bool, skipPaging: bool, offset: int,
                    test: RegexTest, rows: seq<Value>): Pass {
    var ordered := OrderingPass(t, orderCallback, rows);
    if ordered.outcome.Thrown? then ordered else FilteredPage(t, autoFilter, skipPaging, offset, test, ordered.rows)
  }

  /** The filtering and, when the request pages, the slicing of `toJson()`. */
  function FilteredPage(t: Database.Table, autoFilter: bool, skipPaging: bool, offset: int,
                        test: RegexTest, rows: seq<Value>): Pass {
    var filtered := FilterPass(t, autoFilter, test, rows);
    if filtered.outcome.Thrown? || !Registry.ShouldPaginate(t.params, skipPaging) then filtered
    else Pass(Paged(t.params, offset, filtered.rows), Done)
  }

  /** The callbacks handed the table, in call order: the order callback,
      then the filter callback once the global search has finished. */
  function Handed(t: Database.Table, orderCallback: Value, filterCallback: Value, autoFilter: bool,
                  rows: seq<Value>): seq<nat> {
    var ordered := OrderingPass(t, orderCallback, rows);
    OrderHanded(orderCallback)
    + (if ordered.outcome == Done then FilterHanded(t, filterCallback, autoFilter, ordered.rows) else [])
  }

  /** The order callback, when `ordering()` hands it the table. */
  function OrderHanded(orderCallback: Value): seq<nat> {
    if Registry.UsesOrderCallback(orderCallback) then [orderCallback.id] else []
  }

  /** The filter callback, when `filterRecords()` reaches it. */
  function FilterHanded(t: Database.Table, filterCallback: Value, autoFilter: bool, rows: seq<Value>): seq<nat> {
    if GlobalPass(t, autoFilter, rows).outcome == Done && TypeOf(filterCallback) == "function"
    then [filterCallback.id] else []
  }

  /** `ordering()` only rearranges the rows. */
  lemma OrderingPermutes(t: Database.Table, orderCallback: Value, rows: seq<Value>)
    ensures multiset(OrderingPass(t, orderCallback, rows).rows) == multiset(rows)
  {
    if !Registry.UsesOrderCallback(orderCallback) {
      DefaultOrderingPermutes(t, rows);
    }
  }

  /** `filterRecords()` keeps a subset of the rows; when it finishes, a row
      stays exactly when it holds every global keyword (under automatic
      filtering of a searching request) and passes every column's search. */
  lemma FilterPassKeeps(t: Database.Table, autoFilter: bool, test: RegexTest, rows: seq<Value>, row: Value)
    ensures |FilterPass(t, autoFilter, test, rows).rows| <= |rows|
    ensures row in FilterPass(t, autoFilter, test, rows).rows ==> row in rows
    ensures FilterPass(t, autoFilter, test, rows).outcome == Done ==>
              (row in FilterPass(t, autoFilter, test, rows).rows <==>
                 row in rows
                 && (autoFilter && Request.IsSearchable(Request.Legacy, t.params) ==>
                       forall i :: 0 <= i < |Database.Terms(t)| ==> TermKept(t, Database.Terms(t), i, row))
                 && forall i :: 0 <= i < Request.ColumnCount(Request.Legacy, t.params) ==> TurnKeeps(t, test, i, row))
  {
    var global := GlobalPass(t, autoFilter, rows);
    if autoFilter && Request.IsSearchable(Request.Legacy, t.params) {
      TermsKeep(t, Database.Terms(t), rows, row);
    }
    if global.outcome == Done && !IsNullish(Request.Columns(Request.Legacy, t.params)) {
      ColumnTurnsKeep(t, test, Request.ColumnCount(Request.Legacy, t.params), global.rows, row);
    }
  }

  /** A page is a window of the rows of at most the page size. */
  lemma PagedRows(params: Value, offset: int, rows: seq<Value>, row: Value)
    ensures row in Paged(params, offset, rows) ==> row in rows
    ensures |Paged(params, offset, rows)| <= Request.AsInt(Database.PageSize(Request.Length(Request.Legacy, params)))
  {
    PagedWindow(params, offset, rows);
    var r := Paged(params, offset, rows);
    var from := SliceIndex(Request.AsInt(Request.Start(Request.Legacy, params)) - offset, |rows|);
    if row in r {
      var k :| 0 <= k < |r| && r[k] == row;
      assert rows[from + k] == row;
    }
  }

  /** Everything `toJson()` leaves in the collection is one of the source
      rows, and a page has at most the page size. */
  lemma PreparedRows(t: Database.Table, orderCallback: Value, autoFilter: bool, skipPaging: bool, offset: int,
                     test: RegexTest, rows: seq<Value>, row: Value)
    ensures row in Prepared(t, orderCallback, autoFilter, skipPaging, offset, test, rows).rows ==> row in rows
    ensures var p := Prepared(t, orderCallback, autoFilter, skipPaging, offset, test, rows);
            p.outcome == Done && Registry.ShouldPaginate(t.params, skipPaging) ==>
              |p.rows| <= Request.AsInt(Database.PageSize(Request.Length(Request.Legacy, t.params)))
  {
    var ordered := OrderingPass(t, orderCallback, rows);
    OrderingPermutes(t, orderCallback, rows);
    assert row in ordered.rows ==> row in multiset(rows);
    if ordered.outcome == Done {
      var filtered := FilterPass(t, autoFilter, test, ordered.rows);
      FilterPassKeeps(t, autoFilter, test, ordered.rows, row);
      if filtered.outcome == Done && Registry.ShouldPaginate(t.params, skipPaging) {
        PagedRows(t.params, offset, filtered.rows, row);
      }
    }
  }

  /** What `processResults(rows)` answers: the live processor over the rows
      with the column definition, the templates and `start()`, each row read
      as the object it serialises to, a plain row as itself. As written,
      the processor calls `row.toJSON()` with no guard, so a plain row
      throws (`ProcessedAsWritten`). */
  function Processed(config: Value, params: Value, columnDef: Value, templates: Value, rows: seq<Value>): Result<seq<Value>> {
    var def :- Registry.ColumnsDefinition(config, columnDef);
    var s := Processor.SetupOf(Rows.Live, def);
    var b := Processor.Pipeline(Processor.RowStepOf(Rows.Live, s, templates, Processor.IndexColumn(config), false),
                                rows, Request.AsInt(Request.Start(Request.Legacy, params)));
    if b.error.Some? then Err(b.error.value) else Processor.EscapedRows(Rows.Live, s, b.rows)
  }

  function IsTruthy(v: Value): bool { Truthy(v) }

  /** `lodash.transform` keeping the truthy processed rows, then
      `values().all()`. */
  function TruthyRows(rows: seq<Value>): (r: seq<Value>)
    ensures forall row :: row in r <==> row in rows && Truthy(row)
  {
    forall row ensures row in Seqs.Filter(rows, IsTruthy) <==> row in rows && Truthy(row) {
      Seqs.FilterMembers(rows, IsTruthy, row);
    }
    Seqs.Filter(rows, IsTruthy)
  }

  /** The rows `toJson()` renders: the prepared rows as they are when the
      total is 0, processed and stripped of falsy rows otherwise. */
  function Answered(config: Value, params: Value, total: int, columnDef: Value, templates: Value,
                    rows: seq<Value>): Result<seq<Value>> {
    if total == 0 then Ok(rows)
    else
      var processed :- Processed(config, params, columnDef, templates, rows);
      Ok(TruthyRows(processed))
  }

  /** `processResults(rows)` as written: every row is serialised with its
      own `toJSON()` before the live processor's steps. */
  function ProcessedAsWritten(config: Value, params: Value, columnDef: Value, templates: Value,
                              rows: seq<Value>): Result<seq<Value>> {
    var def :- Registry.ColumnsDefinition(config, columnDef);
    var s := Processor.SetupOf(Rows.Live, def);
    var b := Processor.Pipeline(Processor.AsWrittenStepOf(Rows.Live, s, templates, Processor.IndexColumn(config), false),
                                rows, Request.AsInt(Request.Start(Request.Legacy, params)));
    if b.error.Some? then Err(b.error.value) else Processor.EscapedRows(Rows.Live, s, b.rows)
  }

  /** The rows `toJson()` renders as written. */
  function AnsweredAsWritten(config: Value, params: Value, total: int, columnDef: Value, templates: Value,
                             rows: seq<Value>): Result<seq<Value>> {
    if total == 0 then Ok(rows)
    else
      var processed :- ProcessedAsWritten(config, params, columnDef, templates, rows);
      Ok(TruthyRows(processed))
  }

  /** As written, an in-memory table holding a row without a `toJSON`
      method (a plain object, say) answers the error envelope whenever its
      total is not 0, where `Answered` reads the row as itself. */
  lemma PlainRowAnswersError(config: Value, params: Value, total: int, filtered: int, appends: Value,
                             columnDef: Value, templates: Value, rows: seq<Value>, k: nat)
    requires total != 0 && k < |rows| && !Prop(rows[k], "toJSON").Fun?
    ensures var a := AnsweredAsWritten(config, params, total, columnDef, templates, rows);
            a.Err? && AnswerReply(config, params, total, filtered, appends, a) == Database.ErrorReply(params, total, a.message)
  {
    var def := Registry.ColumnsDefinition(config, columnDef);
    if def.Ok? {
      var s := Processor.SetupOf(Rows.Live, def.value);
      Processor.LiveStopsAtPlainRow(s, templates, Processor.IndexColumn(config), rows, k,
                                    Request.AsInt(Request.Start(Request.Legacy, params)), false);
    }
  }

  /** On rows that all have a `toJSON` method, `processResults` as written
      is the intended one over what those methods return. */
  lemma SerializedAnswerAgrees(config: Value, params: Value, columnDef: Value, templates: Value, rows: seq<Value>)
    requires forall i :: 0 <= i < |rows| ==> Prop(rows[i], "toJSON").Fun?
    ensures ProcessedAsWritten(config, params, columnDef, templates, rows)
            == Processed(config, params, columnDef, templates, Processor.SerializedRows(rows))
  {
    var def := Registry.ColumnsDefinition(config, columnDef);
    if def.Ok? {
      var s := Processor.SetupOf(Rows.Live, def.value);
      Processor.SerializingRowsAgree(s, templates, Processor.IndexColumn(config), rows,
                                     Request.AsInt(Request.Start(Request.Legacy, params)), false);
    }
  }

  /** `render(rows)`, or the error reply when processing threw. */
  function AnswerReply(config: Value, params: Value, total: int, filtered: int, appends: Value,
                       answered: Result<seq<Value>>): Registry.Response {
    match answered
    case Ok(rows) => Database.Reply(config, params, total, filtered, Arr(rows), appends)
    case Err(e) => Database.ErrorReply(params, total, e)
  }

  class ObjectTable {
    const dt: Registry.DataTable
    /** `collection`: the rows, replaced by every search, sort and slice. */
    var collection: seq<Value>
    /** `$offset`. */
    var offset: int
    /** The user callbacks handed the table (`filter`, `order`), in call
        order; what they do to it is not part of this model. */
    var invoked: seq<nat>

    /** `new ObjectDataTable(collection)`. `$columns` is the collection's
        `keys()` collection, on which `$columns[index]` is never set. */
    constructor(config: Value, params: Value, rows: seq<Value>)
      ensures fresh(dt) && dt.Valid() && dt.columnDef == Registry.InitialColumnDef && dt.templates == Registry.InitialTemplates
      ensures dt.config == config && dt.params == params && dt.columns == Obj([])
      ensures dt.extraColumns == [] && dt.filters == [] && dt.totalRecords == 0 && dt.filteredRecords == 0
      ensures dt.autoFilter && dt.filterCallback == Null && dt.orderCallback == Null && !dt.skipPaging
      ensures collection == rows && offset == 0 && invoked == []
    {
      dt := new Registry.DataTable(config, params, Obj([]));
      collection := rows;
      offset := 0;
      invoked := [];
    }

    /** What the engine reads while it searches and sorts; the primary key
        is `'id'`. */
    function State(): Database.Table
      reads dt`columns, dt`columnDef, dt`extraColumns, dt`filters, dt`orders
    {
      Database.Table(dt.config, dt.params, dt.columns, dt.columnDef, dt.extraColumns, dt.filters, dt.orders,
                     Sql.OtherDialect, "", None)
    }

    /** `count()`. */
    method Count() returns (n: nat)
      ensures n == |collection|
    {
      n := |collection|;
    }

    /** `results()`: the rows as they stand. */
    method Results() returns (rows: seq<Value>)
      ensures rows == collection
    {
      rows := collection;
    }

    /** `setOffset(offset)`. */
    method SetOffset(offset: int)
      modifies this`offset
      ensures this.offset == offset
    {
      this.offset := offset;
    }

    /** One turn of the `columnSearch()` loop, for request column `i`. */
    method SearchColumn(test: RegexTest, i: nat) returns (o: Outcome)
      modifies this`collection
      ensures var r := ColumnTurn(State(), test, i, old(collection));
              (r.Ok? ==> collection == r.value && o == Done)
              && (r.Err? ==> collection == old(collection) && o == Thrown(r.message))
    {
      var t := State();
      var q := ColumnQueryAt(t, i);
      if q.Err? {
        return Thrown(q.message);
      }
      if q.value.Some? {
        var kept := KeepRows(collection, ColumnKeep(t, test, q.value.value));
        if kept.Err? {
          return Thrown(kept.message);
        }
        collection := kept.value;
      }
      return Done;
    }

    method SearchColumnAs(t: Database.Table, test: RegexTest, i: nat,
                          ghost step: (nat, seq<Value>) -> Result<seq<Value>>) returns (o: Outcome)
      requires t == State()
      requires forall i: nat, rs {:trigger ColumnTurn(t, test, i, rs)} :: step(i, rs) == ColumnTurn(t, test, i, rs)
      modifies this`collection
      ensures Apply(Pass(old(collection), Done), step(i, old(collection))) == Pass(collection, o)
    {
      o := SearchColumn(test, i);
      assert step(i, old(collection)) == ColumnTurn(t, test, i, old(collection));
    }

    /** The loop of `columnSearch()` over the first `n` request columns. */
    method ColumnSearchAs(t: Database.Table, test: RegexTest, n: nat,
                          ghost step: (nat, seq<Value>) -> Result<seq<Value>>) returns (o: Outcome)
      requires t == State()
      requires forall i: nat, rs {:trigger ColumnTurn(t, test, i, rs)} :: step(i, rs) == ColumnTurn(t, test, i, rs)
      modifies this`collection
      ensures Turns(n, step, old(collection)) == Pass(collection, o)
    {
      var i := 0;
      while i < n
        invariant 0 <= i <= n
        invariant Turns(i, step, old(collection)) == Pass(collection, Done)
      {
        o := SearchColumnAs(t, test, i, step);
        if o.Thrown? {
          TurnsStop(n, i + 1, step, old(collection));
          return;
        }
        i := i + 1;
      }
      return Done;
    }

    /** `columnSearch()`. */
    method ColumnSearch(test: RegexTest) returns (o: Outcome)
      modifies this`collection
      ensures ColumnSearchPass(State(), test, old(collection)) == Pass(collection, o)
    {
      var t := State();
      if IsNullish(Request.Columns(Request.Legacy, t.params)) {
        return Thrown(TypeError);
      }
      ColumnStepIs(t, test);
      o := ColumnSearchAs(t, test, Request.ColumnCount(Request.Legacy, t.params), ColumnStep(t, test));
    }

    /** Whether `row` holds `keyword` in one of the searchable columns. */
    method RowHasKeyword(keyword: string, row: Value) returns (r: Result<bool>)
      ensures r == GlobalKept(State(), keyword, row)
    {
      var t := State();
      var indices := Request.SearchableColumnIndex(Request.Legacy, t.params);
      if indices.Err? {
        return Err(indices.message);
      }
      var list := indices.value;
      var k := 0;
      while k < |list|
        invariant 0 <= k <= |list|
        invariant GlobalFrom(t, keyword, row, list) == GlobalFrom(t, keyword, row, list[k..])
      {
        var name := Database.ColumnName(t, list[k], false);
        if name.Err? {
          return Err(name.message);
        }
        var value := Key(row, Database.NameKey(name.value));
        if value.Str? {
          var text := if Database.Flags(t).caseInsensitive then ToLower(value.s) else value.s;
          if StrUtil.Matches(text, keyword, false) {
            return Ok(true);
          }
        }
        assert list[k..][1..] == list[k + 1..];
        k := k + 1;
      }
      return Ok(false);
    }

    method RowHasKeywordAs(t: Database.Table, keyword: string, row: Value,
                           ghost keep: Value -> Result<bool>) returns (r: Result<bool>)
      requires t == State()
      requires forall v {:trigger GlobalKept(t, keyword, v)} :: keep(v) == GlobalKept(t, keyword, v)
      ensures r == keep(row)
    {
      r := RowHasKeyword(keyword, row);
    }

    /** The `.filter` loop of `globalSearch(keyword)` over the current rows. */
    method KeepMatching(t: Database.Table, keyword: string,
                        ghost keep: Value -> Result<bool>) returns (o: Outcome)
      requires t == State()
      requires forall v {:trigger GlobalKept(t, keyword, v)} :: keep(v) == GlobalKept(t, keyword, v)
      modifies this`collection
      ensures var r := KeepRows(old(collection), keep);
              (r.Ok? ==> collection == r.value && o == Done)
              && (r.Err? ==> collection == old(collection) && o == Thrown(r.message))
    {
      var rows := collection;
      var kept: seq<Value> := [];
      var i := 0;
      while i < |rows|
        invariant 0 <= i <= |rows| && rows == old(collection) && collection == rows
        invariant KeepRows(rows[..i], keep) == Ok(kept)
      {
        var passed := RowHasKeywordAs(t, keyword, rows[i], keep);
        assert rows[..i + 1][..i] == rows[..i];
        if passed.Err? {
          KeepRowsStops(rows, keep, i + 1);
          return Thrown(passed.message);
        }
        if passed.value {
          kept := kept + [rows[i]];
        }
        i := i + 1;
      }
      assert rows[..i] == rows;
      collection := kept;
      return Done;
    }

    /** `globalSearch(keyword)`: keeps the rows holding the keyword. */
    method GlobalSearch(keyword: string) returns (o: Outcome)
      modifies this`collection
      ensures var r := GlobalSearchOf(State(), keyword, old(collection));
              (r.Ok? ==> collection == r.value && o == Done)
              && (r.Err? ==> collection == old(collection) && o == Thrown(r.message))
    {
      var t := State();
      var folded := if Database.Flags(t).caseInsensitive then ToLower(keyword) else keyword;
      assert folded == Folded(t, keyword);
      o := KeepMatching(t, folded, GlobalKeep(t, folded));
    }

    method GlobalSearchAs(t: Database.Table, terms: seq<string>, i: nat,
                          ghost step: (nat, seq<Value>) -> Result<seq<Value>>) returns (o: Outcome)
      requires t == State() && i < |terms|
      requires forall i: nat, rs {:trigger TermTurn(t, terms, i, rs)} :: step(i, rs) == TermTurn(t, terms, i, rs)
      modifies this`collection
      ensures Apply(Pass(old(collection), Done), step(i, old(collection))) == Pass(collection, o)
    {
      o := GlobalSearch(terms[i]);
      assert step(i, old(collection)) == TermTurn(t, terms, i, old(collection));
    }

    /** The loop of `filtering()` over the keywords. */
    method FilteringAs(t: Database.Table, terms: seq<string>,
                       ghost step: (nat, seq<Value>) -> Result<seq<Value>>) returns (o: Outcome)
      requires t == State()
      requires forall i: nat, rs {:trigger TermTurn(t, terms, i, rs)} :: step(i, rs) == TermTurn(t, terms, i, rs)
      modifies this`collection
      ensures Turns(|terms|, step, old(collection)) == Pass(collection, o)
    {
      var i := 0;
      while i < |terms|
        invariant 0 <= i <= |terms|
        invariant Turns(i, step, old(collection)) == Pass(collection, Done)
      {
        o := GlobalSearchAs(t, terms, i, step);
        if o.Thrown? {
          TurnsStop(|terms|, i + 1, step, old(collection));
          return;
        }
        i := i + 1;
      }
      return Done;
    }

    /** `filtering()`: one global search per keyword. */
    method Filtering() returns (o: Outcome)
      modifies this`collection
      ensures FilteringPass(State(), old(collection)) == Pass(collection, o)
    {
      var t := State();
      var terms := Database.Terms(t);
      TermStepIs(t, terms);
      o := FilteringAs(t, terms, TermStep(t, terms));
    }

    /** `filterRecords()`: the global search when automatic filtering is on
        and the request searches, the filter callback, the column search,
        then the filtered count. */
    method FilterRecords(test: RegexTest) returns (o: Outcome)
      modifies this`collection, this`invoked, dt`filteredRecords
      ensures var t := State();
              var p := FilterPass(t, dt.autoFilter, test, old(collection));
              collection == p.rows && o == p.outcome
              && invoked == old(invoked) + FilterHanded(t, dt.filterCallback, dt.autoFilter, old(collection))
              && dt.filteredRecords == (if o == Done then Registry.CountOr(old(dt.filteredRecords), |collection|)
                                        else old(dt.filteredRecords))
    {
      o := GlobalStage();
      if o.Thrown? {
        return;
      }
      if TypeOf(dt.filterCallback) == "function" {
        invoked := invoked + [dt.filterCallback.id];
      }
      o := ColumnSearch(test);
      if o.Thrown? {
        return;
      }
      dt.FilteredCount(|collection|);
    }

    /** The global search of `filterRecords()`. */
    method GlobalStage() returns (o: Outcome)
      modifies this`collection
      ensures GlobalPass(State(), dt.autoFilter, old(collection)) == Pass(collection, o)
    {
      if dt.autoFilter && Request.IsSearchable(Request.Legacy, State().params) {
        o := Filtering();
      } else {
        o := Done;
      }
    }

    /** The `.each` body of `defaultOrdering()` for one directive. */
    method SortOnce(d: Request.OrderDirective) returns (o: Outcome)
      modifies this`collection
      ensures var r := OrderTurn(State(), d, old(collection));
              (r.Ok? ==> collection == r.value && o == Done)
              && (r.Err? ==> collection == old(collection) && o == Thrown(r.message))
    {
      var name := Database.ColumnName(State(), Request.AsInt(d.column), false);
      if name.Err? {
        return Thrown(name.message);
      }
      var column := Database.NameKey(name.value);
      if d.direction == "desc" {
        collection := SortByDesc(collection, column);
      } else {
        collection := SortBy(collection, column);
      }
      return Done;
    }

    method SortOnceAs(t: Database.Table, ds: seq<Request.OrderDirective>, i: nat,
                      ghost step: (nat, seq<Value>) -> Result<seq<Value>>) returns (o: Outcome)
      requires t == State() && i < |ds|
      requires forall i: nat, rs {:trigger OrderTurnAt(t, ds, i, rs)} :: step(i, rs) == OrderTurnAt(t, ds, i, rs)
      modifies this`collection
      ensures Apply(Pass(old(collection), Done), step(i, old(collection))) == Pass(collection, o)
    {
      o := SortOnce(ds[i]);
      assert step(i, old(collection)) == OrderTurnAt(t, ds, i, old(collection));
    }

    /** The `.each` loop of `defaultOrdering()`. */
    method DefaultOrderingAs(t: Database.Table, ds: seq<Request.OrderDirective>,
                             ghost step: (nat, seq<Value>) -> Result<seq<Value>>) returns (o: Outcome)
      requires t == State()
      requires forall i: nat, rs {:trigger OrderTurnAt(t, ds, i, rs)} :: step(i, rs) == OrderTurnAt(t, ds, i, rs)
      modifies this`collection
      ensures Turns(|ds|, step, old(collection)) == Pass(collection, o)
    {
      var i := 0;
      while i < |ds|
        invariant 0 <= i <= |ds|
        invariant Turns(i, step, old(collection)) == Pass(collection, Done)
      {
        o := SortOnceAs(t, ds, i, step);
        if o.Thrown? {
          TurnsStop(|ds|, i + 1, step, old(collection));
          return;
        }
        i := i + 1;
      }
      return Done;
    }

    /** `defaultOrdering()`. */
    method DefaultOrdering() returns (o: Outcome)
      modifies this`collection
      ensures DefaultOrderingPass(State(), old(collection)) == Pass(collection, o)
    {
      var t := State();
      var ds := Request.OrderableColumns(Request.Legacy, t.params);
      if ds.Err? {
        return Thrown(ds.message);
      }
      var names := Database.OrderNames(t, ds.value);
      if names.Err? {
        return Thrown(names.message);
      }
      OrderStepIs(t, ds.value);
      o := DefaultOrderingAs(t, ds.value, OrderStep(t, ds.value));
    }

    /** `ordering()`: a registered order callback is handed the table,
        otherwise the default ordering runs. */
    method Ordering() returns (o: Outcome)
      modifies this`collection, this`invoked
      ensures var p := OrderingPass(State(), dt.orderCallback, old(collection));
              collection == p.rows && o == p.outcome
      ensures invoked == old(invoked) + OrderHanded(dt.orderCallback)
    {
      if Registry.UsesOrderCallback(dt.orderCallback) {
        invoked := invoked + [dt.orderCallback.id];
        return Done;
      }
      o := DefaultOrdering();
    }

    /** `paging()`. */
    method Paging()
      modifies this`collection
      ensures collection == Paged(dt.params, offset, old(collection))
    {
      var start := Request.AsInt(Request.Start(Request.Legacy, dt.params)) - offset;
      var length := Request.Length(Request.Legacy, dt.params);
      var limit := Request.AsInt(if Request.Positive(length) then length else Num(10));
      var rest := collection[SliceIndex(start, |collection|)..];
      collection := rest[..SliceIndex(limit, |rest|)];
    }

    /** `paginate()`. */
    method Paginate()
      modifies this`collection
      ensures collection == (if Registry.ShouldPaginate(dt.params, dt.skipPaging) then Paged(dt.params, offset, old(collection))
                             else old(collection))
    {
      if Registry.ShouldPaginate(dt.params, dt.skipPaging) {
        Paging();
      }
    }

    /** `processResults(rows)` on the current rows. */
    method ProcessResults() returns (r: Result<seq<Value>>)
      ensures r == Processed(dt.config, dt.params, dt.columnDef, dt.templates, collection)
    {
      var def := dt.Definition();
      if def.Err? {
        return Err(def.message);
      }
      var start := Request.AsInt(Request.Start(Request.Legacy, dt.params));
      var processor := new Processor.DataProcessor(Rows.Live, collection, def.value, dt.templates, start, dt.config);
      r := processor.Process(false);
      ghost var b := Processor.Pipeline(Processor.RowStepOf(Rows.Live, processor.setup, dt.templates,
                                                            Processor.IndexColumn(dt.config), false), collection, start);
      assert [] + b.rows == b.rows;
    }

    /** The end of `toJson()`: the rows are processed when the total is not
        0, and rendered. */
    method Respond() returns (reply: Registry.Response)
      modifies this`collection
      ensures var a := Answered(dt.config, dt.params, dt.totalRecords, dt.columnDef, dt.templates, old(collection));
              reply == AnswerReply(dt.config, dt.params, dt.totalRecords, dt.filteredRecords, dt.appends, a)
              && collection == (if a.Ok? then a.value else old(collection))
    {
      if dt.totalRecords != 0 {
        var processed := ProcessResults();
        if processed.Err? {
          return Database.ErrorReply(dt.params, dt.totalRecords, processed.message);
        }
        collection := TruthyRows(processed.value);
      }
      return Database.Reply(dt.config, dt.params, dt.totalRecords, dt.filteredRecords, Arr(collection), dt.appends);
    }

    /** The ordering, the filtering and the paging of `toJson()`. */
    method Prepare(test: RegexTest) returns (o: Outcome)
      modifies this`collection, this`invoked, dt`filteredRecords
      ensures var t := State();
              var p := Prepared(t, dt.orderCallback, dt.autoFilter, dt.skipPaging, offset, test, old(collection));
              collection == p.rows && o == p.outcome
              && invoked == old(invoked) + Handed(t, dt.orderCallback, dt.filterCallback, dt.autoFilter, old(collection))
    {
      ghost var t := State();
      o := Ordering();
      if o.Thrown? {
        assert old(invoked) + (OrderHanded(dt.orderCallback) + []) == invoked;
        return;
      }
      ghost var rows := collection;
      o := FilterPage(test);
      assert old(invoked) + (OrderHanded(dt.orderCallback) + FilterHanded(t, dt.filterCallback, dt.autoFilter, rows))
             == invoked;
    }

    /** The filtering and the paging of `toJson()`. */
    method FilterPage(test: RegexTest) returns (o: Outcome)
      modifies this`collection, this`invoked, dt`filteredRecords
      ensures var p := FilteredPage(State(), dt.autoFilter, dt.skipPaging, offset, test, old(collection));
              collection == p.rows && o == p.outcome
      ensures invoked == old(invoked) + FilterHanded(State(), dt.filterCallback, dt.autoFilter, old(collection))
    {
      o := FilterRecords(test);
      if o.Thrown? {
        return;
      }
      Paginate();
    }

    /** `toJson()`: the total count, the ordering, the filtering and the
        paging, in that order, then the reply; whatever throws becomes the
        error reply. */
    method ToJson(test: RegexTest) returns (reply: Registry.Response)
      modifies this`collection, this`invoked, dt`totalRecords, dt`filteredRecords
      ensures dt.totalRecords == Registry.CountOr(old(dt.totalRecords), |old(collection)|)
      ensures var t := State();
              var p := Prepared(t, dt.orderCallback, dt.autoFilter, dt.skipPaging, offset, test, old(collection));
              invoked == old(invoked) + Handed(t, dt.orderCallback, dt.filterCallback, dt.autoFilter, old(collection))
              && (p.outcome.Thrown? ==> reply == Database.ErrorReply(dt.params, dt.totalRecords, p.outcome.message)
                                        && collection == p.rows)
              && (p.outcome == Done ==>
                    var a := Answered(dt.config, dt.params, dt.totalRecords, dt.columnDef, dt.templates, p.rows);
                    reply == AnswerReply(dt.config, dt.params, dt.totalRecords, dt.filteredRecords, dt.appends, a)
                    && collection == (if a.Ok? then a.value else p.rows))
    {
      var counted := Count();
      dt.totalRecords := Registry.CountOr(dt.totalRecords, counted);
      var o := Prepare(test);
      if o.Thrown? {
        return Database.ErrorReply(dt.params, dt.totalRecords, o.message);
      }
      reply := Respond();
    }
  }
}
