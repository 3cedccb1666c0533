# adonis-datatables, modelled in Dafny

This project models the server side of the DataTables grid protocol as the
AdonisJS package `adonis-datatables` implements it. A grid sends its request
parameters (`draw`, `start`, `length`, `search`, `columns[i]…`, `order[i]…`).
The package reads them, searches, orders and pages a data source, shapes
each row, and answers with the envelope `{ draw, recordsTotal,
recordsFiltered, data }` plus any appended keys.

Modules, one per file, follow the package's structure:

- `Values`, `Strings`, `Seqs`, `Wrappers`. The vocabulary the rest is written in:
  - `Values.Value` is a JavaScript value: `undefined`, `null`, booleans, integer numbers, strings, arrays, objects as ordered key/value lists, and functions as thunks.
  - Then come its truthiness, `typeof`, `Number(…)` and the lodash-style path reads and writes.
  - Strings hold string and ASCII-case helpers, Seqs sequence lemmas, and Wrappers `Result`/`Option`.
- `Config`: the flag getters of `src/config.ts` and `src/utils/config.ts` with their defaults, and a dotted `get` with a default.
- `Request`: both request readers, parametrised by which one is meant:
  - `src/request.ts`, the one the tables use;
  - `src/utils/request.ts`, built on the `inputNested` macro.
  - Both cover orderable and searchable columns, keywords, paging values, `draw` and `columnName`.
- `NestedInput`: the `inputNested` request macro of `src/extensions/request.ts`.
- `Helper`, `Functions`, `StrUtil`: the utility functions.
  - Snake-casing, identifier quoting, HTML escaping, alias extraction, wildcard interleaving and `only`.
  - The recursive replace/merge and the positional key insertion `objectIncludeIn`.
  - `Str.contains`.
  - The duplicates in `src/helpers/function.ts` are the same code and are modelled by the same members.
- `Registry`: the class `DataTable`, for `DataTableAbstract`.
  - Its fluent setters on the column definition, templates and appends.
  - The blacklist and whitelist decision, `setupKeyword` and column-name resolution.
  - The paging gate and the response envelope (`render`, `errorResponse`).
- `Sql`: the SQL fragments the query-builder engine builds.
  - Keyword preparation, casts, `LIKE` and regular-expression searches per dialect.
  - The nulls-last template.
- `Database`: the class `DatabaseTable`, covering the query-builder engine and the Lucid engine (an optional model description).
  - The query builder is an append-only log of the calls the engine makes on it.
  - Column and global search, ordering, paging, `prepareQuery` (once only), `filterRecords`, relation joins and `results`.
- `DatabaseProperties`: end-to-end properties of that engine.
- `LegacyLucid`: the class `LegacyTable`, the older `LucidDataTable` of `src/lucid_datatable.ts`.
- `ObjectEngine`: the class `ObjectTable`, the in-memory engine over a collection.
  - Search, stable `sortBy`/`sortByDesc`, paging and the `toJson` sequence.
- `Processor`, `Rows`: the row pipeline of both `DataProcessor`s and of the `RowProcessor`.
  - The pipeline: appended and edited columns, row variables, `only`, excess columns, the running index, `flatten` and escaping.
  - A flag selects the live processor (`src/processors/`) or the older one (`src/processor.ts`).
- `Dispatch`: `Datatables.of`, first-match engine dispatch.

Methods that change state sit on classes with `modifies` frames. Each one is
proved against a function that says what the new state or result is. The
properties the package promises are lemmas about those functions.

Several behaviours of the code are modelled as written:

- `setupKeyword` builds `'%' + v + '%}'`, keeping a stray brace. The query-builder engine then prepares that keyword again, so by default a column search for `a` binds `%%a%}%` (`DatabaseProperties.DefaultKeywordTwiceWrapped`).
- `removeColumn` reads a key that no column definition has, so it always throws (`Registry.DataTable.RemoveColumn`).
- `makeHidden` and `makeVisible` replace the stored lists position by position rather than adding to them (`Registry.HiddenOverlay`).
- `isPaginationable` in `src/request.ts` compares with `null`, but `input` never returns `null`, so only a `length` of `-1` stops paging (`Request.PaginationOnlyMinusOne`).
- The in-memory engine's `defaultOrdering` sorts once per order directive, in request order. The last directive therefore becomes the main sort key (`ObjectEngine.LastDirectiveWins`, `ObjectEngine.DirectiveOrderInverted`).
  - `ObjectEngine.PriorityOrder` and `ObjectEngine.FirstDirectiveLeads` state the order in which the first directive leads.
  - `ObjectTable` itself keeps the code's order.
- `filterRecords` compares the query with a fresh clone by reference. That test never succeeds, so the filtered count is always taken.
- The legacy engine's `filterRecords` writes `$totalRecords`, a field nothing else reads.
- Escaping is not idempotent (`Helper.EscapeNotIdempotent`).
- The legacy `LucidDataTable` never defines `resolveCallback`, so with a function order callback its `ordering()` throws a TypeError before the callback runs, and `prepareQuery` rejects and stays unprepared (`LegacyLucid.OrderingRun`, `LegacyLucid.OrderCallbackRejects`).
- The live processor calls `row.toJSON()` without testing that the row has it, so a plain row throws. The "## Findings" rows model this as written and as evidently intended.
- Four calls name `Helper` members that src/utils/helper.ts does not define; each such call throws. The "## Findings" rows model them as written and as evidently intended.

## Model

| member | source | states |
|---|---|---|
| Config.Flag | src/utils/config.ts:12-42 | a boolean setting is the stored value, whatever its type, when one is stored at the dotted key, and the default otherwise |
| Config.JsonOptions | src/utils/config.ts:44-48 | `jsonOptions()` is the stored `json.options` value, or 0 when none is stored |
| Config.JsonHeaders | src/utils/config.ts:50-52 | `jsonHeaders()` is the stored `json.header` value, or an empty object when none is stored |
| Config.ConfigGet | src/utils/config.ts:28-30 | `get(key, d)` answers the value stored at the key path, or the default, `null` when no default is given |
| Config.IsDebuggingKey | src/utils/config.ts:24-26 | `isDebugging()` reads `debug` with the default `false` |
| Config.IsWildcardKey | src/utils/config.ts:12-14 | `isWildcard()` reads `search.use_wildcards` with the default `false` |
| Config.IsSmartSearchKey | src/utils/config.ts:16-18 | `isSmartSearch()` reads `search.smart` with the default `true` |
| Config.IsCaseInsensitiveKey | src/utils/config.ts:20-22 | `isCaseInsensitive()` reads `search.case_insensitive` with the default `false` |
| Config.IsMultiTermKey | src/utils/config.ts:36-38 | `isMultiTerm()` reads `search.multi_term` with the default `true` |
| Config.IsStartsWithSearchKey | src/utils/config.ts:40-42 | `isStartsWithSearch()` reads `search.starts_with` with the default `false` |
| Config.JsonOptionsKey | src/utils/config.ts:44-48 | `jsonOptions()` reads `json.options` with the default 0 |
| Config.JsonHeadersKey | src/utils/config.ts:50-52 | `jsonHeaders()` reads `json.header` with the default `{}` |
| Config.TwoKeys | src/config.ts:12-14 | a two-segment dotted key such as `search.smart` splits into its two dot-free segments |
| Config.GetDotted | src/config.ts:28-30 | `get(key, d)` with a dotted key equals the lookup along the key's split segments |
| Config.FlagsOf | src/config.ts:12-42 | the search flags are the truthiness of the five boolean settings |
| Config.Defaults | src/config.ts:12-47 | on an empty configuration the flags take their defaults (smart and multi-term on, the rest off), debugging is off, the headers are `{}`, the JSON options 0, and `get` answers `null` |
| Config.EmptyMisses | src/config.ts:28-30 | nothing is found in an empty configuration at any path |
| Config.StoredFlagWins | src/config.ts:16-18 | a stored `search.smart` value wins over the default, whatever its type |
| StrUtil.NeedleList | src/utils/string.ts:11-13 | a single needle is searched as a one-element list, a list as itself |
| StrUtil.Fold | src/utils/string.ts:7-9 | case folding, when asked for, keeps the length of the text |
| StrUtil.StrContains | src/utils/string.ts:2-26 | `Str.contains` answers true exactly when some non-empty needle, lower-cased when case is ignored, occurs in the (folded) haystack; the loop stops at the first match |
| StrUtil.NothingToFind | src/utils/string.ts:20 | an empty needle never matches, and an empty needle list never matches |
| StrUtil.SingleNeedle | src/utils/string.ts:11-22 | a single needle matches exactly when it is non-empty and occurs in the haystack, both folded alike |
| StrUtil.IgnoreCaseWidens | src/utils/string.ts:7-22 | every match found case-sensitively is also found when case is ignored |
| StrUtil.LowerKeepsOccurrence | src/utils/string.ts:7-18 | lower-casing both strings keeps an occurrence of the needle |
| StrUtil.CaseExample | src/utils/string.ts:2-26 | `contains('Name', 'name')` is false, and true when case is ignored |
| NestedInput.FirstKeyRead | src/extensions/request.ts:10-12 | the macro reads the request input at the key's first dot-separated segment |
| NestedInput.WalkFalsy | src/extensions/request.ts:18 | once the `reduce` holds a falsy value it keeps it to the end |
| NestedInput.WalkShortCircuits | src/extensions/request.ts:18 | the `acc && acc[curr]` reduce answers the first falsy intermediate, or the last value reached |
| NestedInput.FalsyFirstGivesDefault | src/extensions/request.ts:12-15 | a falsy value at the first segment answers the default |
| NestedInput.FalsyParameter | src/extensions/request.ts:10-15 | a key `name.rest` whose parameter `name` is falsy answers the default, whatever `rest` is |
| NestedInput.SingleSegment | src/extensions/request.ts:10-20 | a single-segment key answers the top-level value itself when it is truthy |
| NestedInput.MissingDeeperSegment | src/extensions/request.ts:17-20 | a key `a.b` whose `a` is a truthy object without `b` answers `undefined`, never the default |
| NestedInput.InputSegments | src/extensions/request.ts:9-21 | a key joined from dot-free segments is read along exactly those segments |
| NestedInput.TopLevel | src/extensions/request.ts:9-21 | a top-level key answers its value when truthy and the default otherwise, so a stored falsy value is replaced by the default |
| Dispatch.Of | src/datatables.ts:6-20 | `of(...source)` throws 'No available engine run' whenever it builds no table |
| Dispatch.FirstAcceptingWins | src/datatables.ts:7-17 | the first engine whose `canCreate` accepts the source and that has a `create` builds the table; engines before it are passed over |
| Dispatch.ThrowsIffNoneAccepts | src/datatables.ts:7-19 | `of` throws exactly when no engine both accepts the source and has a `create` |
| Dispatch.ResultFromAcceptingEngine | src/datatables.ts:10-15 | every table `of` returns is built by some accepting engine's `create` |
| Helper.SplitCamel | src/utils/helper.ts:5 | inserting `_` between a lower-case and a following upper-case letter never shortens the text |
| Helper.ToSnakeCase | src/utils/helper.ts:4-6 | `toSnakeCase` leaves no upper-case ASCII letter |
| Helper.SplitCamelNoUpper | src/utils/helper.ts:5 | text without upper-case letters gets no underscore |
| Helper.SnakeCaseIdempotent | src/utils/helper.ts:4-6 | snake-casing twice is snake-casing once, and text without upper-case letters is left alone |
| Helper.SnakeStep | src/utils/helper.ts:5 | snake-casing works letter by letter: the first letter, with `_` after it when a lower-case letter meets an upper-case one, lower-cased, then the rest |
| Helper.SplitCamelStructure | src/utils/helper.ts:5 | wherever a lower-case letter is followed by an upper-case one, the result holds both lower-cased with `_` between them |
| Helper.QuoteSegments | src/utils/helper.ts:15-16 | every dot segment is mapped to its back-quoted snake-cased form, one for one |
| Helper.WrapAlias | src/utils/helper.ts:9-12 | `wrap('c as a')` is `` `c` as `a` `` with both parts trimmed and not snake-cased |
| Helper.SplitAs | src/utils/helper.ts:10 | splitting `a + ' as ' + b` at `' as '` gives exactly `a` and `b` when neither holds the separator |
| Helper.WrapSegments | src/utils/helper.ts:14-17 | without `' as '`, `wrap` back-quotes each snake-cased dot segment and keeps the segment count |
| Helper.EscapeString | src/utils/helper.ts:22-31 | an escaped string holds none of `<`, `>`, `"`, `'` and no bare `&`, and is at least as long as the input |
| Helper.Escape | src/utils/helper.ts:20-34 | `escape` escapes strings and returns every other value unchanged |
| Helper.UnescapeStep | src/utils/helper.ts:23-30 | each of the five entities decodes back to the character it replaced |
| Helper.EscapeRoundTrip | src/utils/helper.ts:22-31 | escaping loses nothing: decoding the entities gives the original string back |
| Helper.EscapeNotIdempotent | src/utils/helper.ts:22-31 | escaping is not idempotent: `&` becomes `&amp;` and then `&amp;amp;` |
| Helper.EscapeKeepsPlain | src/utils/helper.ts:22 | a string without the five special characters is unchanged |
| Helper.ExtractColumnName | src/utils/helper.ts:36-51 | with `' as '` in the lower-cased input the alias (last part) or the column (first part) is returned; else the last dot segment, case kept; else the input |
| Helper.ExtractAlias | src/utils/helper.ts:37-44 | for `column as alias` the column is the text before and the alias the text after the separator |
| Helper.ExtractQualified | src/utils/helper.ts:45-48 | a qualified name `table.column` gives `column` |
| Helper.WildcardString | src/utils/helper.ts:53-68 | the loop builds `w` followed by `c + w` for each character `c`, lower-cased when asked |
| Helper.WildcardChars | src/utils/helper.ts:53-68 | the wildcard form holds no character that neither the input nor the wildcard has, lower-case letters aside |
| Helper.MissingMembers | src/utils/helper.ts:3-141 | `contains`, `wrapColumn`, `serializeToObject` and `objectIncludeIn` are not members of `Helper`, while `wrap`, `extractColumnName` and `compileContent` are |
| Helper.WildcardLength | src/utils/helper.ts:53-68 | the result has length `(n + 1)·|w| + n`, and the empty string gives the wildcard alone |
| Helper.InterleaveAt | src/utils/helper.ts:58-60 | character `k` of the input sits at position `k·(|w| + 1)` after the leading wildcard, followed by a copy of the wildcard |
| Helper.WildcardExample | src/utils/helper.ts:53-68 | `wildcardString('aB', '%')` is `'%a%b%'` |
| Helper.Only | src/utils/helper.ts:78-88 | `only` keeps no key that is unlisted or missing from the object |
| Helper.Select | src/utils/helper.ts:79-80 | the listed fields in the object's order, never more fields than the object has |
| Helper.OnlySelects | src/utils/helper.ts:78-88 | on an object with unique keys `only` keeps exactly the listed keys, in the object's order, with their values |
| Helper.OnlyLookup | src/utils/obj.ts:12-22 | a lookup in the result of `only` finds the object's value for a listed key and nothing for an unlisted one |
| Helper.OnlyBounds | src/utils/obj.ts:12-22 | `only(obj, [])` is empty and `only(obj, keys(obj))` is `obj` |
| Helper.ValueOf | src/utils/helper.ts:90-92 | `value` calls a function and returns any other value as it is |
| Helper.CompileContent | src/utils/helper.ts:137-139 | `compileContent` returns its argument unchanged |
| Helper.GetOr | src/utils/obj.ts:8-10 | `get(obj, path, d)` is the value at the path, or `d` (`null` when not given) when the path is absent |
| Functions.HasProperty | src/utils/function.ts:18 | `key in target` throws exactly on a primitive target, and a key it reports absent reads as `undefined` |
| Functions.Store | src/utils/function.ts:19-21 | `target[key] = x` throws exactly on a primitive target, and on an object sets that one key |
| Functions.EntryValue | src/utils/function.ts:17-18 | an object value reached while iterating the source is strictly smaller than the source (the recursion ends) |
| Functions.ArrayReplaceRecursive | src/utils/function.ts:13-25 | `arrayReplaceRecursive` with a source without entries returns the target unchanged |
| Functions.ArrayMergeRecursive | src/utils/function.ts:27-41 | `arrayMergeRecursive` with a source without entries returns the target unchanged |
| Functions.MergeIsReplace | src/utils/function.ts:31-38 | the concat branch never runs, so merging gives exactly what replacing gives |
| Functions.ReplaceIntoPrimitive | src/utils/function.ts:17-21 | replacing into a primitive target throws as soon as the source has an entry |
| Functions.CombineObjects | src/utils/function.ts:17-24 | after the loop over the source's keys the result is an object holding every key of either side, with the value the key-by-key replacement gives |
| Functions.ReplaceObjects | src/utils/function.ts:13-25 | the result's keys are the union of both sides' keys; a key only in the target keeps its value; a non-object source value (or one with no target counterpart) overwrites; an object value present on both sides is replaced recursively |
| Functions.StepLookup | src/utils/function.ts:18-22 | one turn of the loop changes only the turn's key, to the recursive replacement or to the source value |
| Functions.Overlay | src/utils/function.ts:17-21 | two arrays of primitives: the source's elements overwrite the target's position by position and the target's longer tail stays |
| Functions.ReplaceArrays | src/utils/function.ts:13-41 | arrays of primitives are replaced and merged position by position, never concatenated |
| Functions.KindKept | src/utils/function.ts:13-25 | replacing never changes whether the target is an array or a plain object |
| Functions.Cut | src/utils/function.ts:56-64 | after `n` keys the loop has moved `order` keys into `first` when `order` is a number between 0 and `n`, and all `n` otherwise |
| Functions.CutStep | src/utils/function.ts:56-64 | once `count === order` the count stops growing; until then it equals the number of turns |
| Functions.ObjectIncludeIn | src/utils/function.ts:43-67 | the loop and spreads of `objectIncludeIn` give the same fields as the reference insertion of the named item |
| Functions.MoveOne | src/utils/function.ts:61-62 | moving one key deletes it from the front of `last` and appends it to `first` |
| Functions.AssignAllFresh | src/utils/function.ts:66 | spreading an object whose keys are all fresh appends its fields in order |
| Functions.IncludeInsertsAt | src/utils/function.ts:52-66 | a fresh name with a numeric order `k` inside the object lands after the first `k` keys and before the rest |
| Functions.FreshUnique | src/utils/function.ts:66 | inserting a fresh key keeps the keys unique, so the key count grows by one |
| Functions.IncludeAppends | src/utils/function.ts:44-50 | with an order past the end, negative, or not a number (such as the boolean `addColumn` stores), a fresh name goes last |
| Functions.IncludeKeepsKeys | src/utils/function.ts:43-67 | every original key survives and the item's name is present, whatever the order |
| Registry.IntersectKey | src/utils/function.ts:1-11 | `arrayIntersectKey` throws exactly on `null` or `undefined`, and otherwise returns an object whose keys are all among the listed ones |
| Registry.ColumnsDefinition | src/datatable_abstract.ts:191-196 | `getColumnsDefinition()` throws when the configuration has no `columns` |
| Registry.ColumnsDefinitionMerges | src/datatable_abstract.ts:191-196 | on success the definition is the configured `columns` cut to the allowed keys, replaced key by key by `$columnDef`: keys the table lacks keep the configured value, table values overwrite, object values meeting a configured key are replaced recursively |
| Registry.IsBlacklistedIn | src/datatable_abstract.ts:360-375 | a blacklisted column is blacklisted; otherwise a `'*'` whitelist or a whitelist naming it lets it through, and a missing whitelist blacklists it; a blacklist or whitelist that cannot be searched throws |
| Registry.PushedBlacklist | src/datatable_abstract.ts:350-354 | the push succeeds exactly when the blacklist is missing (a fresh array is made) or is an array |
| Registry.PushedIsBlacklisted | src/datatable_abstract.ts:348-375 | after `pushToBlacklist(c)`, `isBlacklisted(c)` never answers false: it answers true, or throws because the definition cannot be merged |
| Registry.PushedItems | src/datatable_abstract.ts:350-354 | after the push the definition keeps unique keys and its blacklist is an array of non-objects ending with the column |
| Registry.MergedBlacklist | src/datatable_abstract.ts:191-196 | replacing the configured columns by the definition keeps the definition's blacklist entries at the front of the merged blacklist, unless the merged blacklist is neither an array nor a string |
| Registry.BlacklistedByLast | src/datatable_abstract.ts:360-365 | a merged blacklist that starts with the pushed entries, the column last among them, makes the column blacklisted |
| Registry.NonBlankTrim | src/datatable_abstract.ts:420-425 | a piece is kept exactly when its trimmed form is not empty |
| Registry.SearchTerms | src/datatable_abstract.ts:410-418 | without multi-term search the whole keyword is searched once |
| Registry.TermsAreTokens | src/datatable_abstract.ts:420-425 | with multi-term search a term is exactly a non-blank piece of the keyword between spaces, and none holds a space |
| Registry.SingleWord | src/datatable_abstract.ts:420-425 | a one-word keyword is searched once as it is, and the empty keyword not at all |
| Registry.SetupKeyword | src/datatable_abstract.ts:500-511 | without smart search `setupKeyword` returns the value unchanged |
| Registry.SetupKeywordCases | src/datatable_abstract.ts:500-511 | for a value without backslash: with smart search and no wildcard the keyword becomes `'%' + v + '%}'` (stray brace kept); with the wildcard it is exactly `wildcardString(v, '%', true)`; without smart search it is `v` |
| Registry.ColumnNameByIndex | src/datatable_abstract.ts:531-538 | `getColumnNameByIndex` throws exactly when the columns are nullish; a missing or `'*'` entry gives the primary key; any other answer is the entry itself and is not an appended column |
| Registry.GetColumnName | src/datatable_abstract.ts:513-529 | a missing request column gives `null`; a name holding `' AS '` in any case is reduced by `extractColumnName`; any other name is returned |
| Registry.GetColumnNameAsWritten | src/datatable_abstract.ts:513-529 | as written, `getColumnName` gives a result only for a missing request column (`null`); every name that reaches `Helper.contains` throws |
| Registry.NamedColumnThrows | src/datatable_abstract.ts:523-525 | a request column named by a string throws as written, while the intended resolution returns a name |
| Registry.CountOr | src/datatable_abstract.ts:386-389 | a count already recorded wins over the counted rows, and 0 means none is recorded |
| Registry.AppendsWin | src/datatable_abstract.ts:451-472 | in the envelope an append with a colliding name wins; the other keys keep `draw`, `recordsTotal`, `recordsFiltered` and `data` |
| Registry.ErrorEnvelope | src/datatable_abstract.ts:480-488 | the error envelope has exactly the keys `draw`, `recordsTotal`, `recordsFiltered`, `data`, `error`, in that order |
| Registry.ErrorEnvelopeFields | src/datatable_abstract.ts:480-488 | the error envelope echoes `draw` and the total, and always has `recordsFiltered: 0` and `data: []` |
| Registry.RenderThrows | src/datatable_abstract.ts:463-466 | `render` as written throws for every configuration whose `json.header` is an object, the `{}` default included |
| Registry.RenderFixed | src/datatable_abstract.ts:451-468 | the corrected `render` replies 200 with the header object's entries and the envelope (with `input` when debugging); only a nullish header setting throws |
| Registry.RenderFixedDefault | src/datatable_abstract.ts:451-468 | with the default configuration the corrected `render` replies with no headers |
| Registry.PutKeeps | src/datatable_abstract.ts:156 | `obj[key] = x` reads back `x` at `key`, leaves the other keys alone and keeps keys unique |
| Registry.EditAllowed | src/datatable_abstract.ts:163-169 | the edit-only-selected test passes when the request has no columns, and otherwise exactly when some request column is named `name`; a missing `columns` throws |
| Registry.DataTable.constructor | src/datatable_abstract.ts:24-62 | a new table starts from the initial column definition and templates, empty appends and extra columns, zero counts, automatic filtering on, no callbacks |
| Registry.DataTable.PutDef | src/datatable_abstract.ts:198-208 | one `$columnDef` entry is replaced and every other entry is unchanged |
| Registry.DataTable.AddColumn | src/datatable_abstract.ts:136-153 | `addColumn` appends the name to the extra columns and `{name, content, order}` to `append` |
| Registry.DataTable.AddIndexColumn | src/datatable_abstract.ts:155-159 | `addIndexColumn` sets `index` to true |
| Registry.DataTable.EditColumn | src/datatable_abstract.ts:161-183 | the edit is appended unless edit-only-selected mode is on and the request names no such column, in which case nothing changes |
| Registry.DataTable.AddEdit | src/datatable_abstract.ts:170-179 | the `{ name, content }` item is pushed onto `edit`, which then holds the earlier edits followed by it; the definition stays valid |
| Registry.DataTable.RemoveColumn | src/datatable_abstract.ts:185-189 | `removeColumn` always throws (no definition has `access`) and, modifying nothing, changes nothing |
| Registry.DataTable.Only | src/datatable_abstract.ts:198-202 | `only(columns)` stores the list under `only` |
| Registry.DataTable.EscapeColumns | src/datatable_abstract.ts:204-208 | `escapeColumns(columns)` stores the value under `escape` |
| Registry.DataTable.MergeList | src/datatable_abstract.ts:210-222 | the list is merged into the current one with `arrayMergeRecursive`, or the call throws and nothing changes |
| Registry.DataTable.MakeHidden | src/datatable_abstract.ts:210-215 | `makeHidden` merges the attributes into `hidden` |
| Registry.DataTable.MakeVisible | src/datatable_abstract.ts:217-222 | `makeVisible` merges the attributes into `visible` |
| Registry.DataTable.RawColumns | src/datatable_abstract.ts:224-234 | `rawColumns` stores the list, or with `merge` the configured raw columns followed by the list; a missing configured list throws and changes nothing |
| Registry.DataTable.Blacklist | src/datatable_abstract.ts:299-303 | `blacklist(list)` stores the list |
| Registry.DataTable.Whitelist | src/datatable_abstract.ts:305-309 | `whitelist(list)` stores the list |
| Registry.DataTable.PushToBlacklist | src/datatable_abstract.ts:348-358 | a column not yet blacklisted is pushed onto the (created when missing) blacklist; a blacklisted one leaves the table unchanged; every failure of `isBlacklisted` or of the push throws and changes nothing |
| Registry.DataTable.SetTemplate | src/datatable_abstract.ts:236-264 | `setRowClass`, `setRowId`, `setRowData` and `setRowAttr` replace the one named row template |
| Registry.DataTable.AddToTemplate | src/datatable_abstract.ts:254-270 | `addRowData`/`addRowAttr` store the entry on the named template, or throw and change nothing when it cannot hold one |
| Registry.DataTable.With | src/datatable_abstract.ts:272-280 | an array key replaces all appends; any other key stores the value, called first when it is a function |
| Registry.DataTable.WithQuery | src/datatable_abstract.ts:282-289 | `withQuery` stores the callback itself |
| Registry.DataTable.Order | src/datatable_abstract.ts:291-297 | `order` records the callback |
| Registry.DataTable.Filter | src/datatable_abstract.ts:490-498 | `filter` records the callback and keeps automatic global search only on request |
| Registry.DataTable.SetTotalRecords | src/datatable_abstract.ts:323-327 | the total is set |
| Registry.DataTable.SkipTotalRecords | src/datatable_abstract.ts:329-334 | the total is cleared and the skip flag set |
| Registry.DataTable.SetFilteredRecords | src/datatable_abstract.ts:336-340 | the filtered count is set |
| Registry.DataTable.SkipPaging | src/datatable_abstract.ts:342-346 | paging is skipped from now on |
| Registry.DataTable.EditOnlySelectedColumns | src/datatable_abstract.ts:391-395 | edit-only-selected mode is switched on |
| Registry.DataTable.FilterColumn | src/engines/database_datatable.ts:367-377 | `filterColumn` registers the callback for the column |
| Registry.DataTable.OrderColumn | src/engines/database_datatable.ts:387-401 | `orderColumn` registers the SQL and bindings for the column |
| Registry.DataTable.FilteredCount | src/datatable_abstract.ts:427-431 | a filtered count already set is kept, otherwise the counted rows are stored |
| Registry.InitialDefValid | src/datatable_abstract.ts:26-35 | the initial definition has unique keys, array `append` and `edit` entries and no `access` |
| Registry.NoAccessKey | src/datatable_abstract.ts:185-196 | no merged definition has the `access` key that `removeColumn` reads |
| Registry.HiddenOverlay | src/datatable_abstract.ts:210-215 | two `makeHidden` calls: the second list overwrites the first position by position instead of adding to it |
| Request.ColumnKeys | src/request.ts:28-29 | the key `columns.<index>.<field>` has at least the two segments `columns` and the index |
| Request.Direction | src/request.ts:41-43 | the direction read from `order.<i>.dir` is always `asc` or `desc` (or the read throws) |
| Request.DirectionCases | src/request.ts:41-43 | `asc` exactly for a string that lower-cases to `asc`; a truthy non-string has no `toLowerCase` and throws; everything else is `desc` |
| Request.OrderableColumns | src/request.ts:32-50 | the loop returns exactly the directives of the specification function, the first failing read ending it with that error |
| Request.OrderableAmong | src/request.ts:38-47 | the loop over the first `n` `order` entries keeps, in request order, exactly the directives whose column is orderable, and a failing read ends it with that read's error |
| Request.DirectivesStop | src/request.ts:38-47 | once reading one directive throws, the whole `orderableColumns()` throws that error |
| Request.DirectivesStep | src/request.ts:38-47 | one more loop turn appends the directive it read, and keeps it exactly when its column is orderable |
| Request.OrderableColumnsExact | src/request.ts:32-50 | a directive is returned exactly when some `order` entry below the length reads as it and its column is orderable |
| Request.OrderDirections | src/request.ts:43-45 | every returned directive's direction is `asc` or `desc` |
| Request.NoOrderWithoutParameter | src/request.ts:33-35 | without an `order` parameter nothing is ordered |
| Request.UtilsNeverOrders | src/utils/request.ts:18-40 | `DatatablesRequest` reads `order.lenght`, which no array has, so it orders nothing unless `order` is an object with a `lenght` key |
| Request.OrderableWithoutColumns | src/request.ts:56-58 | without a `columns` parameter every column is orderable |
| Request.OrderableColumnEntry | src/request.ts:56-58 | with a `columns` array, column `i` is orderable exactly when its `orderable` entry is the string `'true'` |
| Request.ColumnPath | src/request.ts:6-18 | a `columns.<i>.<field>` read walks to the `i`-th column and then to the field, stopping at a falsy column |
| Request.SplitKeys | src/request.ts:6-18 | a dotted key built from dot-free segments is read as those segments, by both request readers |
| Request.ColumnKeyText | src/request.ts:28-29 | the segments of a column key join back to the text `columns.<index>.<field>` and hold no dot |
| Request.SearchableColumnIndex | src/request.ts:60-69 | the loop throws on a missing `columns` and otherwise returns the indices below `columns.length` whose column is searchable |
| Request.SearchableColumnsExact | src/request.ts:60-84 | an index is listed exactly when it is below the column count and searchable, and the list is strictly ascending |
| Request.PrepareKeyword | src/request.ts:92-99 | an array keyword is joined with spaces; anything else is kept as it is |
| Request.KeywordWithoutSearch | src/request.ts:101-105 | without a `search` parameter the keyword is the empty string |
| Request.KeywordUntrimmed | src/request.ts:101-105 | a string keyword comes back unchanged, spaces included |
| Request.ReadersAgree | src/utils/request.ts:14-95 | `Request` and `DatatablesRequest` agree on column keywords, the keyword, `isRegex` and the searchable and orderable tests |
| Request.SearchableMeans | src/request.ts:24-26 | `isSearchable()` holds unless the search value is the empty string; a missing or non-string value counts as searchable (both readers) |
| Request.SearchableWithoutSearch | src/utils/request.ts:10-12 | without a `search` parameter the request is searchable while its keyword is `''` |
| Request.RegexFlag | src/request.ts:28-30 | `isRegex(index)` holds exactly when the column's `search.regex` is the text `'true'` |
| Request.OrderableMeansEntries | src/request.ts:52-54 | `isOrderable()` holds exactly when `order` is truthy and its length lets the loop run at least once |
| Request.ColumnOrderableFlag | src/request.ts:56-58 | `isColumnOrderable(index)` holds exactly when the `orderable` flag, read with default `'true'`, is the text `'true'`; the boolean `true` is refused |
| Request.ColumnSearchableFlag | src/request.ts:71-84 | `isColumnSearchable(index, columnSearch)` accepts the flag `'true'` or `true` (default `'true'`), and a column search also needs a non-empty keyword |
| Request.ColumnKeyword | src/request.ts:86-90 | `columnKeyword(index)` is `''` for a missing value, the space-joined items of an array value, and any other value unchanged |
| Request.Keyword | src/request.ts:101-105 | `keyword()` is `''` for a missing value, the space-joined items of an array value, and any other value unchanged |
| Request.PaginationOff | src/request.ts:113-117 | `isPaginationable()` fails exactly when `start` or `length` is `null` or `length` is the number -1 |
| Request.ColumnName | src/request.ts:107-111 | the column's truthy `name`, else its `data`, and `undefined` for a missing column |
| Request.PaginationOnlyMinusOne | src/request.ts:113-117 | `Request` pages unless `length` is the number `-1` (its `input` never returns `null`) |
| Request.UtilsPagination | src/utils/request.ts:103-109 | `DatatablesRequest` pages unless `start` or `length` is `null` or `length` is `-1` |
| Request.Start | src/request.ts:119-123 | `Request.start()` returns the raw `start` value when `Number()` of it is truthy and 0 otherwise; `DatatablesRequest` (src/utils/request.ts:115-119) returns `start` when it is a number and 0 otherwise |
| Request.Length | src/request.ts:125-129 | `Request.length()` returns the raw `length` value when `Number()` of it is truthy and 10 otherwise; `DatatablesRequest` returns `length` when it is a number and 10 otherwise |
| Request.Draw | src/request.ts:131-135 | `Request.draw()` returns the raw `draw` value when `Number()` of it is truthy and 0 otherwise; `DatatablesRequest` returns `draw` when it is a number and 0 otherwise |
| Request.NumericParameter | src/utils/request.ts:115-131 | the shared reading: the value is kept exactly when `Number()` of it is truthy (`Request`) or when it is a number (`DatatablesRequest`), and the fallback is returned otherwise |
| Request.LengthDefaults | src/request.ts:125-129 | a missing or zero `length` gives 10, a numeric string is kept as the string, and `-1` is kept |
| Sql.PrepareKeywordSteps | src/engines/database_datatable.ts:185-203 | the keyword is lower-cased first when case-insensitive; starts-with search gives `k%` and wins over every other flag; wildcards interleave `%`; smart search wraps the result in `%`; with no flag the keyword is kept; case-insensitive results hold no upper-case letter |
| Sql.CastColumn | src/engines/database_datatable.ts:268-279 | PostgreSQL compares `CAST(c AS TEXT)`, Firebird `CAST(c AS VARCHAR(255))`, every other driver the column itself |
| Sql.LikeSqlForms | src/engines/database_datatable.ts:166-183 | the `LIKE ?` fragment of each driver, with and without `LOWER(...)` |
| Sql.LikeSearch | src/engines/database_datatable.ts:166-183 | `compileQuerySearch` makes an `orWhereRaw` or `whereRaw` call (by conjunction) with the prefixed, cast column's `LIKE` fragment and the prepared keyword as the only binding |
| Sql.WrapColumnAsWritten | src/engines/database_datatable.ts:247-249 | as written, `wrapColumn` calls the undefined `Helper.wrapColumn` and always throws |
| Sql.LikeSearchAsWritten | src/engines/database_datatable.ts:166-183 | as written, `compileQuerySearch` throws in `addTablePrefix` before any `LIKE` call, where the intended search makes one |
| Sql.RegexSearch | src/engines/database_datatable.ts:140-164 | `regexColumnSearch` makes one `whereRaw` call with one binding: the keyword for Oracle and PostgreSQL, the lower-cased keyword for every other driver |
| Sql.RegexFragments | src/engines/database_datatable.ts:140-164 | the regular-expression fragment of each driver and case setting, on the wrapped column (`REGEXP_LIKE`, `~`, `~* `, `REGEXP`) |
| Sql.RegexSearchAsWritten | src/engines/database_datatable.ts:140-141 | as written, `regexColumnSearch` throws at its first statement, where the intended search makes one `whereRaw` |
| Sql.NullsLastDefault | src/engines/database_datatable.ts:83-89 | with no `nulls_last_sql` setting and a colon-free column and direction the clause is `column direction NULLS LAST` |
| Sql.FillDefault | src/engines/database_datatable.ts:83-89 | `sprintf('%s %s NULLS LAST', column, direction)` fills the two `%s` in order |
| Sql.FillPlain | src/engines/database_datatable.ts:83-89 | `sprintf` copies a template without `%` unchanged |
| Sql.OrderSql | src/engines/database_datatable.ts:68-81 | `sql.replace('$1', direction)` leaves an override without `$1` unchanged |
| Database.FindRelation | src/engines/lucid_datatable.ts:62 | `$getRelation(name)` finds a relation of that name exactly when the model has one |
| Database.SplitQualified | src/engines/lucid_datatable.ts:18-20 | splitting `prefix.column` on dots gives the prefix's parts and then the column |
| Database.QualifiedParts | src/engines/lucid_datatable.ts:43-45 | `relation.column` is taken apart into the relation and the column |
| Database.JoinCall | src/engines/lucid_datatable.ts:60-73 | a `belongsTo` relation joins its related table on the root table's foreign key; an unknown relation throws a `TypeError`; any other kind throws `Relation <name> is not yet supported.` |
| Database.PrimaryKey | src/engines/lucid_datatable.ts:85-87 | the Lucid engine's primary key is the model's `primaryKey`; the database engine's is `'id'` |
| Database.Resolve | src/engines/lucid_datatable.ts:42-52 | the database engine, and the Lucid engine for a column whose relation is not eager-loaded, keep the column and join nothing |
| Database.FilterCall | src/engines/database_datatable.ts:115-126 | a `filterColumn` override is called with the keyword, and only that call is made |
| Database.CompileSearch | src/engines/lucid_datatable.ts:12-30 | the database engine searches a column with its `LIKE` fragment |
| Database.ColumnNames | src/engines/database_datatable.ts:434-435 | the searchable indices are mapped one for one to their column names |
| Database.Unrejected | src/engines/database_datatable.ts:437-440 | a name is kept exactly when it is not blacklisted without a filter override; every name's blacklist test succeeded |
| Database.GlobalCalls | src/engines/database_datatable.ts:441-447 | each kept column makes exactly its own call, in order |
| Database.OrderNames | src/engines/database_datatable.ts:38-43 | each directive is named by `getColumnName(column, true)` and keeps its direction, one for one |
| Database.OrderKept | src/engines/database_datatable.ts:44-47 | a directive is kept exactly when its name is not blacklisted without an order override |
| Database.PlainOrderAsWritten | src/engines/database_datatable.ts:54-58 | as written, the plain ordering builds `normalSql` with `wrapColumn` even under nulls-last, so it throws and orders by nothing |
| Database.PageSize | src/engines/database_datatable.ts:409-415 | a positive length is the limit, any other gives 10 |
| Database.DatabaseTable.constructor | src/engines/database_datatable.ts:19-26 | the table's `$columns` are the query's columns; nothing is logged, prepared or ordered yet |
| Database.DatabaseTable.JoinEagerLoadedColumn | src/engines/lucid_datatable.ts:54-79 | the joins of the relation path are logged in order, and the column is qualified by the last joined table |
| Database.DatabaseTable.JoinSegments | src/engines/lucid_datatable.ts:59-75 | each relation segment is joined in turn until one is not `belongsTo`; the joins are logged in order and the table of the last joined segment is answered |
| Database.DatabaseTable.ResolveRelationColumn | src/engines/lucid_datatable.ts:42-52 | logs the joins of the resolution and returns the resolved column |
| Database.DatabaseTable.SearchColumn | src/engines/database_datatable.ts:342-364 | one turn of `columnSearch` logs exactly its step's calls |
| Database.DatabaseTable.SearchNamedColumn | src/engines/database_datatable.ts:349-363 | the turn of a named column logs exactly its step's calls |
| Database.DatabaseTable.SearchResolvedColumn | src/engines/database_datatable.ts:360-362 | resolving and searching a column logs the joins and then the search |
| Database.DatabaseTable.ColumnSearch | src/engines/database_datatable.ts:339-365 | `columnSearch()` logs the turns' calls in column order and stops at the first that throws |
| Database.DatabaseTable.SearchColumns | src/engines/database_datatable.ts:342-364 | the loop logs the first `n` turns' calls in order, up to the first throw |
| Database.DatabaseTable.GlobalSearch | src/engines/database_datatable.ts:430-449 | `globalSearch(keyword)` logs one grouped `where` for the keyword, or throws and logs nothing |
| Database.DatabaseTable.Filtering | src/datatable_abstract.ts:410-425 | `filtering()` logs one grouped search per search term |
| Database.DatabaseTable.SearchEachTerm | src/datatable_abstract.ts:420-425 | the loop over the terms logs each term's search in order, up to the first throw |
| Database.DatabaseTable.SearchTermAs | src/datatable_abstract.ts:424 | one term's `globalSearch` logs exactly that turn's calls |
| Database.DatabaseTable.ApplyFilters | src/engines/database_datatable.ts:219-230 | global search (when automatic and searchable), then the filter callback, then the column search, each only when the one before finished |
| Database.DatabaseTable.FilterRecords | src/engines/database_datatable.ts:219-241 | after the filters the filtered count is set from the counted rows unless already set, and with `skipTotalRecords` the total becomes it; a throw changes neither count |
| Database.DatabaseTable.ApplyOrderColumn | src/engines/database_datatable.ts:68-81 | an order override logs its own ordering |
| Database.DatabaseTable.OrderBy | src/engines/database_datatable.ts:48-61 | one directive's turn resolves its column and then records what `NamedOrder` says; a relation column that cannot be joined throws before any ordering |
| Database.DatabaseTable.OrderNamed | src/engines/database_datatable.ts:51-59 | a resolved directive is ordered by the override of its name, else of its resolved column, else plainly (with `NULLS LAST` when asked) |
| Database.DatabaseTable.DefaultOrdering | src/engines/database_datatable.ts:36-62 | `defaultOrdering()` logs the kept directives' orderings in order |
| Database.DatabaseTable.OrderEach | src/engines/database_datatable.ts:48-61 | the `.each` logs each kept directive's ordering in order, up to the first throw |
| Database.DatabaseTable.OrderByAs | src/engines/database_datatable.ts:48-61 | one kept directive's ordering logs exactly that turn's calls |
| Database.DatabaseTable.Ordering | src/engines/database_datatable.ts:451-457 | nothing is ordered when user ordering is disabled; otherwise the callback or the default ordering runs |
| Database.DatabaseTable.Paging | src/engines/database_datatable.ts:409-415 | `paging()` logs `offset(start)` and `limit(length or 10)` |
| Database.DatabaseTable.Paginate | src/datatable_abstract.ts:433-437 | pages only when the request pages and paging is not skipped |
| Database.DatabaseTable.PrepareQuery | src/engines/database_datatable.ts:205-217 | the first call counts, filters, orders and pages, with the counts as `totalCount` and `filteredCount` give them; later calls change nothing |
| Database.DatabaseTable.PrepareOnce | src/engines/database_datatable.ts:206-212 | the body of the first `prepareQuery()`: the total is the recorded or counted total, then the filter, ordering and paging steps run in order |
| Database.DatabaseTable.FilterAndOrder | src/engines/database_datatable.ts:209-210 | ordering does not run once filtering threw, and the counts follow `filterRecords` |
| Database.DatabaseTable.AddColumn | src/engines/database_datatable.ts:417-428 | the column is blacklisted first and then registered; the call throws exactly when the blacklist test or push throws, and then nothing changes |
| Registry.BlacklistedAndAppended | src/engines/database_datatable.ts:417-428 | after an engine's `addColumn` the `append` list has grown by the item, the blacklist holds the name (pushed at the end unless already listed), and every other entry of the definition is kept |
| Database.DatabaseTable.OrderColumns | src/engines/database_datatable.ts:379-385 | `orderColumns` registers each column's override with `:column` replaced by its name |
| Database.DatabaseTable.OrderByNullsLast | src/engines/database_datatable.ts:403-407 | `NULLS LAST` ordering is switched on |
| Database.DatabaseTable.AttachAppends | src/engines/database_datatable.ts:91-104 | the appends, functions evaluated and `disableOrdering` added, are spread over the data |
| Database.DatabaseTable.Results | src/engines/database_datatable.ts:315-327 | `results()` prepares the query and replies with the rows and counts, or with the error envelope when preparing threw |
| DatabaseProperties.JoinsUpTo | src/engines/lucid_datatable.ts:60-76 | while the segments are `belongsTo` relations, each logs its own join on the root table, in segment order |
| DatabaseProperties.JoinsAllBelongsTo | src/engines/lucid_datatable.ts:60-76 | a path of `belongsTo` relations is joined segment by segment, one join each |
| DatabaseProperties.JoinsStopAtUnsupported | src/engines/lucid_datatable.ts:63-72 | the first segment that is not `belongsTo` ends the joins with a throw after the earlier joins, naming the relation when it exists |
| DatabaseProperties.EagerColumnJoins | src/engines/lucid_datatable.ts:42-79 | an eager-loaded `relation.column` is joined once and becomes the related table's column |
| DatabaseProperties.UndottedSearchesLike | src/engines/lucid_datatable.ts:18-24 | a column without a dot is searched by the Lucid engine as by the database engine |
| DatabaseProperties.EagerSearchUsesWhereHas | src/engines/lucid_datatable.ts:26-29 | a column of an eager-loaded relation is searched inside `orWhereHas`/`whereHas` on the related table's column |
| DatabaseProperties.ColumnStepSkips | src/engines/database_datatable.ts:343-354 | a named column that is not searchable, or blacklisted without an override, logs nothing |
| DatabaseProperties.FilterGetsRawKeyword | src/engines/database_datatable.ts:356-358 | a filter override is handed the raw column keyword, blacklisted or not, regex or not |
| DatabaseProperties.UnfilteredColumnStep | src/engines/database_datatable.ts:359-363 | a searchable column without override is searched with exactly one call |
| DatabaseProperties.ColumnSearchCall | src/engines/database_datatable.ts:132-138 | a regex column gets the regex search with the raw keyword; any other gets a `whereRaw` bound to the keyword after `setupKeyword` and `prepareKeyword` |
| DatabaseProperties.DefaultKeywordTwiceWrapped | src/engines/database_datatable.ts:185-203 | with the default configuration a column search for `a` binds `%%a%}%`: smart search wraps it twice, keeping the stray brace |
| DatabaseProperties.GlobalGroupShape | src/engines/database_datatable.ts:433-448 | the grouped `where` holds one call per kept column, each an override call or an `OR`ed search |
| DatabaseProperties.GlobalCallShape | src/engines/database_datatable.ts:441-447 | each column of the global search makes an override call, an `orWhereRaw` or an `orWhereHas` |
| DatabaseProperties.FilteringOncePerTerm | src/datatable_abstract.ts:410-425 | `filtering()` logs one grouped `where` per term, in term order |
| DatabaseProperties.PlainOrderDefault | src/engines/database_datatable.ts:56-59 | with the default configuration the plain ordering is `column direction NULLS LAST`, or the wrapped column and direction without it |
| DatabaseProperties.DatabaseOrderStep | src/engines/database_datatable.ts:48-61 | the database engine orders a name by its override when it has one, else plainly |
| DatabaseProperties.OrderOverride | src/engines/database_datatable.ts:68-81 | an override `false` orders nothing, a string is ordered raw with `$1` replaced and its bindings, a function is handed the direction |
| DatabaseProperties.DisabledOrdering | src/engines/database_datatable.ts:451-457 | `disableUserOrdering` suppresses every ordering, the callback included |
| DatabaseProperties.EvaluatedLookup | src/engines/database_datatable.ts:93-99 | each append is copied under its key, a function's answer in place of the function |
| DatabaseProperties.AttachedAppendsLookup | src/engines/database_datatable.ts:91-104 | every append is sent evaluated under its key, and `disableOrdering` is the engine's flag over any append of that name |
| DatabaseProperties.OrderColumnsEntries | src/engines/database_datatable.ts:379-385 | after `orderColumns` each listed column has the override with `:column` replaced, and the other entries are unchanged |
| DatabaseProperties.EnvelopeData | src/datatable_abstract.ts:451-472 | the envelope's `data` is the rendered data when no append is named `data` |
| DatabaseProperties.PromiseRendered | src/engines/database_datatable.ts:319-323 | `results()` as written renders the processor's pending promise, so the reply's `data` is `{}` and never the rows |
| DatabaseProperties.RowsRendered | src/engines/database_datatable.ts:315-327 | with the processed rows awaited, the reply is 200 and its `data` is the rows |
| LegacyLucid.LegacyKeyword | src/lucid_datatable.ts:223-241 | with starts-with search the keyword is the literal text `keyword%`; otherwise with smart search the literal `%keyword%` |
| LegacyLucid.PlainKeywordAgrees | src/lucid_datatable.ts:223-241 | without starts-with and smart search the legacy engine prepares the keyword as the query-builder engine does |
| LegacyLucid.LegacyKeywordConstant | src/lucid_datatable.ts:228-238 | with starts-with or smart search the prepared keyword does not depend on the typed keyword |
| LegacyLucid.KeywordLost | src/lucid_datatable.ts:228-230 | a direct call of the legacy `prepareKeyword` with starts-with search turns `abc` into `keyword%` where the query-builder engine prepares `abc%`; no search path calls it |
| LegacyLucid.UnquotedRegexSearch | src/lucid_datatable.ts:182-206 | one `whereRaw` with one binding: the keyword for Oracle and PostgreSQL, lower-cased for the other drivers |
| LegacyLucid.UnquotedRegexFragments | src/lucid_datatable.ts:182-206 | each driver's fragment names the column as given, without wrapping or cast; away from PostgreSQL it equals the query-builder engine's fragment on the wrapped column |
| LegacyLucid.ColumnStepCalls | src/lucid_datatable.ts:129-180 | a column turn logs nothing or only the regex search of its column, and the latter only for a searchable regex column without override |
| LegacyLucid.ColumnSearchOnlyRegex | src/lucid_datatable.ts:129-221 | every call of `columnSearch()` is a regex search of some regex column without override: no `LIKE` and no filter override ever reaches the query |
| LegacyLucid.GlobalSearchCall | src/lucid_datatable.ts:243-280 | `globalSearch` logs an empty grouped `where` (or throws), since both branches of its `.each` do nothing to the query |
| LegacyLucid.OrderingRun | src/lucid_datatable.ts:322-329 | `ordering()` never calls the query; with user ordering on, a function order callback makes it throw a TypeError, since `super.ordering()` calls the `resolveCallback` the legacy class lacks (src/datatable_abstract.ts:377-384) |
| LegacyLucid.OrderCallbackRejects | src/lucid_datatable.ts:50-62 | with a function order callback the first `prepareQuery()` stops after the column search with a TypeError: nothing is ordered or paged |
| LegacyLucid.PagingAgrees | src/lucid_datatable.ts:300-312 | without a limit callback the legacy engine pages as the query-builder engine; with one it logs only the limit and then the callback |
| LegacyLucid.PrepareRecordsNoSearchOrOrder | src/lucid_datatable.ts:50-62 | everything `prepareQuery()` logs is a raw regex search, a callback call, an offset or a limit |
| LegacyLucid.LegacyTable.constructor | src/lucid_datatable.ts:19-22 | the table's columns are the query's; nothing is logged or prepared and there is no limit callback |
| LegacyLucid.LegacyTable.SearchColumn | src/lucid_datatable.ts:132-154 | one turn of `columnSearch` logs exactly its step's calls |
| LegacyLucid.LegacyTable.ColumnSearch | src/lucid_datatable.ts:129-155 | `columnSearch()` logs the turns' calls in order up to the first throw |
| LegacyLucid.LegacyTable.GlobalSearch | src/lucid_datatable.ts:243-263 | `globalSearch` logs the empty grouped `where` |
| LegacyLucid.LegacyTable.Filtering | src/lucid_datatable.ts:294-298 | `filter` and `filtering` are stubs that log nothing |
| LegacyLucid.LegacyTable.Ordering | src/lucid_datatable.ts:322-329 | `ordering()` logs nothing and throws exactly when user ordering is on and the order callback is a function |
| LegacyLucid.LegacyTable.Limit | src/lucid_datatable.ts:314-318 | `limit(callback)` records the callback |
| LegacyLucid.LegacyTable.Paging | src/lucid_datatable.ts:300-312 | `paging()` logs offset and limit, or the limit and the limit callback |
| LegacyLucid.LegacyTable.FilterRecords | src/lucid_datatable.ts:102-127 | only the column search runs; then the filtered count is kept or counted, and with `skipTotalRecords` `$totalRecords` takes the never-set `$filteredRecords` |
| LegacyLucid.LegacyTable.PrepareQuery | src/lucid_datatable.ts:50-62 | the first call stores the total count, filters, orders and pages, stops at the first throw (the column search, or a function order callback), and is marked prepared only when nothing threw; later calls change nothing |
| Processor.SetupOf | src/processors/data_processor.ts:31-48 | the constructor's reads of the column definition with their `??` fallbacks: no list it reads is nullish, a missing `index` is `false`, and the live processor also takes `hidden`, `visible` and `ignore_getters` |
| Processor.ObjectValues | src/processors/data_processor.ts:54 | `Object.values` lists each entry's value, in entry order |
| Processor.IndexColumnIsConfigured | src/processors/data_processor.ts:52 | the index key is the configured `index_column`, `DT_RowIndex` by default |
| Processor.RowVariables | src/processors/data_processor.ts:111-120 | `setupRowVariables` throws a `TypeError` exactly when the `DT_RowData` or `DT_RowAttr` template is nullish |
| Processor.ExceptStepIsLodash | src/processors/data_processor.ts:130-135 | for a dot-free `DT_Row*` key the live processor always copies the value and the older one copies it only when truthy |
| Processor.FlattenAsWritten | src/processors/data_processor.ts:149-158 | the live `flatten` as written always answers an array |
| Processor.FlattenValues | src/processors/data_processor.ts:149-158 | the intended `flatten` never answers more values than the row has |
| Processor.Pipeline | src/processors/data_processor.ts:54-76 | the row loop answers at most one row per input row, and exactly one each when no row fails |
| Processor.NotRaw | src/processors/data_processor.ts:165 | removing the raw columns never lengthens the escape list |
| Processor.EscapedRows | src/processors/data_processor.ts:160-174 | `escapeColumns` answers one row per row |
| Processor.DataProcessor.constructor | src/processors/data_processor.ts:31-48 | the processor holds the rows, the column definition as `SetupOf` reads it, the templates, the start and the configuration, with no output yet |
| Processor.DataProcessor.Process | src/processors/data_processor.ts:50-79 | the output is the previous output (cleared first by the live processor) followed by the loop's rows, escaped when no row failed; the index ends where the loop left it; an error is answered as such |
| Processor.DataProcessor.PushRows | src/processors/data_processor.ts:54-76 | the loop appends exactly the pipeline's rows to the output, leaves the index where the pipeline does and reports its error |
| Processor.DataProcessor.PushRowsAs | src/processors/data_processor.ts:54-76 | the row loop, for any step that behaves as the loop's body, ends where `Pipeline` over all rows ends: same output, index and error |
| Processor.DataProcessor.RowStep | src/processors/data_processor.ts:55-75 | one turn of the loop shapes the row, numbers it and flattens it unless objects are asked for |
| Processor.DataProcessor.ShapeRow | src/processors/data_processor.ts:55-69 | the row is built, then columns are added and edited, row variables set, the needed columns selected and the excess removed |
| Processor.DataProcessor.SetupRowVariables | src/processors/data_processor.ts:111-120 | the row processor ends with the row `RowVariables` describes, or throws a `TypeError` exactly when it says so |
| Processor.DataProcessor.AddColumns | src/processors/data_processor.ts:81-100 | each appended column is included into the row in order |
| Processor.DataProcessor.EditColumns | src/processors/data_processor.ts:102-109 | each edit is set at its name's path in order |
| Processor.DataProcessor.SelectOnlyNeededColumns | src/processors/data_processor.ts:122-139 | the loops build the row that `SelectOnly` describes |
| Processor.DataProcessor.PickPaths | src/processors/data_processor.ts:126-129 | the first loop copies each `only` path from the row, in order, into a fresh object: the object `Picked` describes |
| Processor.DataProcessor.ExceptKeys | src/processors/data_processor.ts:130-135 | the second loop sets the four `DT_Row*` keys in turn, as `Excepted` describes |
| Processor.DataProcessor.RemoveExcessColumns | src/processor.ts:115-121 | every configured excess path is unset, as the older processor does and the live one evidently means |
| Processor.DataProcessor.Flatten | src/processors/data_processor.ts:149-158 | the loop pushes each value not yet held, in order |
| Processor.DataProcessor.EscapeColumns | src/processors/data_processor.ts:160-174 | the loop over the rows answers `EscapedRows` |
| Processor.DataProcessor.EscapeOne | src/processors/data_processor.ts:161-172 | one row of the map: with `'*'` it goes through `escapeRow`, with a list only the listed columns that are not raw are escaped, and otherwise it is kept |
| Processor.DataProcessor.EscapeRow | src/processors/data_processor.ts:176-198 | the loop over the row's entries answers `EscapedRow` |
| Processor.DataProcessor.EscapeListed | src/processors/data_processor.ts:166-169 | the loop over the listed columns answers `EscapedListed` |
| Processor.PipelineStops | src/processors/data_processor.ts:54-76 | once a row fails, later rows change nothing |
| Processor.PipelineFails | src/processors/data_processor.ts:54-76 | a failing row ends the loop with the rows before it and its error |
| Processor.EscapedErrStays | src/processors/data_processor.ts:160-174 | once a row's escaping fails, the later rows change nothing |
| Processor.EscapedRowErrStays | src/processors/data_processor.ts:176-198 | once an entry's escaping fails, the later entries change nothing |
| Processor.PipelinePrefix | src/processors/data_processor.ts:54-76 | a loop that ends without error ran without error on every prefix, and its rows start with the prefix's rows |
| Processor.PipelineRow | src/processors/data_processor.ts:54-76 | output row `j` is the step applied to input row `j` with the index the rows before it left |
| Processor.RowStepAdvances | src/processors/data_processor.ts:71-73 | each row moves the index one further when indexing is on |
| Processor.PipelineStart | src/processors/data_processor.ts:71-73 | after the loop the index has advanced once per row when indexing is on |
| Processor.ProcessedRow | src/processors/data_processor.ts:54-76 | output row `j` is input row `j` shaped and finished with the index the `j` rows before it left |
| Processor.RowOfAsWritten | src/processor.ts:43-50 | as written, every row of the older processor throws at `Helper.serializeToObject`; a live row without a `toJSON` method throws, and any other live row is processed as what that method returns |
| Processor.CallToJson | src/processors/data_processor.ts:56 | `row.toJSON()` succeeds exactly when the row's `toJSON` property is a function, and throws a TypeError otherwise |
| Processor.PlainRowHasNoToJson | src/processors/data_processor.ts:56 | on a plain object without a `toJSON` key the call throws a TypeError |
| Processor.LiveStopsAtPlainRow | src/processors/data_processor.ts:50-79 | as written, the live `process()` ends with an error by the first row without `toJSON`, and pushes none of the rows from there on |
| Processor.SerializingRowsAgree | src/processors/data_processor.ts:50-79 | on rows that all have `toJSON`, the live loop as written equals the intended loop over what those methods return |
| Processor.OlderStopsAtFirstRow | src/processor.ts:40-59 | as written, the older `process()` stops at its first row with a TypeError, having pushed nothing and kept its index |
| Processor.IndexedRow | src/processors/data_processor.ts:71-73 | with indexing on, object row `j` holds `start + j + 1` under the index key |
| Processor.SetAtKeepsObject | src/processors/data_processor.ts:105 | `lodash.set` on an object answers an object |
| Processor.UnsetAtKeepsObject | src/processor.ts:117 | `lodash.unset` on an object answers an object |
| Processor.PlainSet | src/processors/data_processor.ts:105 | `lodash.set` at a dot-free key writes that property |
| Processor.PlainGet | src/processors/data_processor.ts:128 | `lodash.get` at a dot-free key reads that property |
| Processor.PlainUnset | src/processor.ts:117 | `lodash.unset` at a dot-free key deletes that property |
| Processor.EditedKeepsObject | src/processors/data_processor.ts:102-109 | editing an object row answers an object |
| Processor.PickedIsObject | src/processors/data_processor.ts:126-129 | the selected columns form an object |
| Processor.ExceptedKeepsObject | src/processors/data_processor.ts:130-135 | copying the `DT_Row*` keys keeps an object |
| Processor.UnsetsKeepsObject | src/processor.ts:115-121 | unsetting paths keeps an object |
| Processor.AddedKeepsObject | src/processors/data_processor.ts:81-100 | adding columns to an object row answers an object |
| Processor.RowVariablesKeepsObject | src/processors/data_processor.ts:111-120 | setting the row variables of an object row answers an object |
| Processor.SelectOnlyKeepsObject | src/processors/data_processor.ts:122-139 | selecting the needed columns of an object row answers an object |
| Processor.LiveShapesObjects | src/processors/data_processor.ts:55-69 | the live processor always shapes a row into an object |
| Processor.LiveIndexRuns | src/processors/data_processor.ts:71-75 | with indexing on, the live processor numbers its rows `start + 1`, `start + 2`, ... in input order |
| Processor.LiveRowFinished | src/processors/data_processor.ts:71-75 | row `j` of an indexed live run is an object row finished with the index `start + j` |
| Processor.ThreeAssigns | src/processors/data_processor.ts:55-62 | three writes to distinct keys each read back |
| Processor.LiveInitialRow | src/processors/data_processor.ts:55-62 | the live row object is the row's entries followed by the three flags |
| Processor.LiveRowGainsFlags | src/processors/data_processor.ts:55-62 | every live row starts with `hidden`, `visible` and `ignore_getters` from the column definition |
| Processor.LastEditWins | src/processors/data_processor.ts:102-109 | edits apply in order: the last edit at a dot-free name is what the row holds there |
| Processor.EmptyOnlyKeeps | src/processors/data_processor.ts:123-124 | an empty `only` list leaves the row as it is |
| Processor.ExceptionsArePlain | src/processors/data_processor.ts:15 | the four `DT_Row*` keys hold no dot |
| Processor.ExceptedLiveKey | src/processors/data_processor.ts:130-135 | every `DT_Row*` key the live loop visits ends up set |
| Processor.LiveOnlyKeepsExceptions | src/processors/data_processor.ts:122-139 | with a non-empty `only`, the live processor sets all four `DT_Row*` keys, even to `undefined` |
| Processor.SetAtKeys | src/processors/data_processor.ts:128 | `lodash.set` on an object adds at most the path's first key |
| Processor.PickedKeys | src/processor.ts:101-103 | the selected row holds only first keys of the `only` paths |
| Processor.ExceptedOlderKeys | src/processor.ts:105-109 | the older processor copies a `DT_Row*` key only when its value is truthy |
| Processor.OlderOnlyKeys | src/processor.ts:95-113 | with a non-empty `only`, the older row holds only the first keys of the `only` paths and the truthy `DT_Row*` keys |
| Processor.UnsetAtShrinks | src/processor.ts:117 | `lodash.unset` never adds a key |
| Processor.UnsetStepGone | src/processor.ts:117 | one `lodash.unset` step leaves a dot-free name absent: the step that names it removes it, and any other step keeps it out |
| Processor.UnsetsRemoves | src/processor.ts:115-121 | a dot-free path that is unset is gone from the row |
| Processor.ExcessGone | src/processor.ts:115-121 | every configured dot-free excess column is gone from the row |
| Processor.OwnValueRemovesColumn | src/processors/data_processor.ts:141-147 | the live `removeExcessColumns` as written unsets each of the row's own values as a path: `{ id: 1, name: 'id' }` loses `id` |
| Processor.NoExcessKeeps | src/processors/data_processor.ts:141-147 | without excess columns the intended `removeExcessColumns` leaves the row alone |
| Processor.FlattenDropsNamedKeys | src/processors/data_processor.ts:149-158 | the live `flatten` as written keeps nothing of a row whose keys are all names |
| Processor.FlattenLosesRow | src/processors/data_processor.ts:149-158 | `{ name: 'Ann' }` flattens to `[]` |
| Processor.FlattenKeepsValues | src/processors/data_processor.ts:149-158 | the intended `flatten` keeps every value of the row and adds none |
| Processor.EscapedFields | src/processors/data_processor.ts:178-191 | each field is escaped in place, one for one |
| Processor.AssignAt | src/processors/data_processor.ts:188 | writing the key of a field that no earlier field has replaces that field in place |
| Processor.LiveEscapeStep | src/processors/data_processor.ts:184-195 | one more entry through the live `escapeRow` escapes it when it is a truthy string and leaves the row alone otherwise |
| Processor.HalfEscapedNext | src/processors/data_processor.ts:184-191 | escaping one more field changes only that field and keeps every key |
| Processor.LiveEscapeRowNext | src/processors/data_processor.ts:184-195 | the live `escapeRow` over one more entry escapes one more field |
| Processor.LiveEscapeRowPrefix | src/processors/data_processor.ts:184-195 | after `n` entries the first `n` fields are escaped |
| Processor.LiveEscapeRow | src/processors/data_processor.ts:176-198 | with `escape === '*'` the live processor escapes every truthy string value, raw columns included, and keeps everything else |
| Processor.NotRawFilters | src/processors/data_processor.ts:165 | the escape list without the raw columns is exactly the listed columns the raw array does not hold |
| Processor.EscapedListedColumns | src/processors/data_processor.ts:164-170 | with a list of distinct dot-free columns exactly the listed columns are escaped |
| Rows.LodashPath | src/processors/row_processor.ts:11 | a lodash path has at least one key: a string is split at its dots, and a non-empty array is its elements' string forms, one key each |
| Rows.ValueStored | src/processors/row_processor.ts:9-19 | `rowValue` stores the value found at the template's path when it is truthy (the older processor not for a function template), else the template itself |
| Rows.DataApplies | src/processors/row_processor.ts:21-30 | reading `template.length` (older: `Object.keys(template)`) throws a `TypeError` exactly on a nullish template |
| Rows.RowDataSpec | src/processors/row_processor.ts:21-30 | `rowData` throws a `TypeError` exactly on a nullish template |
| Rows.RowProcessor.constructor | src/processors/row_processor.ts:4-7 | the processor holds the row data |
| Rows.RowProcessor.RowValue | src/processors/row_processor.ts:9-19 | `rowValue` leaves the row `RowValueSpec` describes |
| Rows.RowProcessor.RowData | src/processors/row_processor.ts:21-30 | `rowData` throws a `TypeError` exactly on a nullish template and changes nothing then, and otherwise leaves the row `RowDataSpec` describes |
| Rows.UndefinedTemplateKeeps | src/processors/row_processor.ts:10 | an undefined template leaves the row as it is |
| Rows.LiveRowValueSets | src/processors/row_processor.ts:9-19 | the attribute gets the value at the template's path when truthy, else the template; every other key keeps its value |
| Rows.OlderFalsyTemplateKeeps | src/processor.ts:184-194 | the older `rowValue` ignores falsy templates, the empty string included |
| Rows.FilledArrayCopies | src/processors/row_processor.ts:23-26 | copying an array's entries into a fresh array gives the same elements |
| Rows.LiveRowDataCopies | src/processors/row_processor.ts:21-30 | a non-empty array template is stored as a copy |
| Rows.LiveEmptyTemplateKeeps | src/processors/row_processor.ts:22 | the template `[]` leaves the live row as it is |
| Rows.FilledObjectCopies | src/processor.ts:198-201 | copying an object's entries into `{}` gives the same object |
| Rows.OlderRowDataCopies | src/processor.ts:196-207 | the older `rowData` stores a copy of a non-empty object template |
| ObjectEngine.TextBeforeAsymmetric | src/engines/object_datatable.ts:42-44 | two strings are never each before the other in `sortBy`'s order |
| ObjectEngine.TextBeforeTransitive | src/engines/object_datatable.ts:42-44 | the string order of `sortBy` is transitive |
| ObjectEngine.TextBeforeTotal | src/engines/object_datatable.ts:42-44 | two different strings are ordered one way or the other |
| ObjectEngine.BeforeAsymmetric | src/engines/object_datatable.ts:42-44 | two cell values are never each before the other |
| ObjectEngine.NotBeforeTransitive | src/engines/object_datatable.ts:42-44 | "not after" is transitive, so `sortBy` is well defined up to ties |
| ObjectEngine.Insert | src/engines/object_datatable.ts:44 | inserting a row adds exactly that row |
| ObjectEngine.SortBy | src/engines/object_datatable.ts:44 | `sortBy(column)` answers a rearrangement of the rows sorted by their value at the column |
| ObjectEngine.Reversed | src/engines/object_datatable.ts:42 | reversing keeps the rows, last first |
| ObjectEngine.SortByDesc | src/engines/object_datatable.ts:42 | `sortByDesc(column)` answers a rearrangement of the rows |
| ObjectEngine.SortByDescSorted | src/engines/object_datatable.ts:42 | `sortByDesc(column)` is sorted from the largest value down |
| ObjectEngine.SortedPairwise | src/engines/object_datatable.ts:42-44 | in a sorted collection no later row sorts before an earlier one |
| ObjectEngine.TurnsStop | src/engines/object_datatable.ts:65-96 | once a turn throws, the later turns change nothing |
| ObjectEngine.TurnsKeep | src/engines/object_datatable.ts:65-96 | turns that each filter only drop rows, and when all finish a row survives exactly when every turn keeps it |
| ObjectEngine.TurnsPermute | src/engines/object_datatable.ts:37-46 | turns that each rearrange the rows rearrange them |
| ObjectEngine.KeepRows | src/engines/object_datatable.ts:79-95 | `collection.filter(test)` keeps, in order, the rows whose test answers true |
| ObjectEngine.KeptMembers | src/engines/object_datatable.ts:79-95 | a row is kept exactly when it is a row and passes; no row is added |
| ObjectEngine.KeepRowsStops | src/engines/object_datatable.ts:79-95 | once a row's test throws, the filter throws that error |
| ObjectEngine.Includes | src/engines/object_datatable.ts:87-94 | `includes` exists on strings and arrays only; on anything else it throws |
| ObjectEngine.ContainsValue | src/engines/object_datatable.ts:87-94 | the empty needle is never contained; a string holds a string needle exactly when it occurs in it; anything without `includes` throws for any other needle |
| ObjectEngine.CellKept | src/engines/object_datatable.ts:79-95 | a regex column's cell test is the regular-expression engine's answer for the keyword, flagged by case, on the cell's text, including the SyntaxError of an invalid pattern |
| ObjectEngine.KeepRowsThrows | src/engines/object_datatable.ts:79-95 | a row whose test throws makes the whole filter throw |
| ObjectEngine.InvalidPatternThrows | src/engines/object_datatable.ts:82-92 | a regex column whose pattern the engine rejects makes its column-search turn throw |
| ObjectEngine.CellKeptAsWritten | src/engines/object_datatable.ts:78-94 | as written, a column search without a regular expression throws for every cell (the undefined `Helper.contains`); with one it is the intended test |
| ObjectEngine.TextCellKept | src/engines/object_datatable.ts:82-94 | a text cell is kept exactly when it holds the non-empty keyword, both lower-cased when case is ignored |
| ObjectEngine.NonTextCellThrows | src/engines/object_datatable.ts:82-94 | ignoring case, a cell or keyword that is not a string throws (no `toLowerCase`); with case, only a cell without `includes` and a non-empty keyword throws |
| ObjectEngine.ColumnQueryCases | src/engines/object_datatable.ts:65-77 | a column is searched exactly when it is named, searchable and not blacklisted, with its column keyword |
| ObjectEngine.ColumnStepIs | src/engines/object_datatable.ts:65-96 | the loop's turn function is the column turn |
| ObjectEngine.ColumnTurnKeeps | src/engines/object_datatable.ts:79-95 | a column's turn keeps a row exactly when it lets it through |
| ObjectEngine.ColumnTurnsKeep | src/engines/object_datatable.ts:63-97 | the column search only drops rows, and when it finishes a row survives exactly when every column lets it through |
| ObjectEngine.NumberedColumnsReadId | src/engines/object_datatable.ts:14 | `$columns` is the `keys()` collection, never indexed, so a request column named by a number reads the primary key `id` |
| ObjectEngine.GlobalFromHas | src/engines/object_datatable.ts:139-155 | the global test keeps a row exactly when some searchable column's cell is a string holding the keyword; the blacklist plays no part |
| ObjectEngine.GlobalCellAsWritten | src/engines/object_datatable.ts:144-151 | as written, a string cell in the global search throws at `Helper.contains`; any other cell is passed over |
| ObjectEngine.TermStepIs | src/datatable_abstract.ts:410-425 | the keyword loop's turn function is the term turn |
| ObjectEngine.TermTurnKeeps | src/engines/object_datatable.ts:136-156 | the global search for keyword `i` keeps a row exactly when it passes it |
| ObjectEngine.TermsKeep | src/datatable_abstract.ts:410-425 | the keyword searches only drop rows, and when they finish a row survives exactly when it passes every keyword |
| ObjectEngine.OrderTurn | src/engines/object_datatable.ts:37-46 | one directive's sort only rearranges the rows |
| ObjectEngine.OrderStepIs | src/engines/object_datatable.ts:37-46 | the ordering loop's turn function is the directive's sort |
| ObjectEngine.DefaultOrderingPermutes | src/engines/object_datatable.ts:29-47 | `defaultOrdering()` only rearranges the rows, finished or not |
| ObjectEngine.LastDirectiveWins | src/engines/object_datatable.ts:29-47 | after the directives are applied one after another the rows are sorted by the last directive's column, descending when it asks for `desc` |
| ObjectEngine.PriorityOrder | src/engines/object_datatable.ts:29-47 | sorting from the last directive to the first only rearranges the rows |
| ObjectEngine.FirstDirectiveLeads | src/engines/object_datatable.ts:29-47 | with the sorts run in priority order the rows end up sorted by the first directive |
| ObjectEngine.SortPair | src/engines/object_datatable.ts:44 | two rows are swapped exactly when the second sorts before the first |
| ObjectEngine.OrderInvertedFor | src/engines/object_datatable.ts:37-46 | two rows ordered one way by `a` and the other by `b` end up ordered by `b`, where the priority order orders them by `a` |
| ObjectEngine.DirectiveOrderInverted | src/engines/object_datatable.ts:37-46 | `{a:1,b:2}` and `{a:2,b:1}` ordered by `a` then `b` come out ordered by `b`, while the priority order puts `a` first |
| ObjectEngine.PairKeys | src/engines/object_datatable.ts:80 | the row `{a: p, b: q}` reads `p` at `a` and `q` at `b` |
| ObjectEngine.SliceIndex | src/engines/object_datatable.ts:103 | `slice` starts at the index, counted from the end when negative, clamped to the rows |
| ObjectEngine.PagedWindow | src/engines/object_datatable.ts:99-104 | the page is the window of rows from `start - $offset` of at most `length > 0 ? length : 10` rows, full when enough rows follow |
| ObjectEngine.CanCreate | src/engines/object_datatable.ts:17-19 | any value whose `typeof` is `object`, `null` included, can be served |
| ObjectEngine.OrderingPermutes | src/datatable_abstract.ts:377-384 | `ordering()` only rearranges the rows |
| ObjectEngine.FilterPassKeeps | src/datatable_abstract.ts:397-408 | filtering only drops rows, and when it finishes a row survives exactly when it passes every keyword (under automatic filtering of a searching request) and every column search |
| ObjectEngine.PagedRows | src/engines/object_datatable.ts:99-104 | a page holds only rows it was given, at most the page size |
| ObjectEngine.PreparedRows | src/engines/object_datatable.ts:110-113 | every row `toJson()` keeps is a source row, and a page holds at most the page size |
| ObjectEngine.TruthyRows | src/engines/object_datatable.ts:118-127 | the processed rows are kept exactly when truthy |
| ObjectEngine.ObjectTable.constructor | src/engines/object_datatable.ts:9-15 | the table holds the rows with offset 0, `$columns` the empty `keys()` object, and the initial column definition |
| ObjectEngine.ObjectTable.Count | src/engines/object_datatable.ts:59-61 | `count()` is the number of rows |
| ObjectEngine.ObjectTable.Results | src/engines/object_datatable.ts:49-51 | `results()` are the rows as they stand |
| ObjectEngine.ObjectTable.SetOffset | src/engines/object_datatable.ts:53-57 | `setOffset` records the offset |
| ObjectEngine.ObjectTable.SearchColumn | src/engines/object_datatable.ts:66-95 | one column turn leaves the rows it keeps, or throws and leaves the rows alone |
| ObjectEngine.ObjectTable.SearchColumnAs | src/engines/object_datatable.ts:66-95 | one turn of the loop does what the turn function says |
| ObjectEngine.ObjectTable.ColumnSearchAs | src/engines/object_datatable.ts:65-96 | the loop over the first `n` columns does what the turns say, stopping at the first throw |
| ObjectEngine.ObjectTable.ColumnSearch | src/engines/object_datatable.ts:63-97 | `columnSearch()` leaves the rows the column search pass describes |
| ObjectEngine.ObjectTable.RowHasKeyword | src/engines/object_datatable.ts:139-155 | the test of one row is the global test |
| ObjectEngine.ObjectTable.RowHasKeywordAs | src/engines/object_datatable.ts:139-155 | the test of one row is the filter's test |
| ObjectEngine.ObjectTable.KeepMatching | src/engines/object_datatable.ts:139-155 | the `.filter` loop keeps the rows that pass, or throws and leaves the rows alone |
| ObjectEngine.ObjectTable.GlobalSearch | src/engines/object_datatable.ts:136-156 | `globalSearch(keyword)` keeps the rows holding the (folded) keyword, or throws and leaves the rows alone |
| ObjectEngine.ObjectTable.GlobalSearchAs | src/datatable_abstract.ts:424 | one keyword's search does what the turn function says |
| ObjectEngine.ObjectTable.FilteringAs | src/datatable_abstract.ts:420-425 | the loop over the keywords does what the turns say, stopping at the first throw |
| ObjectEngine.ObjectTable.Filtering | src/datatable_abstract.ts:410-418 | `filtering()` leaves the rows the filtering pass describes |
| ObjectEngine.ObjectTable.FilterRecords | src/datatable_abstract.ts:397-408 | the global search, the filter callback (logged), then the column search; when that finishes the filtered count is set from the rows unless already set |
| ObjectEngine.ObjectTable.GlobalStage | src/datatable_abstract.ts:398-400 | global search runs only under automatic filtering of a searching request |
| ObjectEngine.ObjectTable.SortOnce | src/engines/object_datatable.ts:37-46 | one directive sorts the rows, or throws and leaves them alone |
| ObjectEngine.ObjectTable.SortOnceAs | src/engines/object_datatable.ts:37-46 | one directive's turn does what the turn function says |
| ObjectEngine.ObjectTable.DefaultOrderingAs | src/engines/object_datatable.ts:37-46 | the `.each` loop does what the turns say, stopping at the first throw |
| ObjectEngine.ObjectTable.DefaultOrdering | src/engines/object_datatable.ts:29-47 | `defaultOrdering()` leaves the rows the ordering pass describes |
| ObjectEngine.ObjectTable.Ordering | src/datatable_abstract.ts:377-384 | an order callback is handed the table (logged) instead of the default ordering |
| ObjectEngine.ObjectTable.Paging | src/engines/object_datatable.ts:99-104 | `paging()` leaves the page |
| ObjectEngine.ObjectTable.Paginate | src/datatable_abstract.ts:433-437 | the rows are paged only when the request pages and paging is not skipped |
| ObjectEngine.PlainRowAnswersError | src/engines/object_datatable.ts:115-133 | as written, a table holding a row without a `toJSON` method answers the error envelope whenever its total is not 0 |
| ObjectEngine.SerializedAnswerAgrees | src/datatable_abstract.ts:439-449 | on rows that all have `toJSON`, `processResults` as written equals the intended processing of what those methods return |
| ObjectEngine.ObjectTable.ProcessResults | src/datatable_abstract.ts:439-449 | the rows go through the data processor with the merged definition, the templates and the request's start |
| ObjectEngine.ObjectTable.Respond | src/engines/object_datatable.ts:115-130 | the rows are processed when the total is not 0, the truthy ones kept, and rendered |
| ObjectEngine.ObjectTable.Prepare | src/engines/object_datatable.ts:111-113 | ordering, then filtering, then paging, with the callbacks handed in that order |
| ObjectEngine.ObjectTable.FilterPage | src/engines/object_datatable.ts:112-113 | filtering, then paging when it finished |
| ObjectEngine.ObjectTable.ToJson | src/engines/object_datatable.ts:106-134 | the total is the recorded or counted one; the rows are ordered, filtered and paged, then processed and rendered, and any throw gives the error envelope |

## Left out

- HTTP plumbing: `setContext`, `prepareContext`, `HttpContext`, and the response's `status`, `append` and `json` calls. The model builds the reply as a value: status, headers and body.
- Query execution: `count()`, `dataResults()`, `first()` and awaiting a builder. Counts and fetched rows are inputs, and the builder is a log of the calls made on it.
- `getConnection`, `getBaseQueryBuilder`, `getFilteredQuery`, `resolveCallback` and `resolveCallbackParameter` only hand back the query (the legacy engine has no `resolveCallback`; see `LegacyLucid.OrderingRun`). The model keeps a single query log.
- `addTablePrefix` scans `toSQL().sql` with a regular expression. The table prefix is taken as given.
- The static `canCreate` of the query-builder and Lucid engines, and `getConnection`, test against library classes. Dispatch takes each engine's `canCreate` and `create` as function values, and only the in-memory engine's `typeof` test is modelled (`ObjectEngine.CanCreate`).
- JavaScript `RegExp` is a parameter of the regular-expression column search. It answers a match, or the SyntaxError that building an invalid pattern throws.
- collect.js `sortBy`/`sortByDesc` are modelled as a stable sort. The order ranks values by type, then compares numbers and strings. collect.js's own comparison of mixed types is not modelled.
- lodash `get`/`set`/`unset` take paths as lists of keys. Bracket syntax in path strings is not modelled, nor lodash's reading of a dotted string that is itself a key of the object as that one key.
- LodashPath: an empty array path is read as the single key `undefined`. That is the key lodash's `unset` deletes for it, but lodash's `get` answers `undefined` for it and `set` leaves the object alone.
- `sprintf` supports only `%s` and `%%`, which is all the default nulls-last template uses.
- `toLowerCase` and `toUpperCase` act on ASCII letters only.
- Numbers are integers. Fractions, `NaN` arithmetic and `Infinity` are not modelled, and `Number(…)` reads decimal integers.
- The order of JavaScript object keys is insertion order. Integer-like keys, which JavaScript lists first, are not reordered.
- Named properties set on an array are dropped, as JSON drops them. That is what makes the `flatten` finding below visible.
- `Helper.convertToObject` and `serializeRelations` serialise ORM models. The model reads a row as the object it serialises to, and a plain row as itself. The live processor's unguarded `row.toJSON()` is modelled as written by `Processor.RowOfAsWritten` only (see "## Findings").
- LiveInitialRow: states the row object built from the row read as itself. As written, `row.toJSON()` throws a TypeError on a row without that method, a plain object among them (`Processor.RowOfAsWritten`, `Processor.LiveStopsAtPlainRow`).
- ProcessResults: processes the rows read as themselves. As written, a plain row makes `processResults` throw a TypeError (`ObjectEngine.ProcessedAsWritten`).
- Respond: renders the processed rows of a table over plain objects. As written, processing them throws, and `toJson` answers the error envelope (`ObjectEngine.PlainRowAnswersError`).
- ToJson: answers 200 with the rows of a table over plain objects whose total is not 0. As written, the source answers the error envelope through the `toJSON` TypeError (`ObjectEngine.PlainRowAnswersError`).
- HasProperty: reads the object's own keys. JavaScript's `key in target` also finds inherited properties (`'toString' in {}` is true). The two agree on the column-definition keys the source tests.
- `Helper.compileContent` is the identity, as in the code.
- `Helper.contains`, `Helper.wrapColumn`, `Helper.serializeToObject` and `Helper.objectIncludeIn` do not exist in src/utils/helper.ts, so each call to them throws (see "## Findings"). The as-written members throw there. The corrected members, which the rest of the model uses, read them as `Str.contains` of src/utils/string.ts without case folding, `Helper.wrap`, the row as it is, and `objectIncludeIn` of src/utils/function.ts.
- GetColumnName: states the evidently intended resolution. As written, every named column throws (`Registry.GetColumnNameAsWritten`), and with it column search, global search and default ordering in every engine.
- ContainsValue: states `Str.contains`. As written, the call to `Helper.contains` throws.
- LikeSearch: states the `LIKE` call with `Helper.wrap` quoting. As written, the search throws in `wrapColumn` (`Sql.LikeSearchAsWritten`).
- RegexFragments: states the fragments on the `Helper.wrap`-quoted column. As written, `regexColumnSearch` throws first (`Sql.RegexSearchAsWritten`).
- PlainOrderDefault: states the intended plain ordering. As written, it throws in `wrapColumn` whether or not nulls-last is on (`Database.PlainOrderAsWritten`).
- TextCellKept: states the intended keep rule. As written, the cell test throws (`ObjectEngine.CellKeptAsWritten`).
- NonTextCellThrows: states which cells throw under the intended test. As written, every cell throws without a regular expression (`ObjectEngine.CellKeptAsWritten`).
- GlobalFromHas: states the intended global test. As written, the first string cell throws (`ObjectEngine.GlobalCellAsWritten`).
- `getColumnsDefinition` writes into the application's configuration. `arrayIntersectKey` copies the configured `columns` arrays by reference, and `arrayReplaceRecursive` (src/utils/function.ts:13-25) then writes the table's `$columnDef` entries into them in place. So every `isBlacklisted` call overwrites the configured `blacklist`, `whitelist` and `raw` lists position by position, for every later table. `Registry.ColumnsDefinition` treats the configuration as an unchanging input and does not capture this aliasing.
- `Config.set`, and with it the table methods `smart()` and `startsWithSearch()`, write the application-wide configuration rather than table state. Configurations are inputs.
- `console.log` calls are not modelled.
- The text of `exception.stack` is a string parameter of the error envelope; the model does not build it.
- `filteredCount()` is not awaited in `filterRecords` in `src/datatable_abstract.ts`. The model assigns the count after filtering synchronously, so promise timing is not modelled.
- User callbacks (`filter`, `filterColumn`, `order`, `orderColumn`, `limit`) are opaque values. Calling one is logged as an `Invoke` call with its id and its arguments other than the query; what it does to the query is not modelled.
- The legacy `LucidDataTable`'s `make`, `results`, `count`, `prepareCountQuery`, `hasFilterColumn` and `addColumn` are not modelled.
  - `make`, `results`, `count` and `prepareCountQuery` execute queries.
  - `hasFilterColumn` is the same as the query-builder engine's (`Database.FilterCall`).
  - `addColumn` is the same as `Database.DatabaseTable.AddColumn`.
- The in-memory engine's `create` wraps its source in a collect.js `Collection`. The model holds a sequence of rows instead.
- The package's service provider, configuration stub, type declarations and re-exports hold no logic and are not modelled.
- Concurrency is not modelled: every `async` method is a synchronous step.

## Findings

| source | as written | input that shows it | evidently intended | confidence | as-written member | corrected member |
|---|---|---|---|---|---|---|
| src/datatable_abstract.ts:463-466 | `render` loops over `Config.jsonHeaders().entries()`, but the setting is a plain object (default `{}`) with no `entries` method, so every render throws | any table under the default configuration | loop over `Object.entries(jsonHeaders())` | not executed; high | Registry.RenderThrows | Registry.RenderFixed |
| src/engines/database_datatable.ts:321-323 | `results()` hands `render` the promise returned by `processResults` without awaiting it, so the reply's `data` is that promise, serialised as `{}` | any query-builder or Lucid table with rows | `await this.processResults(results)` | not executed; high | DatabaseProperties.PromiseRendered | DatabaseProperties.RowsRendered |
| src/lucid_datatable.ts:228-238 | the legacy `prepareKeyword` returns the literal text `'keyword%'` or `'%keyword%'` instead of the keyword; its only call (line 220) is commented out, so nothing reaches it today | a direct call `prepareKeyword('abc')` with starts-with search returns `'keyword%'` | `keyword + '%'` and `'%' + keyword + '%'`, as in src/engines/database_datatable.ts:185-203 | not executed; high | LegacyLucid.KeywordLost | Sql.PrepareKeywordSteps |
| src/utils/request.ts:18-40 | `orderableColumns` and `isOrderable` read `order.lenght`, which no array has, so this reader never orders | any request with `order[0][column]=0` on an orderable column | `order.length`, as in src/request.ts:32-50 | not executed; high | Request.UtilsNeverOrders | Request.OrderableColumnsExact |
| src/processors/data_processor.ts:141-147 | the live `removeExcessColumns` unsets every path named by one of the row's own values and never reads the configured excess columns | the row `{ id: 1, name: 'id' }` loses `id` | unset each configured excess column, as src/processor.ts:115-121 does | not executed; high | Processor.OwnValueRemovesColumn | Processor.ExcessGone |
| src/processors/data_processor.ts:149-158 | the live `flatten` assigns named keys on an array, which JSON drops, so a row with named keys flattens to `[]` | the row `{ name: 'Ann' }` | push each value not yet held | not executed; medium | Processor.FlattenLosesRow | Processor.FlattenKeepsValues |
| src/datatable_abstract.ts:523-525 | `getColumnName` calls `Helper.contains`, which src/utils/helper.ts does not define, so every named column throws a TypeError | a request column named `name` | test `' AS '` with `Str.contains` | not executed; high | Registry.GetColumnNameAsWritten | Registry.GetColumnName |
| src/engines/database_datatable.ts:247-249 | `wrapColumn` returns `Helper.wrapColumn(column, true)`, which `Helper` does not define, so every `LIKE` search throws | a column search for `a` on column `name` | quote with `Helper.wrap` | not executed; high | Sql.LikeSearchAsWritten | Sql.LikeSearch |
| src/engines/database_datatable.ts:140-141 | `regexColumnSearch` starts with `wrapColumn`, so every regular-expression search throws | a regex column search on column `name` | quote with `Helper.wrap` | not executed; high | Sql.RegexSearchAsWritten | Sql.RegexFragments |
| src/engines/database_datatable.ts:54-58 | the plain ordering builds `normalSql` with `wrapColumn` even when nulls-last is used, so it throws | ordering by a column without an override | quote with `Helper.wrap` | not executed; high | Database.PlainOrderAsWritten | DatabaseProperties.PlainOrderDefault |
| src/engines/object_datatable.ts:82-94 | the in-memory column search calls `Helper.contains`, so every cell throws without a regular expression | column search for `a` over the row `{ name: 'abc' }` | `Str.contains` | not executed; high | ObjectEngine.CellKeptAsWritten | ObjectEngine.TextCellKept |
| src/engines/object_datatable.ts:149 | the in-memory global search calls `Helper.contains` on the first string cell, which throws | global search for `a` over the row `{ name: 'abc' }` | `Str.contains` | not executed; high | ObjectEngine.GlobalCellAsWritten | ObjectEngine.GlobalFromHas |
| src/processor.ts:44 | the older `process()` starts each row with `Helper.serializeToObject` (and adds columns with `Helper.objectIncludeIn`), neither of which `Helper` defines, so its first row throws | any non-empty result set | use the row as it is and `objectIncludeIn` of src/utils/function.ts | not executed; high | Processor.OlderStopsAtFirstRow | Processor.ProcessedRow |
| src/processors/data_processor.ts:56-66 | the live `process()` calls `row.toJSON()` with no guard, so a row without that method, such as every plain object in the in-memory engine's collection, throws a TypeError and `toJson` answers the error envelope | an in-memory table over `[{ name: 'a' }]` whose total is 1 | read a plain row as itself, as the guarded `Helper.convertToObject` (src/utils/helper.ts:95) does | not executed; high | ObjectEngine.PlainRowAnswersError | Processor.LiveInitialRow |
