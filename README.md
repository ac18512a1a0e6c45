# multidb-golang: the MySQL statement builder, in Dafny

This project models the statement builder of `multi-db/mysql/builder.go`
and the small adapter functions of `multi-db/mysql/db.go`, and proves what
they compute.

The builder is a `Query` object. It holds string fragments for the select
list, the From override, an update template, the joins, the where
condition, GROUP BY, HAVING, ORDER BY, LIMIT and OFFSET, plus a list of
bound arguments and a cache of the rendered statement. Every chainable
setter rewrites one fragment and clears the cache. `QueryString` renders
the fragments in a fixed order, cleans up the spacing with two fixed
replace passes, appends `;` and caches the result. The executing methods
(`Result`, `Rows`, `Results`, `FirstResult`, `Count`, `UpdateAll`,
`DeleteAll`, `Insert`, `InsertObject`) render the statement and hand it,
with its arguments, to the adapter. Around the builder sit the parameter
helpers (sorted keys, values in key order, the `SET` list, the `INSERT`
statement), the record mapping of `SetData`, `InsertObject` and `ScanRow`,
and `trim`.

Modules, one per part of the program:

- `Wrappers`: `Option` and `Result`.
- `GoStrings`: the Go library calls the core relies on, written out so
  that their behaviour can be stated. These are `strings.Join`, `Split`,
  `Replace`, `TrimRight`, `TrimSuffix`, `TrimSpace` and `Contains`,
  `strconv.Atoi` and `Itoa` with Go's 64-bit range and overflow rules, and
  Go's string order.
- `Values`: the `interface{}` values that flow through the builder, and
  `%v` formatting.
- `Db`: `QuoteField`, `Placeholder`, `ReplaceArgPlaceholder`, and the
  nil-connection guard of `QuerySql` and `Exec`. Also `Insert`'s
  transaction, over a driver given as a datatype of functions.
- `Params`: `sortedParamKeys`, which fills an array and then sorts it
  with a selection sort proved sorted and a permutation. Also
  `valuesFromParams`, `querySQL` and `formatInsertSQL`. Each is a method
  with a loop, proved equal to a specification function.
- `Rendering`: `trim`, `table()`, `pk()`, the base clause, the fixed
  eight-piece format string, and the two-pass space clean-up of
  `QueryString`.
- `Clauses`: the fragments the setters write. These are the
  Where/OrWhere conditions with the inlined third argument, the IN lists
  of WhereIn/OrWhereIn, the joins, ORDER BY/GROUP BY/HAVING, and
  LIMIT/OFFSET.
- `Mapping`: `SetData`, `InsertObject`'s parameter map and `ScanRow`,
  over an explicit field descriptor of (name, tag, kind).
- `Builder`: the `Query` class with every setter and executing method, and
  a `Connections` class holding the package's connection variables used
  by `New`.

The model follows the code literally, including what it does oddly:

- `Where` writes a leading space (` WHERE (...)`), and the clean-up is only
  two fixed replace passes. So a lone first `Where` renders with two spaces
  before `WHERE`.
- A lone `Offset` renders with two spaces before `OFFSET`.
- `OrWhere` and `WhereIn` start with `WHERE (` with no leading space.
- `DeleteAll` puts `DELETE FROM <tbl>` in the select slot, rendering
  `SELECT DELETE FROM <tbl> FROM <tbl>;`.
- `Count` puts a whole `SELECT COUNT(<pk>) FROM <tbl>` in the select slot,
  rendering `SELECT SELECT COUNT(...) FROM <tbl> FROM <tbl>;`.
- `formatInsertSQL` uses the unquoted table name and adds no `;`.
- `ResetSelect` does not clear the cache.
- `OrWhere` has no `int64` case for its third argument.
- `InsertObject` skips `int8` fields.
- `ScanRow` stores every column, because its nil test is applied to the
  pointer and is always true.
- `QuoteField` quotes table and column names with backticks (the table
  name of `formatInsertSQL` excepted, as above). For
  `Where("id", "=", 5)` on table `t` the rendered statement is
  ``SELECT `t`.* FROM `t`  WHERE (id=5);``, proved in
  `Builder.WhereIdScenario`.
- The spacing clean-up does not remove every double space.
- `InsertObject` of the ads-tag records includes the `id` column even
  when it is zero.

The connection handles are explicit optional values. The driver behind a
handle (prepare, query, exec, begin, commit) is an oracle passed to each
executing method.

## Model

| member | source | states |
|---|---|---|
| Db.QuoteField | multi-db/mysql/db.go:61-63 | the name between two backticks: two characters longer, a backtick at each end, the name in between |
| Db.QuoteFieldInjective | multi-db/mysql/db.go:61-63 | two names with the same quoted form are the same name |
| Db.Placeholder | multi-db/mysql/db.go:94-96 | the marker is the single character `?` for every position |
| Db.ReplaceArgPlaceholder | multi-db/mysql/db.go:91-93 | the statement comes back unchanged |
| Db.QuerySql | multi-db/mysql/db.go:15-35 | fails with "No database available" exactly when no handle is bound; otherwise the driver's rows, or its error as a driver error |
| Db.Exec | multi-db/mysql/db.go:38-58 | the same guard, with "No database available." and the driver's exec outcome |
| Db.NoHandlePreparesNothing | multi-db/mysql/db.go:15-58 | without a handle the outcome of QuerySql and Exec does not depend on the driver, so nothing is prepared |
| Db.Insert | multi-db/mysql/db.go:65-90 | a nil connection panics in Begin; it succeeds exactly when begin, exec, LastInsertId and commit all succeed, and then returns the new id; a begin or exec failure returns that error |
| Db.InsertExecFailureSkipsCommit | multi-db/mysql/db.go:72-76 | a failed exec returns its own error whatever the commit would do |
| GoStrings.SplitJoin | multi-db/mysql/builder.go:426 | the pieces of strings.Split join back, with the separator, to the input |
| GoStrings.JoinSplit | multi-db/mysql/builder.go:426 | separator-free pieces, joined and split again, come back unchanged |
| GoStrings.Split | multi-db/mysql/builder.go:426 | at least one piece, and no piece holds the separator |
| GoStrings.TrimRightChar | multi-db/mysql/builder.go:436 | a prefix of the input that does not end in the character, with only that character removed |
| GoStrings.TrimSuffix | multi-db/mysql/builder.go:470 | the result followed by the suffix (when one was removed) is the input |
| GoStrings.TrimLeftSpace | multi-db/mysql/builder.go:729 | a suffix of the input that does not start with Unicode white space, with only white space removed |
| GoStrings.TrimRightSpace | multi-db/mysql/builder.go:729 | a prefix of the input that does not end with Unicode white space, with only white space removed |
| GoStrings.ReplaceFirstSelf | multi-db/mysql/builder.go:654 | replacing the leftmost `?` by `?` changes nothing |
| GoStrings.Atoi | multi-db/mysql/builder.go:429 | strconv.Atoi in base 10: an optional sign, then digits, within the int64 range, with a syntax or range error otherwise; its properties are `AtoiItoa`, `AtoiParsedIsDecimal`, `ShortDecimalParses` and `ScanDigitsBad` |
| Values.FormatV | multi-db/mysql/builder.go:92-97 | the `%v` text of a value: decimal integers, the string itself, `true`/`false`, `<nil>` and the bracketed byte list; `ConvertIntRoundTrip` proves Atoi reads the integer text back |
| GoStrings.AtoiItoa | multi-db/mysql/builder.go:429-431 | strconv.Atoi reads back what Itoa writes, for every 64-bit value |
| GoStrings.AtoiParsedIsDecimal | multi-db/mysql/builder.go:429 | only an optional sign followed by digits parses |
| GoStrings.ShortDecimalParses | multi-db/mysql/builder.go:429 | every decimal literal shorter than 19 characters parses |
| GoStrings.ScanDigitsBad | multi-db/mysql/builder.go:429 | the digit scan reports a syntax error only when there is a non-digit, and a value only when every character is a digit |
| GoStrings.LessIrreflexive | multi-db/mysql/builder.go:667 | no string is below itself in Go's string order |
| GoStrings.LessTransitive | multi-db/mysql/builder.go:667 | Go's string order is transitive |
| GoStrings.LessTotal | multi-db/mysql/builder.go:667 | of two different strings one is below the other |
| Params.SortedKeys | multi-db/mysql/builder.go:660-670 | the keys in strictly ascending order: as many as there are keys, and exactly the keys |
| Params.SortedUnique | multi-db/mysql/builder.go:667 | two strictly ascending sequences with the same elements are equal, so the sorted key order is unique |
| Params.SortStrings | multi-db/mysql/builder.go:667 | the array ends strictly ascending and is a permutation of what it held |
| Params.FillKeys | multi-db/mysql/builder.go:661-666 | an array of the map's size holding every key once, and nothing else |
| Params.SortedParamKeys | multi-db/mysql/builder.go:660-670 | the result is the map's keys in ascending order |
| Params.ValuesFromParams | multi-db/mysql/builder.go:673-679 | one value per key; the i-th is the value of the i-th key in ascending order |
| Params.Assignments | multi-db/mysql/builder.go:684-686 | one assignment per key, in key order: the quoted key followed by `=?` |
| Params.QuerySQL | multi-db/mysql/builder.go:682-688 | the comma-joined assignments for the keys in ascending order |
| Params.Columns | multi-db/mysql/builder.go:162-163 | one quoted column per key, in key order |
| Params.Markers | multi-db/mysql/builder.go:164 | n markers, each the placeholder of its position |
| Params.FormatInsertSQL | multi-db/mysql/builder.go:160-168 | `INSERT INTO <table> (<cols>) VALUES(<markers>)` for the keys in ascending order, with the table unquoted and no `;` |
| Params.SetListMarkers | multi-db/mysql/builder.go:682-688 | the SET list holds one `?` per key when no key holds a `?` |
| Params.InsertMarkers | multi-db/mysql/builder.go:160-168 | the INSERT holds one `?` per key when neither the table nor a key holds a `?` |
| Params.InsertBindsEveryValue | multi-db/mysql/builder.go:160-168 | the INSERT of a parameter map has as many `?` markers as values are bound to it |
| Params.SetListBindsEveryValue | multi-db/mysql/builder.go:176-179 | the SET list of UpdateAll has as many `?` markers as values are bound to it |
| Mapping.BindingHasNoComma | multi-db/mysql/builder.go:85-87 | the key a tag binds to never holds a comma |
| Mapping.OmitBinding | multi-db/mysql/builder.go:86-87 | the tag `name,omit` binds to `name` for a comma-free name |
| Mapping.Convert | multi-db/mysql/builder.go:90-101 | integer kinds store an integer, strings the %v text of the value, other kinds except float64 the value itself |
| Mapping.ConvertIntRoundTrip | multi-db/mysql/builder.go:91-93 | an integer field keeps an integer value in the 64-bit range |
| Mapping.ConvertIntLenient | multi-db/mysql/builder.go:92-93 | an integer field bound to a text that is not a number gets 0, not an error |
| Mapping.ConvertedKeys | multi-db/mysql/builder.go:80-104 | a field name is set exactly when some field of that name has a tag binding to a data key |
| Mapping.ConvertedValue | multi-db/mysql/builder.go:80-104 | with distinct field names, each bound field holds the conversion of its own data value |
| Mapping.Converted | multi-db/mysql/builder.go:80-104 | the map SetData builds, field by field, a later field of the same name overwriting an earlier one; `ConvertedKeys` and `ConvertedValue` state its keys and values |
| Mapping.SetData | multi-db/mysql/builder.go:75-107 | the record with the converted map decoded over it |
| Mapping.SetDataOmitTag | multi-db/mysql/builder.go:85-105 | an `,omit` tag still binds by its bare name, and the fields SetData does not bind keep their record values |
| Mapping.Param | multi-db/mysql/builder.go:130-144 | a field contributes exactly when its tag is non-empty and does not mention `omit` and its kind is neither int8 nor an unsupported kind; integer kinds contribute their int64 value, string and float kinds their own value |
| Mapping.TextParam | multi-db/mysql/builder.go:131-137 | a string field with a tag not mentioning omit contributes its text |
| Mapping.ObjectParamsKeys | multi-db/mysql/builder.go:125-146 | a key is in the parameter map exactly when some contributing field has that tag |
| Mapping.ObjectParamsLast | multi-db/mysql/builder.go:125-146 | a key holds the value of the last contributing field with that tag |
| Mapping.ObjectParams | multi-db/mysql/builder.go:125-146 | InsertObject's parameter map keyed by the full tag; `ObjectParamsKeys` and `ObjectParamsLast` state its keys and values |
| Mapping.InsertObjectParams | multi-db/mysql/builder.go:125-146 | the loop over the fields builds exactly that parameter map |
| Mapping.AdsTagCopyParams | multi-db/mysql/ads_tag_copy.go:3-7 | the ads-tag record gives the three parameters `id`, `ad_id` and `content_tag`, with `id` present even when it is zero |
| Mapping.Normalize | multi-db/mysql/builder.go:705-718 | a Go int becomes an int64, bytes become a string, anything else is kept; no int or bytes value remains |
| Mapping.RowMapKeys | multi-db/mysql/builder.go:704-721 | the row map's keys are exactly the column names |
| Mapping.RowMapValue | multi-db/mysql/builder.go:704-721 | a column holds the normalised value of its last occurrence |
| Mapping.RowMap | multi-db/mysql/builder.go:704-721 | each column name to its normalised value, a later column of the same name overwriting an earlier one; `RowMapKeys` and `RowMapValue` state its keys and values |
| Mapping.ScanRow | multi-db/mysql/builder.go:690-723 | a failed scan is a scan error, a scan of the wrong width is a scan error, otherwise the row map of the scanned values |
| Clauses.Terms | multi-db/mysql/builder.go:340-365 | one term per argument, each the argument's text, with the third inlined as a literal |
| Clauses.LiteralTextQuoted | multi-db/mysql/builder.go:345-346 | a string third argument is inlined between single quotes |
| Clauses.LiteralIntReadsBack | multi-db/mysql/builder.go:347-350 | an int or int64 third argument is inlined as a decimal that reads back as the same number |
| Clauses.ConditionOfThree | multi-db/mysql/builder.go:340-370 | a three-argument call's condition is column, operator and literal with nothing between them |
| Clauses.ConditionExample | multi-db/mysql/builder.go:339-373 | Where("id", "=", 5) gives the condition `id=5` |
| Clauses.WhereChain | multi-db/mysql/builder.go:366-370 | successive Where calls give ` WHERE ` and the parenthesised conditions joined by ` AND `, in call order |
| Clauses.OrWhereChain | multi-db/mysql/builder.go:407-411 | successive OrWhere calls give `WHERE ` and the parenthesised conditions joined by ` OR `, in call order |
| Clauses.RenderTokens | multi-db/mysql/builder.go:428-435 | one rendered token per comma token, in order |
| Clauses.TokenShape | multi-db/mysql/builder.go:429-434 | a rendered token is non-empty, never ends in a comma, and has a comma only when the token had one |
| Clauses.TokenClassified | multi-db/mysql/builder.go:429-434 | a rendered token is numeric exactly when the token was, and then reads back as the same number |
| Clauses.AtoiParsedInRange | multi-db/mysql/builder.go:429-431 | a token strconv.Atoi accepts is in the 64-bit range |
| Clauses.TerminatedJoin | multi-db/mysql/builder.go:427-435 | the loop's accumulator is the comma-joined tokens plus one trailing comma |
| Clauses.TrimmedInList | multi-db/mysql/builder.go:436 | TrimRight(",") removes exactly that trailing comma |
| Clauses.InListTokens | multi-db/mysql/builder.go:426-437 | splitting the IN list at its commas gives one rendered token per original token, in order |
| Clauses.InListExample | multi-db/mysql/builder.go:426-437 | WhereIn("col", "1,2,abc") tests `col IN (1,2,'abc')` |
| Clauses.OrInGroupReopens | multi-db/mysql/builder.go:468-470 | on a where fragment ending in `)`, OrWhereIn drops that `)` and appends ` OR <sql>)` |
| Clauses.InThenOrIn | multi-db/mysql/builder.go:418-476 | WhereIn then OrWhereIn on an empty where give `WHERE (a OR b)` |
| Clauses.Texts | multi-db/mysql/builder.go:481-489 | the strings of all-string join arguments, in order |
| Clauses.JoinChain | multi-db/mysql/builder.go:491-495 | join clauses accumulate in call order, separated by single spaces |
| Clauses.PrefixedOrderForm | multi-db/mysql/builder.go:564-573 | Order leaves nothing, or `ORDER BY` and a non-empty list |
| Clauses.OrderListRecovered | multi-db/mysql/builder.go:205 | removing the first `ORDER BY ` gives back the list Order was given |
| Clauses.OrderRestore | multi-db/mysql/builder.go:205-223 | Order of the recovered list rebuilds the original order fragment |
| Clauses.NumberClauseReadsBack | multi-db/mysql/builder.go:325-336 | the number in `LIMIT n` or `OFFSET n` reads back as n |
| Rendering.SkipReSpace | multi-db/mysql/builder.go:727 | a suffix of the input that does not start with `\s` |
| Rendering.Collapse | multi-db/mysql/builder.go:725-727 | no two adjacent `\s` and no `\s` other than a space are left; empty exactly when the input is; the first character is kept, or becomes a space |
| Rendering.CollapseFixed | multi-db/mysql/builder.go:725-727 | already collapsed text is left as it is |
| Rendering.TrimNormal | multi-db/mysql/builder.go:724-730 | trim leaves collapsed text with no white space at either end |
| Rendering.TrimFixed | multi-db/mysql/builder.go:724-730 | trim leaves text of that shape as it is |
| Rendering.TrimIdempotent | multi-db/mysql/builder.go:724-730 | trimming twice is trimming once |
| Rendering.Trim | multi-db/mysql/builder.go:724-730 | `[\s]+` runs collapsed to one space, then strings.TrimSpace; `TrimNormal`, `TrimFixed` and `TrimIdempotent` state what it leaves |
| Rendering.TrimEach | multi-db/mysql/builder.go:297-300 | one trimmed field per select field, in order |
| Rendering.TrimEachNormal | multi-db/mysql/builder.go:297-300 | every trimmed select field has trim's shape |
| Rendering.StarBase | multi-db/mysql/builder.go:302-303 | with no select list, update or From the base clause is ``SELECT `<tbl>`.* FROM `<tbl>` `` |
| Rendering.Table | multi-db/mysql/builder.go:643-648 | the From override when one is set, otherwise the backtick-quoted table name |
| Rendering.Pk | multi-db/mysql/builder.go:638-640 | the backtick-quoted primary key, injective by `Db.QuoteFieldInjective` |
| Rendering.UpdateOverridesSelect | multi-db/mysql/builder.go:307-309 | a non-empty update template is the base clause whatever the select list and From are |
| Rendering.NonSpace | multi-db/mysql/builder.go:310-313 | the text with its spaces removed holds no space and is no longer |
| Rendering.TidyKeepsText | multi-db/mysql/builder.go:311-313 | the clean-up changes only spacing: the text without spaces is the same |
| Rendering.TidyNoTrailingSpace | multi-db/mysql/builder.go:311-313 | the clean-up never leaves a trailing space |
| Rendering.TidyNoop | multi-db/mysql/builder.go:311-313 | text with no double and no trailing space is left as it is |
| Rendering.TidyGap | multi-db/mysql/builder.go:311-313 | two words separated by n spaces come out separated by Gap(n) spaces, with trailing spaces dropped |
| Rendering.GapValues | multi-db/mysql/builder.go:311-313 | gaps of one to eight spaces come out as 1, 1, 2, 2, 1, 1, 2, 2 spaces: the passes do not fully collapse |
| Rendering.Tidy | multi-db/mysql/builder.go:311-313 | TrimRight of spaces, then the two Replace passes; `TidyKeepsText`, `TidyNoTrailingSpace`, `TidyNoop` and `TidyGap` state what it changes |
| Rendering.Render | multi-db/mysql/builder.go:310-317 | the eight pieces tidied and a `;` appended; `RenderEnds` and `RenderOrder` state its shape |
| Rendering.RenderEnds | multi-db/mysql/builder.go:310-317 | the statement ends in exactly one `;` with no space before it |
| Rendering.RenderOrder | multi-db/mysql/builder.go:310-317 | apart from spacing the statement is base, join, where, group, having, order, limit, offset in that order, then `;` |
| Rendering.RenderEmpty | multi-db/mysql/builder.go:295-317 | a query with nothing set renders as ``SELECT `<tbl>`.* FROM `<tbl>`;`` |
| Rendering.RenderWhereOnly | multi-db/mysql/builder.go:310-317 | a lone first Where renders with two spaces before `WHERE` |
| Rendering.RenderLimitOnly | multi-db/mysql/builder.go:310-317 | a lone LIMIT renders after a single space |
| Rendering.RenderOffsetOnly | multi-db/mysql/builder.go:310-317 | a lone OFFSET renders after two spaces |
| Rendering.RenderPage | multi-db/mysql/builder.go:310-317 | LIMIT and OFFSET together render with single spaces |
| Rendering.RenderOneField | multi-db/mysql/builder.go:303-317 | a one-field select list renders as `SELECT <field> FROM <tbl>;` |
| Builder.ChosenFallsBack | multi-db/mysql/builder.go:62-66 | a database name other than the second falls back to the first connection |
| Builder.Query.New | multi-db/mysql/builder.go:48-74 | no query exactly when the chosen connection is absent; otherwise that connection becomes current and a fresh, empty query is returned |
| Builder.Query.constructor | multi-db/mysql/builder.go:68-71 | table name and key set, every fragment empty, no cache |
| Builder.ParamSlice | multi-db/mysql/builder.go:340-365 | the loop's terms are the terms of the arguments |
| Builder.ParamToken | multi-db/mysql/builder.go:429-434 | the token as a number or between single quotes |
| Builder.BuildInList | multi-db/mysql/builder.go:426-436 | the loop and the trim give the IN list of the value string |
| Builder.TrimAll | multi-db/mysql/builder.go:297-300 | the loop gives every select field trimmed |
| Builder.JoinArguments | multi-db/mysql/builder.go:479-489 | the first argument is the table, the rest make the condition |
| Builder.CollectOutcome | multi-db/mysql/builder.go:271-278 | either every row is returned as its row map, or the first row that fails is reported with the rows before it |
| Builder.FirstOfRows | multi-db/mysql/builder.go:243-256 | FirstResult succeeds exactly when there is a row and every row scans, and then returns the first row; no rows give NoResults |
| Builder.CountRowsOutcome | multi-db/mysql/builder.go:208-219 | the count is the last row's value (0 with no rows), and a failure exactly when some row fails to scan |
| Builder.CountRows | multi-db/mysql/builder.go:214-219 | Count's scan loop, each row overwriting the count and a failed scan ending it; `CountRowsOutcome` states its result |
| Builder.Affected | multi-db/mysql/builder.go:183-185 | a failed Exec panics on the nil summary; otherwise the summary's affected-row count or its error |
| Builder.Query.Reset | multi-db/mysql/builder.go:632-635 | the cache is cleared and nothing else changes |
| Builder.Query.Limit | multi-db/mysql/builder.go:325-329 | only the limit fragment changes, to `LIMIT n`; the cache is cleared |
| Builder.Query.Offset | multi-db/mysql/builder.go:332-336 | only the offset fragment changes, to `OFFSET n`; the cache is cleared |
| Builder.Query.Where | multi-db/mysql/builder.go:339-373 | only the where fragment changes: ` WHERE (c)` first, ` AND (c)` appended later |
| Builder.Query.AndWhere | multi-db/mysql/builder.go:376-378 | the same as Where |
| Builder.Query.OrWhere | multi-db/mysql/builder.go:381-415 | only the where fragment changes: `WHERE (c)` first, ` OR (c)` appended later |
| Builder.Query.WhereIn | multi-db/mysql/builder.go:418-445 | an empty value string sets only LIMIT 0; otherwise `col IN (list)` is ANDed to where |
| Builder.Query.OrWhereIn | multi-db/mysql/builder.go:448-476 | an empty value string sets only LIMIT 0; otherwise one `)` is dropped and ` OR col IN (list))` appended |
| Builder.Query.InnerJoin | multi-db/mysql/builder.go:478-498 | only the join fragment changes: `INNER JOIN t ON cond` appended after a space |
| Builder.Query.LeftJoin | multi-db/mysql/builder.go:499-519 | the same with `LEFT JOIN` |
| Builder.Query.RightJoin | multi-db/mysql/builder.go:520-540 | the same with `RIGHT JOIN` |
| Builder.Query.FullJoin | multi-db/mysql/builder.go:541-561 | the same with `FULL OUTER JOIN` |
| Builder.Query.AddJoinClause | multi-db/mysql/builder.go:478-561 | the body the four join setters share: only the join fragment changes, to the old fragment and the new clause separated by a space, and the cache is cleared |
| Builder.Query.Order | multi-db/mysql/builder.go:564-573 | only the order fragment changes: `ORDER BY s`, or nothing for an empty s |
| Builder.Query.Group | multi-db/mysql/builder.go:576-584 | only the group fragment changes: `GROUP BY s`, or nothing |
| Builder.Query.Having | multi-db/mysql/builder.go:587-595 | only the having fragment changes: `HAVING s`, or nothing |
| Builder.Query.From | multi-db/mysql/builder.go:598-602 | only the From override changes |
| Builder.Query.Select | multi-db/mysql/builder.go:605-609 | only the select list changes, to the fields given |
| Builder.Query.AddSelect | multi-db/mysql/builder.go:612-618 | the fields are appended to the select list, in order |
| Builder.Query.UpdateSql | multi-db/mysql/builder.go:621-625 | only the update template changes |
| Builder.Query.ResetSelect | multi-db/mysql/builder.go:626-629 | the select list is emptied and the cached statement is kept |
| Builder.Query.ReplaceArgPlaceholders | multi-db/mysql/builder.go:651-656 | one `?` per argument replaced by `?`: the statement is unchanged |
| Builder.Query.SelectClause | multi-db/mysql/builder.go:297-309 | the base clause of the query's fragments |
| Builder.Query.Assembled | multi-db/mysql/builder.go:310 | the eight pieces separated by single spaces |
| Builder.Query.Build | multi-db/mysql/builder.go:310-317 | the cache holds the rendering of the fragments, which are unchanged |
| Builder.Query.QueryString | multi-db/mysql/builder.go:295-322 | returns the cached statement or the fresh rendering, and caches it, so a second call returns the same text |
| Builder.Query.ExecResult | multi-db/mysql/builder.go:231-234 | the rendered statement is executed with the bound arguments |
| Builder.Query.Rows | multi-db/mysql/builder.go:237-240 | the rendered statement is queried with the bound arguments |
| Builder.Query.Results | multi-db/mysql/builder.go:259-279 | a failed query or column fetch is reported with no rows; otherwise the rows scanned before the first failure |
| Builder.Query.ResultsSimple | multi-db/mysql/builder.go:281-292 | the cursor and the column names, or the query or column error |
| Builder.Query.FirstResult | multi-db/mysql/builder.go:243-256 | limit is set to 1 and the first row of that query is returned |
| Builder.Query.Count | multi-db/mysql/builder.go:200-227 | the count query has the COUNT select and no order; on success the select list and the order are restored and the cache cleared; on failure the count form stays |
| Builder.Query.UpdateAll | multi-db/mysql/builder.go:176-186 | update becomes `UPDATE <tbl> SET <list>`, the SET values are bound before the old arguments, and a failed exec panics in RowsAffected |
| Builder.Query.Update | multi-db/mysql/builder.go:171-173 | the same as UpdateAll |
| Builder.Query.DeleteAll | multi-db/mysql/builder.go:189-197 | `DELETE FROM <tbl>` becomes the select list and the statement is executed |
| Builder.Query.Insert | multi-db/mysql/builder.go:110-121 | the INSERT for the sorted keys runs through the insert transaction with the values in the same order |
| Builder.Query.InsertObject | multi-db/mysql/builder.go:124-158 | the same for the parameter map of the record |
| Builder.DeleteAllStatement | multi-db/mysql/builder.go:189-190 | on a fresh query the delete renders as ``SELECT DELETE FROM `<tbl>` FROM `<tbl>`;`` |
| Builder.CountStatement | multi-db/mysql/builder.go:203-204 | on a fresh query the count renders as ``SELECT SELECT COUNT(`<pk>`) FROM `<tbl>` FROM `<tbl>`;`` |
| Builder.WhereIdScenario | multi-db/mysql/builder.go:339-373 | a fresh query on `t` with Where("id", "=", 5) returns ``SELECT `t`.* FROM `t`  WHERE (id=5);`` |

## Left out

- I/O: preparing, querying, executing, beginning and committing are a driver oracle passed to each executing method. `stmt.Close`, `rows.Close` and the `defer`s are not modelled.
- The package variables `mysqlConDb1`, `mysqlConDb2` and `DbConnection` are fields of a `Connections` object. `sql.Open`, `Ping` and the data source names in `multi-db/mysql/init.go` are not modelled.
- The copy script `multi-db/handle/mutil-db.go` is not part of this model.
- The type-assertion panics of the setters (`param.(string)` on a non-string, an `int64` third argument to `OrWhere`, a non-string join argument) and of `reflect` are preconditions, and so is the `db[0]` index panic of `New` called with no database name (`Builder.Query.New` requires a non-empty `db`; every call in the repository passes one). They are not modelled as panics.
- Go's `interface{}` values are a `Value` datatype of the kinds the code inspects. A Go string is the sequence of Unicode code points it decodes to; a `[]byte` is a sequence of characters below 256, one per byte.
- Mapping.Normalize: models `string(v.([]byte))` in ScanRow byte for character, without UTF-8 decoding, so it agrees with Go only on ASCII text columns.
- Floating point is opaque text. `fmt.Sprint` of a float in Where/OrWhere, `strconv.ParseFloat` in SetData and `Float()` in InsertObject keep the printed text.
- Mapping.Convert: does not model ParseFloat failing on a float64 field (Go then stores 0), because floats are opaque text.
- Mapping.SetData: models `mapstructure.Decode` as the converted map laid over the record's field map. It does not narrow integers to the field's width or reject mismatched kinds, because that is the behaviour of a foreign library.
- Builder.Query.Results: does not model `rows.Next` stopping early on a driver error. The oracle's row list is the rows `Next` yields.
- The text of the Go error messages is abstracted into the `Error` datatype. Each variant names the failing step and carries the driver's message or the rendered query.
- Debug printing and the unconditional `fmt.Println` in `QueryString` are output only and are not modelled.
- Setters do not return the query for chaining. Each is a method on the object, and chaining is successive calls.
- Insert does not roll back a transaction whose exec failed, and neither does the model. The transaction is left open, as in the source.
