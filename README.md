# Aggregations endpoint of the sensor data service

This project models the handler of `GET /api/v1/aggregations` and `GET /api/v1/aggregations.:format` in Dafny. The handler reads a bucket width (`resolution`, e.g. `20m`), a time window `[from, before)`, a selection (`each.sources`, a comma-separated list of source ids, or `over.city`), an operator and a comma-separated list of `fields`. It then proceeds in stages:

- It checks the parameters, in a fixed order.
- It builds one parameterised rollup query. The SQL text names each field only by its ordinal.
- It renames the ordinal columns of the result rows back to the field names.
- It answers in one of two forms:
  - CSV, where the `timestamp` column comes first and every row's Date is written as an ISO string;
  - JSON, with `prev`/`next` links to the windows of the same length just before and just after the request.

Modules, in pipeline order:

- `Wrappers`: `Option` and `Result`.
- `JsStrings`: the JavaScript string behaviour the handler relies on:
  - `parseInt(s, 10)`;
  - `s.split(',')`;
  - the decimal rendering of an index;
  - how an array is indexed by a property key (`fieldMap["1"]`).
- `JsObjects`: the JavaScript objects involved:
  - objects as property lists in creation order, with `o[k]` and `o[k] = v`;
  - the order in which `_.keys`/`Object.keys` list an object's keys: array-index keys in ascending numeric order, then the other keys in creation order;
  - Dates, with the ±8.64e15 ms time-value range;
  - `toISOString`, which throws on an Invalid Date.
- `Resolution`: `parseResolution`.
- `Validation`: the request, `MAX_RESPONSE_COUNT`, the four checks and their 400 errors.
- `QueryBuilder`: the query, in these parts:
  - the replacement names;
  - the SQL text as a token sequence of fixed fragments, column aliases and `:name` replacements;
  - the loop that fills `fieldNames`, `fieldSelectors`, `fieldMap` and `subs`;
  - the choice between the sources and city branches.
- `Renaming`: the per-row key renaming and the map over the result rows.
- `Csv`: the CSV side:
  - the header arithmetic;
  - the per-row timestamp rewriting;
  - the writer, as a class that records its lines;
  - the write loop.
- `Pagination`: the prev/next windows and their ISO strings.
- `Aggregations`: the whole handler in two forms, both taking the abstract collaborators in an `Env`:
  - as a function `Handle`;
  - as a method `Get`, which runs the stages step by step and is proved equal to `Handle`.

Three behaviours of the code are easy to miss:

- **Both selections.** A request that gives both `each.sources` and `over.city` is accepted, and the sources branch is taken. See `Validation.BothSelectionsAccepted` and `QueryBuilder.SourcesBranchWins`.
- **CSV column order.** The CSV headers put the other columns (`source` or `city`) before the requested fields. See `Csv.CsvHeaders` and `Csv.TypicalHeaders`.
- **Negative resolutions.** A negative resolution such as `-5m` (−300 s) passes the truthiness check. Only a missing, unparsable or zero resolution is refused. See `Resolution.SignedExamples`.

## Model

| member | source | states |
|---|---|---|
| JsStrings.Decimal | lib/controllers/aggregations.js:47 | the rendering of an ordinal is a non-empty digit string with no leading zero |
| JsStrings.DecimalRoundTrip | lib/controllers/aggregations.js:125-127 | reading the digits of a rendered ordinal gives the ordinal back |
| JsStrings.DecimalInjective | lib/controllers/aggregations.js:125-127 | two ordinals with the same rendering are equal, so `field<i>` keys never collide |
| JsStrings.ArrayIndexOfDecimal | lib/controllers/aggregations.js:176 | the column key "i" indexes element i of `fieldMap` |
| JsStrings.ArrayIndexIsDecimal | lib/controllers/aggregations.js:176 | every key that indexes an element of `fieldMap` is the rendering of that index |
| JsStrings.ArrayIndex | lib/controllers/aggregations.js:176 | defined as the element a string key denotes on an array: a canonical numeral (digits, no leading zero) denotes its value, any other key none; characterized by `ArrayIndexOfDecimal` and `ArrayIndexIsDecimal` |
| JsStrings.IsJsWhitespace | lib/controllers/aggregations.js:23 | defined as the characters `parseInt` skips: JavaScript's WhiteSpace and LineTerminator code points |
| JsStrings.ParseInt | lib/controllers/aggregations.js:23 | defined as `parseInt(s, 10)`: skip whitespace, read one optional sign, then the longest digit run, NaN when it is empty; characterized by `ParseIntOfDecimal` and `ParseIntWithoutDigits` |
| JsStrings.TrimStart | lib/controllers/aggregations.js:23 | after skipping, parseInt's input does not start with whitespace |
| JsStrings.DigitPrefix | lib/controllers/aggregations.js:23 | the digit run parseInt reads is a prefix of digits maximal in its input |
| JsStrings.ParseIntOfDecimal | lib/controllers/aggregations.js:23 | parseInt reads back a number written behind whitespace and a sign, and ignores the non-digit text after it |
| JsStrings.ParseIntWithoutDigits | lib/controllers/aggregations.js:23-26 | with no digit after whitespace and sign, parseInt gives NaN |
| JsStrings.Split | lib/controllers/aggregations.js:70-89 | `split(',')` gives at least one piece, and no piece contains a comma |
| JsStrings.JoinSplit | lib/controllers/aggregations.js:70-89 | joining the pieces with commas gives back the split string |
| JsStrings.SplitJoin | lib/controllers/aggregations.js:70-89 | splitting a comma-join of comma-free pieces gives back the pieces |
| JsObjects.TimeClip | lib/controllers/aggregations.js:217-222 | `new Date(t)` is valid exactly when t is within ±8.64e15 ms, and then has time value t |
| JsObjects.IsoString | lib/controllers/aggregations.js:217-222 | `toISOString` gives the formatter's string just when the Date is valid, and throws otherwise |
| JsObjects.Keys | lib/controllers/aggregations.js:174-181 | the object's keys in the order its properties were created, one per property |
| JsObjects.OwnKeys | lib/controllers/aggregations.js:190 | `Object.keys` lists exactly the object's keys |
| JsObjects.OwnKeysOrder | lib/controllers/aggregations.js:175 | `_.keys` lists the array-index keys first, in ascending numeric order, then the other keys in creation order |
| JsObjects.OwnKeysDistinct | lib/controllers/aggregations.js:175 | an object with unique keys lists each of them exactly once |
| JsObjects.SortIndexKeysSorted | lib/controllers/aggregations.js:175 | the array-index keys are put in ascending numeric order, and none is repeated |
| JsObjects.Enumerate | lib/controllers/aggregations.js:175-182 | the properties visited are as many as the keys listed, and in their order |
| JsObjects.EnumerateAt | lib/controllers/aggregations.js:175-182 | the k-th property visited is the object's property named by the k-th listed key |
| JsObjects.EnumerateSpec | lib/controllers/aggregations.js:175-182 | the visit reorders the object's properties: each one is visited exactly once, with its value |
| JsObjects.Lookup | lib/controllers/aggregations.js:176-181 | `o[k]` is undefined exactly when k is no key, and is otherwise the value of a property named k |
| JsObjects.Put | lib/controllers/aggregations.js:176-181 | `o[k] = v` replaces the value in place when k exists, and otherwise appends the property |
| JsObjects.PutLookup | lib/controllers/aggregations.js:176-181 | after `o[k] = v`, `o[k]` is v and every other key reads as before |
| JsObjects.PutKeepsDistinctKeys | lib/controllers/aggregations.js:176-181 | an assignment keeps keys unique; it keeps the key list, or appends the new key |
| Resolution.ParseResolution | lib/controllers/aggregations.js:13-45 | defined as `parseResolution`: undefined passes through, length ≤ 1 is null, the last letter picks the unit and `parseInt` of the rest the count; characterized by `ResolutionCharacterized` |
| Resolution.UnitSeconds | lib/controllers/aggregations.js:24-42 | defined as the unit letters `s`, `m`, `h` and their 1, 60 and 3600 seconds; any other letter is no unit |
| Resolution.ResolutionCharacterized | lib/controllers/aggregations.js:13-45 | accepted iff longer than one character, ending in s/m/h, with parseInt on the rest giving a number; the value is that number times 1, 60 or 3600 |
| Resolution.ResolutionOfCount | lib/controllers/aggregations.js:19-42 | a signed decimal count, perhaps followed by non-digit text, then a unit letter, gives count times the unit's seconds |
| Resolution.ResolutionRejected | lib/controllers/aggregations.js:24-44 | with length ≤ 1, an unknown unit, or no number before the unit, the result is null |
| Resolution.CountThenUnit | lib/controllers/aggregations.js:19-42 | an unsigned count directly followed by `s`, `m` or `h` gives the count times 1, 60 or 3600 |
| Resolution.AcceptedExamples | lib/controllers/aggregations.js:12-45 | `20m` is 1200, `1h` is 3600, `45s` is 45 |
| Resolution.SignedExamples | lib/controllers/aggregations.js:23-27 | `-5m` is −300 and `0m` is 0 |
| Resolution.RejectedExamples | lib/controllers/aggregations.js:13-45 | `abc`, `""`, `10` and `m` are null, and undefined passes through |
| Validation.Truthy | lib/controllers/aggregations.js:70-97 | defined as JavaScript truthiness of a query parameter: defined and not the empty string |
| Validation.MaximumResponseCount | lib/controllers/aggregations.js:101-107 | the range check is asked about `MAX_RESPONSE_COUNT` (1000, line 10), and the RangeError message writes 1000 out in decimal |
| Validation.SelectionGiven | lib/controllers/aggregations.js:74 | defined as the negation of `!sources && !city`: either selection is truthy; used by `Validate`'s contract |
| Validation.FieldsGiven | lib/controllers/aggregations.js:82 | defined as `fields` being truthy; used by `Validate`'s contract |
| Validation.ResolutionGiven | lib/controllers/aggregations.js:91-97 | defined as `parseResolution` giving a number other than 0, so a missing, unparsable or zero resolution is refused; used by `Validate`'s contract |
| Validation.RangeAccepted | lib/controllers/aggregations.js:99-103 | defined as `util.validTimeRangeLength` on from, before and the resolution with the maximum 1000; used by `Validate`'s contract and `MaximumResponseCount` |
| Validation.Validate | lib/controllers/aggregations.js:57-109 | missing selection, missing fields, falsy resolution and range refused, each error given iff the earlier checks pass and that one fails; success iff all four pass |
| Validation.ValidatedParams | lib/controllers/aggregations.js:57-89 | passed parameters carry the split fields (non-empty, rejoining to the parameter), the non-zero resolution, the split sources, `over.city` as given (truthy when no sources), `mean` by default, csv iff format is `csv` |
| Validation.LaterParametersIgnored | lib/controllers/aggregations.js:74-97 | once a check fails, the parameters read by later checks cannot change the error |
| Validation.BothSelectionsAccepted | lib/controllers/aggregations.js:70-80 | a request with both each.sources and over.city passes the selection check |
| QueryBuilder.BaseSubs | lib/controllers/aggregations.js:114-120 | defined as the replacements every query starts with: resolution, from, before, the field list and the operator |
| QueryBuilder.WithFields | lib/controllers/aggregations.js:127 | defined as `subs['field' + i] = fields[i]` for each ordinal in turn; characterized by `WithFieldsSpec` |
| QueryBuilder.Selector | lib/controllers/aggregations.js:47 | defined as the template's tokens: the `float8(rollup.data->>` text, the `:field<i>` replacement and the `"<i>"` alias; rendered by `SelectorText` |
| QueryBuilder.JoinSelectors | lib/controllers/aggregations.js:137 | defined as `fieldSelectors.join(', ')`, over tokens |
| QueryBuilder.Head | lib/controllers/aggregations.js:134-152 | defined as the SQL text before the selectors in each branch |
| QueryBuilder.Tail | lib/controllers/aggregations.js:138-161 | defined as the SQL text after the selectors in each branch, with its `:name` replacements where the code writes them |
| QueryBuilder.QueryTokens | lib/controllers/aggregations.js:134-161 | defined as head, joined selectors, tail; `TextIndependentOfValues` and `ReplacementsBound` are about it |
| QueryBuilder.BranchOf | lib/controllers/aggregations.js:132-170 | defined as `if (sources) … else if (city) … else 500`; `SourcesBranchWins` shows the last case cannot happen after validation |
| QueryBuilder.BranchSubs | lib/controllers/aggregations.js:114-149 | defined as the base replacements, the field entries and the branch's `sources` or `city`; characterized by `BranchSubsKeys`, `BranchSubsFields` and `BranchSubsValues` |
| QueryBuilder.NameText | lib/controllers/aggregations.js:114-149 | defined as the `subs` property names: `resolution`, `from`, `before`, `fields`, `op`, `sources`, `city` and `field<i>`; characterized by `NameTextInjective` and `FieldTextNotNamed` |
| QueryBuilder.FragmentText | lib/controllers/aggregations.js:134-163 | defined as the SQL string literals of both branches and of the selector template, character for character; used by `SelectorText` |
| QueryBuilder.Render | lib/controllers/aggregations.js:134-163 | defined as the concatenation that gives the text sequelize receives: literals as written, each replacement as `:name`, each alias as `) AS "<i>"`; characterized by `SelectorText` |
| QueryBuilder.NameTextInjective | lib/controllers/aggregations.js:114-127 | distinct replacement names are distinct `subs` keys |
| QueryBuilder.FieldTextNotNamed | lib/controllers/aggregations.js:114-127 | no `field<i>` key overwrites a fixed entry of `subs` |
| QueryBuilder.SelectorText | lib/controllers/aggregations.js:47 | selector i is `float8(rollup.data->>:field<i>) AS "<i>"` |
| QueryBuilder.Selectors | lib/controllers/aggregations.js:126 | after n fields, `fieldSelectors` holds the selectors of ordinals 0 to n−1, in order |
| QueryBuilder.FieldNames | lib/controllers/aggregations.js:125 | after n fields, `fieldNames` is `:field0` to `:field<n-1>` |
| QueryBuilder.WithFieldsSpec | lib/controllers/aggregations.js:127 | after the loop, `subs['field'+i]` is `fields[i]`, the other entries are kept, and no other key is added |
| QueryBuilder.MapFields | lib/controllers/aggregations.js:111-129 | `fieldNames` and `fieldSelectors` have one entry per field in ordinal order; `fieldMap` is `fields`; `subs` gains exactly the field entries |
| QueryBuilder.BuildQuery | lib/controllers/aggregations.js:131-170 | a query is built iff a branch applies, and its text is the branch's text for the number of fields |
| QueryBuilder.BranchSubsKeys | lib/controllers/aggregations.js:114-149 | `subs` holds the five base names, the branch's selection, and one `field<i>` per field, and nothing else |
| QueryBuilder.ReplacementsBound | lib/controllers/aggregations.js:134-163 | every `:name` in the SQL text has a value in `subs` |
| QueryBuilder.TextIndependentOfValues | lib/controllers/aggregations.js:131-163 | the SQL text depends only on the branch and the number of fields, not on any field name, source id, city or other value |
| QueryBuilder.BranchSubsFields | lib/controllers/aggregations.js:127-149 | field i's name reaches the query only as the value of `subs['field'+i]` |
| QueryBuilder.BranchSubsValues | lib/controllers/aggregations.js:114-149 | `subs` binds resolution, from, before, the field list, the operator and the sources list or the city |
| QueryBuilder.QuerySubs | lib/controllers/aggregations.js:133-163 | the query carries the replacements of the branch it takes |
| QueryBuilder.SourcesBranchWins | lib/controllers/aggregations.js:132-149 | a passed request takes the sources branch iff each.sources is given, and otherwise the city branch; the 500 branch is unreachable |
| Renaming.NewKey | lib/controllers/aggregations.js:176-181 | defined as `fieldMap[key]`, or `key` when that is falsy: the field name when the key denotes an element of `fieldMap` with a non-empty name, else the key; characterized by `OrdinalRenamed` and `OtherKeysKept` |
| Renaming.RenameWith | lib/controllers/aggregations.js:174-183 | defined as the assignments `out[rename(key)] = value` for the visited properties in turn, starting from `{}`; characterized by `RenamedRowContents`, `RenamedRowDistinct`, `LastRenamedWins` and `RenamedKeysKeepPlace` |
| Renaming.RenamedRow | lib/controllers/aggregations.js:174-183 | defined as `RenameWith` with `NewKey` over the properties in `_.keys` order |
| Renaming.RenamedRows | lib/controllers/aggregations.js:173-184 | one renamed row per result row, in order |
| Renaming.RenameRow | lib/controllers/aggregations.js:174-183 | the `forEach` over the keys builds the renamed row |
| Renaming.RenameRows | lib/controllers/aggregations.js:173-184 | the map over the results builds the renamed rows |
| Renaming.OrdinalRenamed | lib/controllers/aggregations.js:176-181 | column "i" is renamed to `fields[i]`, unless that name is empty |
| Renaming.OtherKeysKept | lib/controllers/aggregations.js:176-181 | a key that does not index `fieldMap` keeps its name |
| Renaming.NamedColumnsKept | lib/controllers/aggregations.js:176-181 | `timestamp`, `source` and `city` are never renamed |
| Renaming.RenamedRowDistinct | lib/controllers/aggregations.js:174-183 | a renamed row has each key at most once |
| Renaming.RenamedRowContents | lib/controllers/aggregations.js:174-183 | without collisions, the renamed row has the renamed keys in row order, each with its own column's value |
| Renaming.CollisionLaterWins | lib/controllers/aggregations.js:176-181 | for a row of two columns given the same name, `out` holds that one key with the second column's value |
| Renaming.LastRenamedWins | lib/controllers/aggregations.js:175-182 | in any row, a renamed key ends with the value of the last column visited that is renamed to it |
| Renaming.RenamedKeysKeepPlace | lib/controllers/aggregations.js:175-182 | the keys of `out` after any number of visited columns are a prefix of its final keys, so a later assignment never moves a key from where its first column put it |
| Renaming.OrdinalsListedFirst | lib/controllers/aggregations.js:175 | for a row created as `{source, timestamp, "0".."n-1"}`, `_.keys` lists `"0".."n-1"`, then `source`, `timestamp` |
| Renaming.TypicalEnumerate | lib/controllers/aggregations.js:175-182 | such a row is visited ordinals first, then `source` and `timestamp` |
| Renaming.TypicalKeysDistinct | lib/controllers/aggregations.js:173-184 | such a row has each key at most once |
| Renaming.TypicalEnumerationRenamed | lib/controllers/aggregations.js:175-182 | renaming that visit renames the ordinals to the fields, keeps the named columns, and keeps each value at its place |
| Renaming.TypicalRowRenamed | lib/controllers/aggregations.js:173-184 | `{source, timestamp, "0".."n-1"}` becomes `{fields..., source, timestamp}`, each field holding its ordinal's value |
| Renaming.TimestampFieldShadowed | lib/controllers/aggregations.js:175-182 | with `fields=timestamp`, the row `{source, timestamp: Date, "0": 1}` ends with the row's Date under `timestamp`, since "0" is visited first |
| Csv.Difference | lib/controllers/aggregations.js:196-197 | `_.difference` keeps exactly the elements not removed |
| Csv.DifferenceOfDisjoint | lib/controllers/aggregations.js:196-197 | removing absent elements changes nothing |
| Csv.DifferenceAppend | lib/controllers/aggregations.js:196-197 | the difference distributes over concatenation |
| Csv.DifferenceOfContained | lib/controllers/aggregations.js:196-197 | removing a superset leaves nothing |
| Csv.CsvHeaders | lib/controllers/aggregations.js:190-199 | headers are `timestamp`, the first row's other keys not among the fields, then the fields in request order |
| Csv.EmptyResultHeaders | lib/controllers/aggregations.js:190-199 | with no rows the headers are `timestamp` and the fields |
| Csv.TypicalHeaders | lib/controllers/aggregations.js:190-199 | for a `{fields..., column, timestamp}` row the headers are `timestamp`, the column, the fields |
| Csv.StampRow | lib/controllers/aggregations.js:208 | defined as `item.timestamp = item.timestamp.toISOString()`, None where that throws; characterized by `StampRowSpec` |
| Csv.TryMap | lib/controllers/aggregations.js:207-210 | a loop body applied to each row in order stops at the first failure; a success has one result per row; characterized by `TryMapSpec` |
| Csv.StampAll | lib/controllers/aggregations.js:207-210 | the stamped rows of `chained.forEach`, or None when one throws; a success has one row per input row; characterized by `StampAllSpec` |
| Csv.StampRowSpec | lib/controllers/aggregations.js:208 | a row stamps iff its timestamp is a valid Date; only `timestamp` changes, to the ISO string, in place |
| Csv.TryMapSpec | lib/controllers/aggregations.js:207-210 | a loop that may throw maps all rows iff each row maps, and then maps each row on its own |
| Csv.StampAllSpec | lib/controllers/aggregations.js:207-210 | all rows stamp iff each one does, and then each is stamped on its own |
| Csv.StampAllPrefix | lib/controllers/aggregations.js:207-210 | one row that throws fails the whole CSV |
| Csv.Line | lib/controllers/aggregations.js:201-209 | a written line holds the row's value under each header, in header order |
| Csv.Lines | lib/controllers/aggregations.js:207-210 | one line per row, in order |
| Csv.CsvWriter.constructor | lib/controllers/aggregations.js:201-204 | the writer starts with its headers, no lines, and open |
| Csv.CsvWriter.Write | lib/controllers/aggregations.js:209 | the row's line is appended |
| Csv.CsvWriter.End | lib/controllers/aggregations.js:211 | the writer is ended, and its lines are unchanged |
| Csv.EmitCsv | lib/controllers/aggregations.js:206-211 | succeeds iff every row stamps; the writer then holds the stamped rows' lines and is ended; otherwise it stays open, holding the lines of the rows before the first one that throws |
| Pagination.Prev | lib/controllers/aggregations.js:216-219 | defined as the window `[2·from − before, from)` of the `prev` link; `NeighboursAdjacent` and `PrevNextRoundTrip` are about it |
| Pagination.Next | lib/controllers/aggregations.js:220-223 | defined as the window `[before, 2·before − from)` of the `next` link; `NeighboursAdjacent` and `PrevNextRoundTrip` are about it |
| Pagination.Links | lib/controllers/aggregations.js:214-224 | defined as the ISO strings of both windows, or None when a `toISOString` throws; characterized by `LinksDefined` |
| Pagination.Reflect | lib/controllers/aggregations.js:217-222 | `new Date(2a−b)` is valid iff both Dates are and 2a−b is in range, and then lies as far past a as a lies past b |
| Pagination.RangeStrings | lib/controllers/aggregations.js:216-223 | a link's `{from, before}` strings exist iff both ends are valid |
| Pagination.LinksDefined | lib/controllers/aggregations.js:214-224 | the links exist iff the request window and both neighbouring windows are valid |
| Pagination.NeighboursAdjacent | lib/controllers/aggregations.js:216-223 | prev ends at `from`, next starts at `before`, and both are as long as the request |
| Pagination.PrevNextRoundTrip | lib/controllers/aggregations.js:216-223 | next of prev, and prev of next, is the request window |
| Pagination.PrevNWindows | lib/controllers/aggregations.js:216-219 | following prev k times reaches `[from − k·d, before − k·d)` |
| Pagination.HourExample | lib/controllers/aggregations.js:216-223 | for the first hour of 2024 the links name the hours before and after |
| Pagination.InvalidWindowNoLinks | lib/controllers/aggregations.js:214-224 | an Invalid Date end leaves no links (a 500) |
| Aggregations.Handle | lib/controllers/aggregations.js:56-232 | defined as the handler's outcome: the 400 of the first failing check, else the built query and then a 500 on rejection, else the CSV or JSON answer; `Get` is proved equal to it |
| Aggregations.CsvResponse | lib/controllers/aggregations.js:186-211 | defined as the headers from the first renamed row's `Object.keys` (or `{}`) and one line per stamped row, or a 500 when a row throws; characterized by `CsvAnswer` |
| Aggregations.JsonResponse | lib/controllers/aggregations.js:212-227 | defined as `{links: {prev, next}, data}` with the links resolved by `util.resolveQuery`, or a 500 when a `toISOString` throws; characterized by `JsonAnswer` |
| Aggregations.Get | lib/controllers/aggregations.js:56-232 | the step-by-step handler gives the outcome `Handle` specifies |
| Aggregations.RejectedRequestSendsNoQuery | lib/controllers/aggregations.js:74-109 | a request that fails a check gets its 400 and sends no query |
| Aggregations.AcceptedRequestSendsOneQuery | lib/controllers/aggregations.js:74-170 | a 400 is given iff a check fails; a passed request sends exactly its built query |
| Aggregations.JsonAnswer | lib/controllers/aggregations.js:212-227 | the JSON body is the renamed rows, one per result row, with links resolved for the prev and next windows |
| Aggregations.CsvAnswer | lib/controllers/aggregations.js:186-211 | CSV iff every row stamps, else 500; `timestamp` first and fields last; one line per result row with its stamped values |
| Aggregations.EmptyResultAnswer | lib/controllers/aggregations.js:186-227 | an empty result gives CSV headers `timestamp` and the fields with no lines, or JSON with no rows |
| Aggregations.DatabaseFailureAnswer | lib/controllers/aggregations.js:229-232 | a rejected query is a 500 after the one query |

## Left out

- The SQL the database runs is not modelled: `rollup_pick`, `rollup_agg`, bucket truncation, the `LATERAL`/`unnest` fan-out. The database is the parameter `Env.db`, which maps a query to its rows, or to None when the promise rejects.
- Promise plumbing and `logfmt` are not modelled. Nothing runs concurrently here. The `.catch` is modelled only as its outcome: a 500 whenever the query rejects or a `toISOString` throws.
- Express `req`/`res` and `csv-write-stream` are not modelled: no status-line order, no piping, no CSV quoting or byte encoding. `CsvWriter` records the lines written, each as the row's values under the headers.
- Partial CSV output is left out. When a row's `toISOString` throws, the earlier rows have been written to the CSV stream, which is piped to the response, and the `.catch` then calls `res.sendStatus(500)`. Whether any of that output reaches the client before the 500 depends on Node's stream scheduling, which is not part of this model. The model answers `InternalError`, and `EmitCsv` leaves the writer open with the earlier lines in it.
- How the writer behaves when it gets no rows (whether it writes a header line at all) belongs to `csv-write-stream` and is not modelled.
- `new Date(string)` parsing is an input: the request carries `from` and `before` as Dates.
- `toISOString` formatting is the parameter `Env.iso`. It is applied only to valid time values, because an Invalid Date throws.
- `util.validTimeRangeLength` and `util.resolveQuery` are the parameters `Env.validRange` and `Env.resolveQuery`. Their bodies are in `lib/util.js`, which is not part of this model.
- `JsObjects.Put` treats `__proto__` as an ordinary key. In JavaScript, `out["__proto__"] = v` calls the inherited setter and creates no own property, so a column or field named `__proto__` would not appear in the renamed row; the model appends it. `JsObjects.Lookup` likewise does not read inherited properties.
- The database's rows are taken to have their columns created in the order of the query's select list. How `pg` builds the row objects is not part of this model.
- `Renaming.NewKey` does not treat inherited array properties as `fieldMap` hits. A column named like an `Array.prototype` member (`length`, `constructor`) would be renamed to that property's value when it is truthy; the model keeps such keys unchanged.
- Query parameters given more than once, which Express turns into arrays, are not modelled: each parameter is an optional string.
- `Resolution.ParseResolution` works on unbounded integers. It does not model `parseInt` losing precision above 2^53 or overflowing to Infinity for very long digit runs.
- Strings are sequences of Dafny characters. UTF-16 surrogate pairs are not distinguished.
- `QueryBuilder.MapFields` computes `fieldNames` as the code does, but the code never uses the list afterwards; outside the loop's contract nothing is stated about it.
- `lib/controllers/sources.js` is not modelled: token checking and thin database wrappers. `lib/routes.js` is not modelled either: it only maps the two routes to the handler. Its `.:format` suffix accepts any value; only `csv` selects the CSV answer, and every other suffix gives JSON (see `Validation.ValidatedParams`).
