# Sports match odds: a Dafny model of the match API and the prediction UI

The application lists sports matches and lets a user record the probability that the
home team wins. It has two sides:

- **Back end.** An Express API answers `GET /api/matches` (filtered and paged), `GET
  /api/matches/:id`, `GET /api/matches/sport/:sportName` and `GET
  /api/matches/status/:status`. Its `Match` model turns the filters into SQL for SQLite,
  and `validation.ts` checks the query parameters. There are also test-database helpers
  (`database.ts`), which run batches of statements and seed fixed rows, and a set of mock
  reference data (`mockData.ts`).
- **Front end.** A React client filters and sorts the match list (`filters.ts`). It keeps
  predictions in a context provider that persists them to storage. Each match is shown as
  a card with three-letter team codes and a sport badge, and a dialog edits the two
  probabilities.

The project models this core in Dafny, one module per source file:

| module | file | source |
|---|---|---|
| `Validation` | `validation.dfy` | `backend/src/utils/validation.ts` |
| `MatchModel` | `match.dfy` | `backend/src/models/Match.ts` |
| `MatchRoutes` | `routes.dfy` | `backend/src/routes/matches.ts` |
| `TestDatabase` | `database.dfy` | `backend/src/utils/database.ts` |
| `MockData` | `mockdata.dfy` | `backend/src/data/mockData.ts` |
| `ClientFilters` | `filters.dfy` | `frontend/src/lib/filters.ts` |
| `Predictions` | `predictions.dfy` | `frontend/src/components/predictions-provider.tsx` |
| `PredictionFormState` | `prediction_form.dfy` | `frontend/src/components/prediction-form.tsx` |
| `MatchCard` | `match_card.dfy` | `frontend/src/components/match-card.tsx` |

Three support modules sit beside them:

- `Js` (`js.dfy`) models the part of the JavaScript runtime the logic relies on. This
  covers `any` values and truthiness, `parseInt` and `parseFloat` (sections 18.2.5 and
  18.2.4 of ECMA-262), `String(n)` for integers with its switch to exponent notation at
  10^21, `trim`, ASCII case mapping, `split(" ")`, `join`, `includes` and `filter`.
- `Sorting` (`sorting.dfy`) is a stable sort by key, the reference for `Array.prototype.sort`
  and for SQL `ORDER BY`.
- `Wrappers` (`wrappers.dfy`) holds `Option`.

The form of each module follows its source:

- Pure code (validators, query builders, filters, lookups) becomes functions and lemmas.
- Code that builds a list by pushing onto an array becomes a method proved against a
  specification function.
  - `validateMatchFilters` and the condition and parameter lists of `getAllMatches` are
    straight-line sequences of conditional pushes. `Validation.ValidateMatchFilters` and
    `MatchModel.BuildConditions` push in the same order, and their `ensures` tie the
    result to `FilterErrors` and to `Conditions`/`ConditionParams`.
  - `clearTables`, `seedData` and `seedTestData` loop over their tables and rows, and so
    do their methods, with loop invariants.
- State that React or a callback closure updates in place becomes a class:
  - `Predictions.PredictionsProvider` holds the prediction map, the loaded flag and the
    maps written to storage.
  - `PredictionFormState.PredictionForm` holds the dialog's value, error and loading
    flag.
  - `TestDatabase.CompletionLatch` holds the counters shared by the `db.run` callbacks.

Database answers and asynchronous events are parameters. These include the rows a query
resolves with, the errors the callbacks report and the order they arrive in, the stored
map a load returns, and the clock bounds of today and this week.

## Model

| member | source | states |
|---|---|---|
| Validation.ValidateMatchFilters | backend/src/utils/validation.ts:6-35 | the errors are `FilterErrors(f)`, one message per broken rule in rule order, and `isValid` holds exactly when there are none |
| Validation.FilterErrorsMeaning | backend/src/utils/validation.ts:9-29 | each of the four messages is reported exactly when its rule is broken, at most once, in the order sport, status, limit, offset, and no other message appears |
| Validation.FilterErrorsEmpty | backend/src/utils/validation.ts:31-34 | no error is reported exactly when all four rules hold |
| Validation.FilterMessagesDistinct | backend/src/utils/validation.ts:10-27 | the four filter messages are pairwise different, so the error list tells which rules failed |
| Validation.PickedMembership | backend/src/utils/validation.ts:9-29 | the four conditional pushes add a message exactly for each broken rule |
| Validation.PickedOrder | backend/src/utils/validation.ts:9-29 | the pushed messages come in rule order, without repetition |
| Validation.LimitRuleOnIntegers | backend/src/utils/validation.ts:17-22 | an integer limit below 10^21 in magnitude is accepted exactly when it is in 1..100 |
| Validation.OffsetRuleOnIntegers | backend/src/utils/validation.ts:24-29 | an integer offset below 10^21 in magnitude is accepted exactly when it is not negative |
| Validation.ValidLimitPositive | backend/src/utils/validation.ts:17-22 | every numeric limit that passes validation is at least 1, whatever its size |
| Validation.HugeNegativeLimitRefused | backend/src/utils/validation.ts:17-22 | a limit of -10^21 or less is refused, because `parseInt` reads a negative leading digit |
| Validation.ValidOffsetNonNegative | backend/src/utils/validation.ts:24-29 | every numeric offset that passes validation is at least 0, whatever its size |
| Validation.HugeNegativeOffsetRefused | backend/src/utils/validation.ts:24-29 | an offset of -10^21 or less is refused |
| Validation.ValidateId | backend/src/utils/validation.ts:37-49 | the id is accepted exactly when `parseInt` reads a positive integer from it; otherwise the one error is the id message |
| Validation.IdAcceptedOnIntegers | backend/src/utils/validation.ts:39-43 | an integer id below 10^21 in magnitude is accepted exactly when it is positive |
| Validation.IdAcceptedOnDecimalText | backend/src/utils/validation.ts:39-43 | the decimal text of an integer is accepted exactly when the integer is positive |
| Validation.IdRefusesNonNumericText | backend/src/utils/validation.ts:39-43 | text starting with an ASCII letter, lower- or upper-case, is refused |
| Validation.ValidateSportName | backend/src/utils/validation.ts:51-66 | the empty-name error appears exactly for a missing, non-string or blank name; the length error exactly for a string longer than 50; emptiness comes first |
| Validation.SportNameErrorsMeaning | backend/src/utils/validation.ts:54-60 | each sport-name message is present exactly when its own rule is broken, in rule order |
| Validation.SportNameMessagesDistinct | backend/src/utils/validation.ts:55-59 | the two sport-name messages differ |
| Validation.SportNameErrorsTogether | backend/src/utils/validation.ts:54-60 | the two rules are independent: 51 spaces break both |
| Validation.RemoveAngleBrackets | backend/src/utils/validation.ts:69 | the result holds no angle bracket and only the input's characters, and every other character occurs in it exactly as often as in the input |
| Validation.RemoveAngleBracketsAppend | backend/src/utils/validation.ts:69 | removal works character by character: the text of `a + b` loses its brackets as `a` and `b` do, so the kept characters stay in order |
| Validation.RemoveAngleBracketsOfChar | backend/src/utils/validation.ts:69 | a single character is dropped exactly when it is `<` or `>` |
| Validation.SanitizeString | backend/src/utils/validation.ts:68-70 | the result holds no angle bracket, is no longer than the input, and holds every other character of the trimmed input exactly as often |
| Validation.SanitizeOfPadded | backend/src/utils/validation.ts:68-70 | text padded with white space comes back as the text between the padding with its brackets removed |
| Js.TrimOfPadded | backend/src/utils/validation.ts:54 | `trim` drops exactly the white-space padding around a text that neither starts nor ends with white space |
| Validation.SanitizeKeepsCleanText | backend/src/utils/validation.ts:68-70 | trimmed text without angle brackets comes back unchanged |
| Validation.RemoveAngleBracketsKeeps | backend/src/utils/validation.ts:69 | text without angle brackets is left as it is |
| Validation.ParseIntSafely | backend/src/utils/validation.ts:72-75 | the parsed integer when `parseInt` finds one, the default otherwise |
| Validation.ParseIntSafelyOfDecimal | backend/src/utils/validation.ts:72-75 | the decimal text of an integer reads back as that integer, whatever the default |
| Validation.HugeLimitPasses | backend/src/utils/validation.ts:17-22 | finding: every limit of 10^21 or more passes the rule as written |
| Validation.IntendedLimitAgrees | backend/src/utils/validation.ts:17-22 | the intended rule agrees with the written one on every value except numbers of magnitude 10^21 or more |
| MatchModel.BuildConditions | backend/src/models/Match.ts:50-61 | the pushed conditions and parameters are the rendered `Conditions(f)` and `ConditionParams(f)`: sport before status, each only when given |
| MatchModel.AppendPage | backend/src/models/Match.ts:69-77 | LIMIT is appended with its value for a truthy limit, OFFSET only inside it for a truthy offset |
| MatchModel.BuildListQuery | backend/src/models/Match.ts:27-88 | the SQL text and parameters are those of `ListQuery(f)` and `ListParams(f)` |
| MatchModel.BuildCountQuery | backend/src/models/Match.ts:133-168 | the count text and parameters are those of `CountQuery(f)` and `ConditionParams(f)` |
| MatchModel.ListQueryRendered | backend/src/models/Match.ts:63-77 | the list text is the select, WHERE with the conditions joined by AND, ORDER BY date, then LIMIT/OFFSET |
| MatchModel.ConditionsRendered | backend/src/models/Match.ts:50-61 | the conditions render as `LOWER(s.name) = LOWER(?)` and `m.status = ?` |
| MatchModel.WhereRendered | backend/src/models/Match.ts:63-65 | WHERE appears only with conditions, and carries one placeholder per condition |
| MatchModel.PageRendered | backend/src/models/Match.ts:69-77 | the paging text carries one placeholder per paging parameter |
| MatchModel.ListPlaceholdersMatchParams | backend/src/models/Match.ts:27-88 | the list query binds exactly one value per `?` |
| MatchModel.CountPlaceholdersMatchParams | backend/src/models/Match.ts:133-168 | the count query binds exactly one value per `?` |
| MatchModel.ParamsInFilterOrder | backend/src/models/Match.ts:50-77 | the parameters are sport, status, limit, offset, each present exactly when its clause is emitted |
| MatchModel.OffsetNeedsLimit | backend/src/models/Match.ts:69-77 | without a truthy limit the offset reaches neither the text nor the parameters |
| MatchModel.CountQueryMirrorsList | backend/src/models/Match.ts:133-168 | the count query has the list query's conditions and parameters and ignores limit and offset |
| MatchModel.TeamAndDateIgnored | backend/src/models/Match.ts:27-88 | the `team` and `date` filters change neither query |
| MatchModel.WhereOnlyWithFilters | backend/src/models/Match.ts:63-65 | WHERE is emitted exactly when a sport or status filter is given |
| MatchModel.LexLeIsTotalOrder | backend/src/models/Match.ts:67 | the text order of `ORDER BY m.match_date` is a total order |
| MatchModel.Filtered | backend/src/models/Match.ts:50-61 | the rows kept are exactly the table rows that meet the conditions |
| MatchModel.Page | backend/src/models/Match.ts:69-77 | LIMIT/OFFSET take a contiguous slice after the skipped rows, of `min(limit, rest)` rows, or everything without a limit |
| MatchModel.ListAnswerExists | backend/src/models/Match.ts:27-88 | every filter with numeric paging has an answer: a page of the sorted matching rows |
| MatchModel.ListAnswerRows | backend/src/models/Match.ts:27-88 | an answer holds only matching rows of the table, in ascending date order |
| MatchModel.ListAnswerSize | backend/src/models/Match.ts:69-77 | without a limit the answer is all matching rows; with a positive limit it has `min(limit, rest)` rows |
| MatchModel.MatchById | backend/src/models/Match.ts:90-123 | nothing exactly when no row has the id; otherwise a table row with that id |
| MatchModel.MatchesBySport | backend/src/models/Match.ts:125-127 | the rows are exactly those whose sport name equals the asked one up to ASCII case |
| MatchModel.MatchesByStatus | backend/src/models/Match.ts:129-131 | the rows are exactly those with that status |
| MatchRoutes.AsValue | backend/src/routes/matches.ts:11-14 | a query parameter is a string when present and `undefined` when absent |
| MatchRoutes.PagingDefaults | backend/src/routes/matches.ts:15-16 | absent or empty paging parameters become 10 and 0; a decimal numeral becomes its integer |
| MatchRoutes.ListMatches | backend/src/routes/matches.ts:19-49 | the list route: 400 with the validator's errors exactly when there are any, 500 exactly when a model call rejects, else the model's rows and count, with `hasMore` exactly when `offset + rows sent < total` |
| MatchRoutes.ListStatusCodes | backend/src/routes/matches.ts:19-49 | 400 with the validator's errors exactly when a filter rule is broken; otherwise 500 when a model call rejects, else 200 |
| MatchRoutes.ListPage | backend/src/routes/matches.ts:29-41 | a 200 holds a page of the matching rows in date order, `total` is the count and `hasMore` holds exactly when rows remain after the page |
| MatchRoutes.ValidListPaging | backend/src/routes/matches.ts:15-26 | once validated, the paging parameters are a number limit of at least 1 and a number offset of at least 0 |
| MatchRoutes.PageArithmetic | backend/src/routes/matches.ts:39 | `offset + length < total` is the same as `offset + limit < total` for a full or final page |
| MatchRoutes.RequestedId | backend/src/routes/matches.ts:55 | `parseInt` of the path parameter is an integer or NaN |
| MatchRoutes.MatchByIdRoute | backend/src/routes/matches.ts:53-87 | the item route: 400 exactly when `validateId` refuses the parsed id; a match sent is the one the lookup found; 500 exactly when an accepted lookup rejects |
| MatchRoutes.LookupResponse | backend/src/routes/matches.ts:66-78 | after the id check: 404 exactly for no row, the row for a found one, 500 exactly for a rejected lookup, never 400 |
| MatchRoutes.MatchByIdAnswers | backend/src/routes/matches.ts:53-87 | an accepted id is looked up as that integer: 404 exactly when no row has it, else 200 with that row |
| MatchRoutes.LookupAnswers | backend/src/routes/matches.ts:66-78 | 404 "Match not found" for no row and 200 with the row otherwise |
| MatchRoutes.MatchByIdOnDecimal | backend/src/routes/matches.ts:53-87 | on a decimal id: 400 below 1, a lookup of that very id otherwise |
| MatchRoutes.IdAcceptedOnIntegersOrLarge | backend/src/routes/matches.ts:55-64 | an integer id is accepted exactly when it is positive, at any size |
| MatchRoutes.SportRoute | backend/src/routes/matches.ts:90-115 | the sport route as written: 500 exactly when the query rejects, else all fetched rows, no total, and `hasMore` exactly when the row count equals the limit |
| MatchRoutes.StatusRoute | backend/src/routes/matches.ts:118-150 | the status route as written: 400 exactly for a status outside the three, 500 exactly when the query rejects, else all fetched rows with `hasMore` exactly when their count equals the limit |
| MatchRoutes.SportRouteRows | backend/src/routes/matches.ts:90-115 | the sport route sends exactly the rows of the sport, whatever the case of its name, in date order |
| MatchRoutes.StatusRouteRows | backend/src/routes/matches.ts:118-150 | 400 for a status outside the three, before any query; otherwise every row with that status |
| MatchRoutes.SportHasMoreAsWritten | backend/src/routes/matches.ts:104 | finding: with no limit parameter every row of the sport is sent, yet `hasMore` holds for exactly 10 rows and fails for more than 10 |
| MatchRoutes.SportRoutePaged | backend/src/routes/matches.ts:90-115 | the sport route paged: rows and total are the model's answers and `hasMore` holds exactly when `offset + rows sent < total` |
| MatchRoutes.SportRoutePagedHasMore | backend/src/routes/matches.ts:90-115 | paged, the sport route sends at most `limit` rows and `hasMore` holds exactly when rows remain |
| MatchRoutes.StatusHasMoreAsWritten | backend/src/routes/matches.ts:139 | finding: with no limit parameter every row with the status is sent, yet `hasMore` holds for exactly 10 rows and fails for more than 10 |
| MatchRoutes.StatusRoutePaged | backend/src/routes/matches.ts:118-150 | the status route paged: the same 400 for other statuses; rows and total are the model's answers and `hasMore` holds exactly when `offset + rows sent < total` |
| MatchRoutes.StatusRoutePagedHasMore | backend/src/routes/matches.ts:118-150 | paged, the status route still refuses other statuses, sends at most `limit` rows with the status, and `hasMore` holds exactly when rows remain |
| TestDatabase.Resolve | backend/src/utils/database.ts:44 | a promise keeps the first value it is resolved with |
| TestDatabase.FirstError | backend/src/utils/database.ts:56-59 | the error of the earliest callback that reported one, none when all succeeded |
| TestDatabase.Step | backend/src/utils/database.ts:54-66 | one callback: an error latches `hasError` without counting, success counts; a settled promise stays settled; a first settlement is the error or, at the last statement, success |
| TestDatabase.Run | backend/src/utils/database.ts:54-66 | after the callbacks: `hasError` holds exactly when one of them failed, and no more than the callbacks are counted |
| TestDatabase.RunState | backend/src/utils/database.ts:54-66 | after a prefix of callbacks: an error settles the promise with the first error; otherwise it settles with success only once all have arrived |
| TestDatabase.SettledOnce | backend/src/utils/database.ts:56-64 | once settled, later callbacks never change the outcome |
| TestDatabase.SuccessIgnoresOrder | backend/src/utils/database.ts:54-66 | whether every callback succeeded does not depend on the order they arrive in |
| TestDatabase.RunSuccessIgnoresOrder | backend/src/utils/database.ts:54-66 | once all callbacks of a batch have arrived the promise has settled, with success exactly when none failed, whatever their order |
| TestDatabase.CompletionLatch.constructor | backend/src/utils/database.ts:45-47 | a latch over `total` statements with no callback yet |
| TestDatabase.CompletionLatch.Callback | backend/src/utils/database.ts:55-65 | the latch moves by one step of the callback, and its state is that of the callbacks so far |
| TestDatabase.ExecuteQueries | backend/src/utils/database.ts:43-69 | success exactly when no statement failed, and the error is the first one reported |
| TestDatabase.Settle | backend/src/utils/database.ts:49-66 | the latch fed with every callback settles with the first error or with success |
| TestDatabase.ClearTables | backend/src/utils/database.ts:123-135 | a DELETE per table in order, then a sequence reset per table, run as one batch |
| TestDatabase.ColumnsValuesRoundTrip | backend/src/utils/database.ts:100-104 | one `?` per column, and columns zipped with values give the row back |
| TestDatabase.InsertPosition | backend/src/utils/database.ts:98-106 | row j of table t is issued as statement number (rows before table t) + j |
| TestDatabase.SeedData | backend/src/utils/database.ts:83-121 | one INSERT per row, table by table; success exactly when no insert failed |
| TestDatabase.LiteralInsert | backend/src/utils/database.ts:316-322 | the statement starts `INSERT OR IGNORE INTO <table> (` and ends with the closing parenthesis of its values; its middle is stated by the next two lemmas |
| TestDatabase.LiteralInsertMirrorsRowInsert | backend/src/utils/database.ts:316-322 | the literal INSERT shares the table and column list (the row's keys in order) with the parameterised INSERT of `seedData` (database.ts:101-104); it adds `OR IGNORE` and puts the literals where the `?` marks were |
| TestDatabase.LiteralsMirrorValues | backend/src/utils/database.ts:319 | there is one literal per bound value, and each is the literal of the value bound at that place |
| TestDatabase.LiteralReadsBack | backend/src/utils/database.ts:320 | a string literal is the string between quotes, and a number's literal reads back as that number |
| TestDatabase.FirstFailing | backend/src/utils/database.ts:325-328 | the first table whose batch reported an error |
| TestDatabase.SeedTestData | backend/src/utils/database.ts:313-351 | tables are seeded in order, stopping at the first failing batch with its error; a failing count query rejects |
| TestDatabase.Field | backend/src/utils/database.ts:210-241 | a row has a value for a key exactly when the key is one of its columns, and it is the value of the first entry with that key |
| TestDatabase.SeedDataReferences | backend/src/utils/database.ts:210-241 | every seeded team names a seeded sport, and every seeded match names a seeded sport and two different seeded teams of that sport |
| TestDatabase.ClearOrderRespectsReferences | backend/src/utils/database.ts:243 | each table is cleared before every table it references by a foreign key, and every table is cleared |
| MockData.FindSport | backend/src/data/mockData.ts:203 | nothing exactly when no sport's name equals the asked one up to case; else such a sport |
| MockData.FindMatch | backend/src/data/mockData.ts:220-222 | nothing exactly when no match has the id; else a match with that id |
| MockData.SportDataInContents | backend/src/data/mockData.ts:202-214 | the sport found by name, with exactly its teams and exactly its matches, in table order |
| MockData.GetMockDataBySport | backend/src/data/mockData.ts:202-214 | nothing exactly when no mock sport has the name, ignoring case; otherwise a mock sport with that name |
| MockData.SportDataContents | backend/src/data/mockData.ts:202-214 | the same on the mock tables |
| MockData.GetMockMatchesByStatus | backend/src/data/mockData.ts:216-218 | only mock matches with that status, no more than the table holds |
| MockData.MatchesByStatusContents | backend/src/data/mockData.ts:216-218 | exactly the mock matches with that status, in table order |
| MockData.GetMockMatchById | backend/src/data/mockData.ts:220-222 | nothing exactly when no mock match has the id; otherwise a mock match with that id |
| MockData.MatchByIdRange | backend/src/data/mockData.ts:220-222 | ids 1 to 10 are found, as the row at that position; nothing else is |
| MockData.IdsAreUnique | backend/src/data/mockData.ts:36-194 | ids increase along each table, counting rows from 1 |
| MockData.ReferencesHold | backend/src/data/mockData.ts:69-194 | every team names a mock sport; every match names a mock sport and two different teams of that sport |
| MockData.AllScheduled | backend/src/data/mockData.ts:93-194 | every mock match is scheduled at 0-0, so the scheduled lookup returns all of them |
| MockData.OtherStatusesEmpty | backend/src/data/mockData.ts:216-218 | the other two statuses find nothing |
| MockData.TeamSport | backend/src/data/mockData.ts:69-84 | a team id names a team exactly when it is in 1..12, and then gives its sport |
| MockData.FilterKeepsOrder | backend/src/data/mockData.ts:204-213 | filtering keeps the kept rows in table order |
| ClientFilters.FilterMatches | frontend/src/lib/filters.ts:28-95 | the result is a permutation of the kept matches, sorted by the date key |
| ClientFilters.FilterMatchesContents | frontend/src/lib/filters.ts:28-95 | the result is a permutation of the kept matches: every kept match and nothing else |
| ClientFilters.FilterMatchesSorted | frontend/src/lib/filters.ts:76-94 | dated matches come first in ascending date order, undated ones last |
| ClientFilters.FilterMatchesStable | frontend/src/lib/filters.ts:76-94 | matches with equal dates, and all undated ones, keep their input order |
| ClientFilters.Compare | frontend/src/lib/filters.ts:76-94 | an undated match sorts after a dated one; two parsed dates compare as their times; an unparsable date compares equal to any dated match |
| ClientFilters.CompareAgreesWithKey | frontend/src/lib/filters.ts:76-94 | the comparator orders exactly as the key order, and is antisymmetric |
| ClientFilters.KeyLeIsTotalOrder | frontend/src/lib/filters.ts:76-94 | the key order is total |
| ClientFilters.UnparsableDropped | frontend/src/lib/filters.ts:40-52 | a date that does not parse drops the match under every range |
| ClientFilters.EmptyDateSkipsRange | frontend/src/lib/filters.ts:40 | an empty date is never tested against the range |
| ClientFilters.OtherRangesLikeAll | frontend/src/lib/filters.ts:54-62 | a range other than "today" and "week" filters like "all" |
| ClientFilters.SearchFindsWholeName | frontend/src/lib/filters.ts:65-72 | searching a team's whole name, in any ASCII case, keeps its matches |
| ClientFilters.NoFiltersKeepParsable | frontend/src/lib/filters.ts:28-95 | with no filter, every match whose date is empty or parses is kept |
| Predictions.SavePrediction | frontend/src/components/predictions-provider.tsx:35-40 | the id maps to the new pair, the keys gain the id, and every other pair is unchanged |
| Predictions.ClearPrediction | frontend/src/components/predictions-provider.tsx:42-48 | the id is gone, the keys lose only it, and every other pair is unchanged |
| Predictions.ClearAbsent | frontend/src/components/predictions-provider.tsx:42-48 | clearing an id without a prediction changes nothing |
| Predictions.SaveThenClear | frontend/src/components/predictions-provider.tsx:35-48 | saving a new id and clearing it restores the map |
| Predictions.SaveOverwrites | frontend/src/components/predictions-provider.tsx:35-40 | a second save for an id replaces the first |
| Predictions.PredictionsProvider.constructor | frontend/src/components/predictions-provider.tsx:20-21 | an empty map, not loaded, nothing written |
| Predictions.PredictionsProvider.Persist | frontend/src/components/predictions-provider.tsx:29-33 | the current map is written only once loaded |
| Predictions.PredictionsProvider.Load | frontend/src/components/predictions-provider.tsx:23-27 | the loaded map replaces the state and is written back; storage then holds the current map |
| Predictions.PredictionsProvider.Save | frontend/src/components/predictions-provider.tsx:35-40 | the map becomes `SavePrediction` of the old one and is written when loaded; storage keeps matching the map |
| Predictions.PredictionsProvider.Clear | frontend/src/components/predictions-provider.tsx:42-48 | the map becomes `ClearPrediction` of the old one and is written when loaded; storage keeps matching the map |
| Predictions.UsePredictions | frontend/src/components/predictions-provider.tsx:57-63 | the hook throws exactly when there is no provider, and otherwise returns its context |
| PredictionFormState.ReadTeamA | frontend/src/components/prediction-form.tsx:49-61 | not a number exactly when `parseFloat` fails; accepted exactly for a finite value in 0..100 |
| PredictionFormState.ReadWholeNumber | frontend/src/components/prediction-form.tsx:49-61 | a whole number's text is accepted as that number exactly when it is at most 100 |
| PredictionFormState.ReadNegativeNumber | frontend/src/components/prediction-form.tsx:55-58 | a negative number is out of range |
| PredictionFormState.SaveKeepsBalanced | frontend/src/components/prediction-form.tsx:79-83 | saving a pair in range that sums to 100 keeps every stored pair so |
| PredictionFormState.ClearKeepsBalanced | frontend/src/components/prediction-form.tsx:91-94 | clearing keeps every stored pair in range and summing to 100 |
| PredictionFormState.PredictionForm.Existing | frontend/src/components/prediction-form.tsx:32 | the stored pair for this match exactly when there is one |
| PredictionFormState.PredictionForm.constructor | frontend/src/components/prediction-form.tsx:34-38 | starts from the stored home value or 50, with no error and not loading |
| PredictionFormState.PredictionForm.OpenEffect | frontend/src/components/prediction-form.tsx:40-45 | an open dialog restarts from the stored home value or 50 with no error; a closed one is unchanged; the value is in range when the store is |
| PredictionFormState.PredictionForm.HandleTeamAChange | frontend/src/components/prediction-form.tsx:49-61 | an accepted number replaces the value and clears the error; otherwise the matching error is set and the value kept; the value stays in range |
| PredictionFormState.PredictionForm.HandleSliderChange | frontend/src/components/prediction-form.tsx:63-66 | the thumb's value replaces the home value and clears the error |
| PredictionFormState.PredictionForm.BeginSave | frontend/src/components/prediction-form.tsx:68-78 | out of range: the range error and nothing to save; else loading starts, the error clears and the pair (x, 100 - x) is captured |
| PredictionFormState.PredictionForm.FinishSave | frontend/src/components/prediction-form.tsx:79-88 | the captured pair is stored under this match and, once loaded, written to storage; the dialog closes and loading stops |
| PredictionFormState.PredictionForm.HandleClear | frontend/src/components/prediction-form.tsx:91-94 | the stored pair is removed and, once loaded, the store written to storage; Clear is no longer offered and the dialog closes |
| PredictionFormState.PredictionForm.SetOpen | frontend/src/components/prediction-form.tsx:20-30 | the parent's `onOpenChange` opens or closes the dialog and changes nothing else |
| PredictionFormState.SaveFromForm | frontend/src/components/prediction-form.tsx:68-89 | a value in range x stores (x, 100 - x), written to storage once loaded, and closes the dialog; any other value sets the range error and changes neither the store nor storage; every stored pair stays in range and sums to 100 |
| MatchCard.TeamCode | frontend/src/components/match-card.tsx:22-33 | a code has at most three characters |
| MatchCard.TeamCodeIsWordStarts | frontend/src/components/match-card.tsx:22-33 | a code is the first three word starts of the name, upper-cased |
| MatchCard.InitialsOfSegments | frontend/src/components/match-card.tsx:23-25 | joining the first characters of the `split(" ")` segments gives the first character of every word |
| MatchCard.TeamCodeCharacters | frontend/src/components/match-card.tsx:22-33 | each character of a code is the upper-cased first character of a word |
| MatchCard.SpacedWordsName | frontend/src/components/match-card.tsx:22-33 | words joined by single spaces give the upper-cased first letters of the first three words |
| MatchCard.WordStartsOfJoin | frontend/src/components/match-card.tsx:23-25 | the word starts of words joined by spaces are their first characters |
| MatchCard.LookupColor | frontend/src/components/match-card.tsx:35-40 | nothing exactly when the sport is not a key of the table; else that key's class |
| MatchCard.SportClass | frontend/src/components/match-card.tsx:47-51 | the badge class is the default or the class the table gives that very sport |
| MatchCard.DefaultOnlyOutsideTable | frontend/src/components/match-card.tsx:47-51 | the default class is given exactly to sports outside the table |
| MatchCard.ShowCard | frontend/src/components/match-card.tsx:20-158 | the Predicted badge and the odds appear exactly with a stored pair, scores only for completed matches, and the label says Edit or Make accordingly |
| MatchCard.SwappedTeamsSwapCodes | frontend/src/components/match-card.tsx:22-33 | swapping the teams swaps the codes |
| MatchCard.CardFollowsStore | frontend/src/components/match-card.tsx:56-158 | after a save the card shows the saved pair; after a clear it shows no badge and offers "Make Prediction" |
| Sorting.SortBySortsAndPermutes | frontend/src/lib/filters.ts:76-94 | the reference sort orders by key and is a permutation of its input |
| Sorting.SortByStable | frontend/src/lib/filters.ts:76-94 | the reference sort keeps the order of elements with equal keys |
| Js.ParseIntOfDecimal | backend/src/utils/validation.ts:72-75 | the decimal text of an integer reads back as that integer |
| Js.ParseIntOfNumber | backend/src/utils/validation.ts:18 | `parseInt(n)` is n below 10^21 in magnitude, and the signed leading digit from there on |
| Js.ParseIntValueReadsText | backend/src/utils/validation.ts:18 | `parseInt(v)` reads `String(v)` |
| Js.ParseFloatOfDecimal | frontend/src/components/prediction-form.tsx:50 | the decimal text of a natural number reads back as that number |
| Js.TrimIsSlice | backend/src/utils/validation.ts:54 | `trim` keeps a slice of the input that starts after its leading white space |
| Js.TrimEnds | backend/src/utils/validation.ts:54 | what `trim` keeps neither starts nor ends with white space |
| Js.TrimBlank | backend/src/utils/validation.ts:54 | `trim` leaves nothing exactly when the text is all white space |
| Js.SplitJoin | frontend/src/components/match-card.tsx:23 | joining the segments of `split(" ")` with " " gives the text back |
| Js.ToLower | frontend/src/lib/filters.ts:66-68 | same length, each character mapped by ASCII lower-casing |

## Left out

- Js.JsValue numbers are integers, NaN or `undefined`. Fractions, doubles beyond 2^53 and
  rounding are not modelled for query values and ids. `parseInt` of a fractional number
  and `parseFloat`'s rounding to a double are left out, as is the `radix` argument. The
  probabilities of `Predictions.Prediction` and `PredictionFormState` are exact reals, so
  their sums to 100 carry no floating-point rounding.
- Js.ParseFloat returns an exact real. Rounding to the nearest double is left out.
- Js.ToLower and Js.ToUpper map ASCII letters only. Unicode case mapping is left out.
  This matches SQLite's `LOWER`, but not JavaScript's `toLowerCase` on non-ASCII text.
- Js.ParseIntValue is defined case by case on the kind of value. `Js.ParseIntValueReadsText`
  proves that it reads `String(v)`.
- `isValidDate` (validation.ts:77-80) is left out. It needs `Date` parsing and the clock.
- Dates in the client filter are a `DateField`: empty, unparsable or an instant. `parseISO`,
  `isSameDay`, `startOfWeek` and the clock are parameters in `ClientFilters.Clock`.
- The filter drops a match whose date does not parse, whatever the range, even "all".
  The code does this; the model follows the code, not a reading in which "all" keeps
  every match.
- The sort gives an unparsable date the key of an undated match. The filter has already
  dropped such matches, so the sort never sees one.
- Arrays and objects as query values are left out: `JsValue.Obj` is one opaque value,
  and Express's repeated parameters (`?limit=1&limit=2`) are not modelled.
- SQL text is a sequence of text pieces and `?` marks. The model keeps the query's
  structure and placeholders, not its exact whitespace. `getMatchById` and the count
  query's joins are summarised as lookups over a table of joined rows.
- SQLite's order among rows with equal dates is not specified. `MatchModel.ListAnswer`
  accepts any ordering of ties.
- The `error instanceof Error ? message : 'Unknown error'` text of the 500 answers is not
  modelled; a rejection carries its message.
- Callback timing in `database.ts` is a parameter: the errors the callbacks report and the
  order in which they arrive. `createSchema`, `setupTestDatabase`, `dropTestDatabase`,
  `initializeTestDatabase` and `clearTestData` are I/O wrappers and are left out.
- TestDatabase.SeedTestData models only whether the three COUNT queries fail, not the
  counts they read.
- TestDatabase.LiteralInsert writes strings between single quotes without escaping, as the
  source does. The seed rows contain no quote, so this never matters for them.
- Object keys are kept in insertion order, as `Object.keys` gives them for the string keys
  the seed rows use.
- MockData: `generateMockUsers` and `getAllMockData` are left out. `createGameDate` reads
  the clock, so a match date is kept as its three arguments.
- MatchCard: date and time formatting and the `hsl` avatar hue from `charCodeAt` are left
  out.
- Validation.ValidateSportName: `name.length > 50` counts Unicode scalar values (Dafny
  `char`s), not UTF-16 code units as JavaScript does. A name outside the Basic
  Multilingual Plane, such as 26 copies of U+1F600, is 52 code units long in JavaScript
  and gets the length error, but the model sees 26 characters and reports none.
- MatchCard.TeamCode: `word[0]` and `slice(0, 3)` index and count Unicode scalar values,
  not UTF-16 code units. For a word that starts outside the Basic Multilingual Plane,
  JavaScript takes a lone surrogate where the model takes the whole character.
- Js: all string lengths, indexing and slicing count Unicode scalar values. They agree
  with JavaScript's UTF-16 code units on text inside the Basic Multilingual Plane.
- MatchCard.LookupColor: the table is a list of pairs. Inherited object keys such as
  `constructor` or `toString` are not modelled, though they would make `sportColors[name]`
  truthy.
- PredictionFormState.PredictionForm.BeginSave and FinishSave: `handleSave` is split at
  its 500 ms timer, and the timer itself is left out. The `catch` branch is unreachable,
  because the awaited timer never rejects and `savePrediction` does not throw.
- PredictionFormState.PredictionForm.HandleSliderChange: the slider's `min` 0 and `max`
  100 are a precondition, because the slider only reports values between them.
- React's batching of state updates and re-renders is not modelled. Each handler is one
  step, and the open effect is a method the caller runs.
- MatchModel.Page: a limit is an unbounded integer and is applied as it is. A limit of
  10^21 or more passes validation (see Findings) and reaches SQLite as a floating-point
  value, which SQLite would probably refuse as a datatype mismatch, so a 500. The model
  instead returns every remaining row. SQLite's 64-bit integer range is not modelled.
- Predictions.PredictionsProvider.Load: the stored map is loaded without a range check,
  as in the source. `AllBalanced` is therefore a property proved for saves and clears,
  not for whatever storage returns. Storage reads and writes are parameters and a log.

## Findings

| source | as written | input that shows it | evidently intended | confidence | as-written member | corrected member |
|---|---|---|---|---|---|---|
| backend/src/utils/validation.ts:17-22 | `parseInt(filters.limit)` reads `String(limit)`, which is in exponent form from 10^21 on, so only the leading digit is checked | a limit of 10^21: `parseInt` gives 1, which passes, and the huge number reaches the LIMIT clause | a numeric limit is checked as the number it is, so only 1..100 passes | not executed | `Validation.HugeLimitPasses` | `Validation.LimitRuleBrokenIntended`, with `Validation.IntendedLimitAgrees` and `Validation.IntendedLimitBounded` |
| backend/src/routes/matches.ts:104 | the sport route answers `hasMore: matches.length === limit` for a query that is not paged, so every row has already been sent | a sport with exactly 10 matches and no limit parameter: all 10 rows come back with `hasMore: true` | `hasMore` holds exactly when rows remain after the page sent | not executed | `MatchRoutes.SportHasMoreAsWritten` | `MatchRoutes.SportRoutePaged`, with `MatchRoutes.SportRoutePagedHasMore` |
| backend/src/routes/matches.ts:139 | the status route answers `hasMore: matches.length === limit` for a query that is not paged, so every row has already been sent | a status with exactly 10 matches and no limit parameter: all 10 rows come back with `hasMore: true` | `hasMore` holds exactly when rows remain after the page sent | not executed | `MatchRoutes.StatusHasMoreAsWritten` | `MatchRoutes.StatusRoutePaged`, with `MatchRoutes.StatusRoutePagedHasMore` |

`MatchRoutes.SportRoute` and `MatchRoutes.StatusRoute` keep the behaviour as written. The
corrected definitions stand beside them.
