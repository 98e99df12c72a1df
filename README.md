# Garmin golf export: the CSV flattening engine in Dafny

This project models the part of the Garmin Connect golf exporter that turns
the JSON returned by Garmin's golf API into CSV text, and proves properties
of that model.

The engine exists in three near-duplicate copies, and each is modelled as it
behaves:

- the inline converters and download loops of `content-script.js`;
- the converters of `src/utils/csvConverter.js`;
- the converters and download loops of `src/services/scorecardService.js`
  and `src/services/shotDataService.js`.

Two smaller pure pieces are modelled as well: the date stamp and file name of
`src/utils/dateUtils.js`, and the recursive token search `findTokensInObject`
with the storage-key test of `header-capture.js`.

Modules:

- `JsValue` covers the JavaScript values the code handles and the JavaScript
  behaviour it relies on:
  - truthiness and `||`;
  - property reads that throw on `undefined`/`null`;
  - `forEach` and `for…of` only on what has them;
  - sloppy- and strict-mode property writes;
  - `String()` and `Array.prototype.join`, with `undefined` and `null`
    rendered empty.
- `Runtime` holds everything the code reads from the browser, passed in as
  uninterpreted inputs:
  - local-date getters;
  - `toISOString`;
  - `toFixed(1)` of the yard distance;
  - settled `fetch` responses.
- `Csv` holds the escaping rule, the two file layouts and a reader used to
  state what a file reads back as. The layouts are: every row ended by LF,
  or rows joined by LF.
- `Fill` holds the `forEach` loop that fills a lookup table in place.
- `SummaryCsv`, `DetailCsv` and `ShotCsv` with `ShotWalk` are the converters
  of `csvConverter.js`. `content-script.js` repeats the summary and detail
  converters with the same behaviour, so they are shared.
- `ContentScript` holds the three downloads of `content-script.js`: their
  lookup tables, the skip-on-failure round loop and the inline shot-row
  builder.
- `ScorecardService` and `ShotDataService` hold the two services.
- `DateUtils` holds `formatDate` and `generateDateStampedFilename`.
- `HeaderCapture` holds `findTokensInObject` and the storage-key test.

The copies differ in ways the model keeps:

- Stats precedence: the inline and `csvConverter.js` detail converters test
  truthiness, and `scorecardService.js` tests `!== undefined`.
- The stats object: the inline and `csvConverter.js` converters read
  `scorecardStats`, and `scorecardService.js` reads `scoreCardStats`.
- Line endings: `content-script.js` and `csvConverter.js` end every row with a
  line feed. The services join rows with one, so their output has no final
  line feed.
- An unmapped club: it gives `''` inline and `'Unknown'` in
  `shotDataService.js`.
- Hole columns: `Array(18).flatMap` in `scorecardService.js` visits no slot, so
  that converter has no hole columns and no hole values.
- The club-type table: `content-script.js` calls `forEach` on the club-type
  response body itself and discards `clubTypes || []`.
- A round the course table lacks: its first shot throws inline at
  `courseInfoMap[id].courseName`, but not in `csvConverter.js`, which receives
  the entry itself.

Each download is modelled as its `try` block. An exception is a `Throw`
result, which the `catch` turns into `return false` (inline) or rethrows
(services). A finished download is an `Export` of the CSV text and the file
name.

## Model

| member | source | states |
|---|---|---|
| `Csv.EscapeChangesIff` | src/utils/csvConverter.js:4-9 | escaping changes a value exactly when it is a string containing a comma or a quote |
| `Csv.EscapeQuoted` | src/utils/csvConverter.js:5-6 | such a string becomes a quote, the string with every quote doubled, and a quote |
| `Csv.EscapeUnquoted` | src/utils/csvConverter.js:8 | a string with no comma and no quote is returned unchanged |
| `Csv.EscapeAll` | content-script.js:193-195 | escaping a row keeps its length and escapes each value in place |
| `Csv.UndoubleDouble` | src/utils/csvConverter.js:6 | collapsing doubled quotes undoes the doubling |
| `Csv.EscapeRoundTrip` | src/utils/csvConverter.js:4-9 | stripping the outer quotes and collapsing doubled quotes gives any escaped string back |
| `Csv.ParseFieldCell` | src/utils/csvConverter.js:4-9 | an escaped safe value read as a CSV field gives the value's text and leaves the rest of the line |
| `Csv.ParseEscapedRow` | src/utils/csvConverter.js:37 | a line of escaped safe values joined by commas reads back as one field per value, in order |
| `Csv.ParseHeader` | src/utils/csvConverter.js:25 | a header of names without commas or quotes reads back as the names |
| `Csv.DocumentEmpty` | src/utils/csvConverter.js:25 | with no rows, both layouts are the header line and one line feed |
| `Csv.DocumentAppend` | src/utils/csvConverter.js:37 | `csv += row.join(',') + '\n'` appends the escaped row as the next line of the document |
| `Csv.BlockConcat` | content-script.js:748 | appending rows in two runs gives the same text as appending them in one |
| `Csv.SplitJoin` | src/services/scorecardService.js:60-63 | splitting pieces joined by a separator none of them contains gives the pieces back |
| `Csv.TerminatedLines` | src/utils/csvConverter.js:37-41 | a header and LF-terminated lines split into the header, the lines and one empty string |
| `Csv.SeparatedLines` | src/services/scorecardService.js:63 | a header and LF-joined lines split into the header and the lines, or into the header and an empty string when there are no lines |
| `Csv.ReadBackTerminated` | src/utils/csvConverter.js:25-41 | a file of LF-terminated rows of plain values reads back as the header names, one record per row holding the texts of its values, and an empty last line |
| `Csv.ReadBackSeparated` | src/services/scorecardService.js:60-63 | a file of LF-joined rows reads back as the header names and one record per row, with no empty last line unless there are no rows |
| `JsValue.Prop` | src/utils/csvConverter.js:98 | a property read throws exactly on `undefined` and `null` |
| `JsValue.ForEachItems` | src/utils/csvConverter.js:97 | `forEach` runs exactly on an array, over its elements |
| `JsValue.ForOfItems` | content-script.js:369 | `for…of` runs exactly on an array or a string |
| `JsValue.SetProp` | src/services/shotDataService.js:113 | a write throws exactly on `undefined`/`null`, or on a primitive in strict mode; on an object the property reads back as the written value and every other property is kept; an array or a sloppy-mode primitive is left as it is |
| `Csv.DoubleQuotes` | src/utils/csvConverter.js:6 | the result is longer by exactly the number of quotes, and a string without a quote is returned as it is |
| `Csv.DoubleQuotesCounts` | src/utils/csvConverter.js:6 | after doubling, every quote occurs twice as often, every other character as often, and the length grows by the number of quotes |
| `JsValue.SplitChars` | content-script.js:349 | `split('')` runs only on a string and gives one one-character string per character |
| `JsValue.ToLower` | header-capture.js:93 | lower-casing keeps the length and lowers each letter |
| `Fill.FillMap` | src/utils/csvConverter.js:102-107 | the in-place `forEach` fill of a fresh table gives the table the fold describes, or the exception an item raises |
| `Fill.FillOkIff` | src/utils/csvConverter.js:104-106 | the fill finishes exactly when every item can be read |
| `Fill.FillKeys` | src/utils/csvConverter.js:104-106 | a key is present after the fill exactly when it was before or some kept item has it |
| `Fill.FillUntouched` | src/utils/csvConverter.js:104-106 | a key no kept item has keeps its earlier value |
| `Fill.FillLast` | src/utils/csvConverter.js:104-106 | among kept items with the same key, the last one gives the value |
| `DateUtils.PadTwo` | src/utils/dateUtils.js:3 | a text of two or more characters is unchanged; a shorter one becomes exactly two characters, the text preceded by `0`s |
| `DateUtils.PadTwoDigits` | src/utils/dateUtils.js:3 | a two-digit component is unchanged, and a one-digit one gains one leading zero |
| `DateUtils.FormatDateReadsBack` | src/utils/dateUtils.js:2-4 | for a four-digit year, a month index 0-11 and a day 1-31, the stamp has ten characters with dashes at 4 and 7, and its parts read back as the year, the month counted from 1 and the day |
| `DateUtils.FormatDatePlain` | src/utils/dateUtils.js:2-4 | a date stamp, valid or not, contains no comma, quote or line feed |
| `DateUtils.DateStampedFilenameShape` | src/utils/dateUtils.js:7-10 | the file name is the prefix, `_`, the date stamp and `.csv` |
| `SummaryCsv.RawRow` | src/utils/csvConverter.js:30-36 | a summary row has the eight field values in field order, and reading it throws exactly when the summary is `undefined` or `null` |
| `SummaryCsv.Summaries` | src/utils/csvConverter.js:28 | reading the collection throws exactly when the input is `undefined` or `null` |
| `SummaryCsv.ConvertSummaryToCsv` | src/utils/csvConverter.js:12-42 | the converter returns the header line followed by one LF-terminated escaped row per summary, or the exception a summary raises |
| `SummaryCsv.WriteRows` | src/utils/csvConverter.js:29-38 | the row loop appends each summary's row in order, or stops at the first exception |
| `SummaryCsv.RawRowsIff` | src/utils/csvConverter.js:29-38 | all rows are built exactly when no summary is `undefined` or `null`, and row i is then summary i's |
| `SummaryCsv.NoSummaries` | content-script.js:80-100 | a missing, falsy or non-array collection gives the header line alone |
| `SummaryCsv.OutputThrowsIff` | src/utils/csvConverter.js:28-38 | the converter throws exactly when its input or one visited summary is `undefined` or `null` |
| `SummaryCsv.FieldText` | src/utils/csvConverter.js:31-34 | a falsy field shows empty, a truthy field its own text, and a truthy start or end time its date stamp |
| `SummaryCsv.FieldValuePlain` | src/utils/csvConverter.js:31-35 | a field whose value is plain gives a plain cell |
| `SummaryCsv.FieldsPlain` | src/utils/csvConverter.js:13-22 | the eight header names contain no comma, quote or line feed |
| `SummaryCsv.OutputReadsBack` | content-script.js:66-103 | the file reads back as the eight names, one eight-field record per summary in input order holding its cells' texts, and an empty last line |
| `DetailCsv.Grid` | src/utils/csvConverter.js:89-93 | the hole grid has six entries per hole slot |
| `DetailCsv.GridAt` | src/utils/csvConverter.js:89-93 | entry 6(n-1)+k of the grid belongs to hole slot n and hole field k |
| `DetailCsv.ScorecardCells` | src/utils/csvConverter.js:110-122 | the round part of a row has one value per round field |
| `DetailCsv.BuildHeader` | src/utils/csvConverter.js:88-94 | the header loop builds the round fields and then, slot by slot, the six `hole{n}_{field}` names |
| `DetailCsv.ScorecardRow` | content-script.js:176-196 | the `row.push` loop over the round fields pushes each resolved value escaped |
| `DetailCsv.HoleRow` | content-script.js:199-216 | the loops over the hole slots and hole fields push each hole value escaped |
| `DetailCsv.ConvertDetailedDataToCsv` | src/utils/csvConverter.js:45-142 | the converter returns the header line and one LF-terminated escaped row per round, or the exception a round raises |
| `DetailCsv.ColumnsShape` | content-script.js:153-159 | the header has 137 columns: the 29 round fields in order, then slot n's six columns at 29 + 6(n-1), named `hole{n}_{field}` |
| `DetailCsv.RawRowShape` | src/utils/csvConverter.js:97-139 | every row has 137 values, whatever holes are present; the value under `hole{n}_{field}` is slot n's field |
| `DetailCsv.HoleMapLookup` | content-script.js:169-174 | the hole map is keyed by the text of each hole's `number`, holds exactly the numbers present, and the last hole with a number wins |
| `DetailCsv.ScorecardPrecedence` | content-script.js:177-191 | `date` is the stamp of a truthy start time or empty, `courseName` is `sc.courseName`, then a truthy stats value beats the scorecard's own field, then `''` |
| `DetailCsv.HoleValueCases` | src/utils/csvConverter.js:125-136 | par comes from a truthy `holePars[n-1]` before the hole record; other fields come from the hole or are `''`; an empty slot shows `''` |
| `DetailCsv.RawRowsIff` | src/utils/csvConverter.js:97-139 | all rows are built exactly when every round is readable, and row i is then round i's |
| `DetailCsv.RowReadableIff` | src/utils/csvConverter.js:98-107 | a round yields a row exactly when it is not `undefined` or `null`, has a scorecard, and its holes list no `undefined` or `null` hole |
| `DetailCsv.OutputThrowsIff` | src/utils/csvConverter.js:97 | the converter throws exactly when its input is not an array or some round is unreadable |
| `DetailCsv.FieldsPlain` | src/utils/csvConverter.js:46-85 | the round and hole field names contain no comma, quote or line feed |
| `DetailCsv.ColumnsPlain` | src/utils/csvConverter.js:87-94 | no header name contains a comma, quote or line feed |
| `DetailCsv.OutputReadsBack` | src/utils/csvConverter.js:45-142 | the file reads back as the 137 names, one record per round in input order holding its values' texts, and an empty last line |
| `ShotWalk.ShotFieldsPlain` | src/utils/csvConverter.js:146-163 | the fourteen shot column names contain no comma, quote or line feed |
| `ShotWalk.ArrayIfTruthy` | src/utils/csvConverter.js:165 | an array (always truthy) gives its elements, and anything else gives no element |
| `ShotWalk.ConvertShotTime` | src/utils/csvConverter.js:211-213 | a truthy shot time becomes the ISO text of its parsed instant, or throws a RangeError for an invalid instant; other cells are unchanged |
| `ShotWalk.BuildRow` | content-script.js:697-747 | the loop over the columns pushes each cell escaped, or stops at the first exception |
| `ShotWalk.AppendShots` | content-script.js:694-749 | the loop over a hole's shots appends each shot's escaped row in order |
| `ShotWalk.AppendHoles` | content-script.js:688-752 | the loop over the holes reads each hole's number and score and appends its shots' rows |
| `ShotWalk.WriteShots` | src/utils/csvConverter.js:163-222 | the header line, then the rows of all holes when `holeShots` is a truthy array |
| `ShotWalk.ExtendLine` | src/utils/csvConverter.js:216 | appending a row's line adds that row to the rows the text holds |
| `ShotWalk.MapCellsIff` | src/utils/csvConverter.js:172-215 | a row is built exactly when every cell is, with one value per field in field order |
| `ShotWalk.MapCellsThrows` | src/utils/csvConverter.js:172-215 | a cell that throws makes its row throw |
| `ShotWalk.ShotRowsIff` | src/utils/csvConverter.js:170-217 | a hole yields rows exactly when each shot does, and row k is then shot k's |
| `ShotWalk.HolesRowsCount` | src/utils/csvConverter.js:165-220 | there is one row per shot over all holes that have a shot array |
| `ShotWalk.HolesRowsInOrder` | content-script.js:688-752 | the rows are the first hole's, then the second's, and so on; the walk finishes exactly when every hole's does |
| `ShotWalk.HoleWithoutShots` | src/utils/csvConverter.js:170 | a hole without a shot array contributes no row, whatever its score |
| `ShotWalk.ShotDocumentReadsBack` | src/utils/csvConverter.js:145-223 | a shot file reads back as the column names, then record i is the texts of row i of the walk (the holes' rows in hole and shot order), one field per column, then an empty last line |
| `ShotWalk.RowWidth` | src/utils/csvConverter.js:172-215 | every built row has one value per column |
| `ShotCsv.Holes` | src/utils/csvConverter.js:165 | reading `holeShots` throws exactly when the input is `undefined` or `null` |
| `ShotCsv.ConvertShotDataToCsv` | src/utils/csvConverter.js:145-223 | the converter returns the header line and one LF-terminated row per shot, built by the cell rules of the `switch` |
| `ShotCsv.CourseAndHoleCells` | src/utils/csvConverter.js:175-183 | the course column is `courseInfoMap.courseName`, the hole number and score those of the hole |
| `ShotCsv.ClubCell` | src/utils/csvConverter.js:184-186 | the club column is the looked-up name when truthy and `''` otherwise |
| `ShotCsv.YardsCell` | src/utils/csvConverter.js:187-189 | falsy meters give `''`, truthy meters their yard text |
| `ShotCsv.LocationCell` | src/utils/csvConverter.js:190-207 | a location column is the part of the location or `''`, and `''` when the location is missing |
| `ShotCsv.ShotTimeCell` | src/utils/csvConverter.js:208-213 | a falsy shot time gives `''`, a truthy one its ISO text or a RangeError |
| `ShotCsv.NullishShotThrows` | src/utils/csvConverter.js:171-215 | an `undefined` or `null` shot makes its row throw |
| `ShotCsv.ShotOrderThrows` | src/utils/csvConverter.js:208-209 | the default column reads the shot and throws on an `undefined` or `null` shot |
| `ShotCsv.NoHoleShots` | src/utils/csvConverter.js:163-165 | without a `holeShots` array the converter returns the header line alone |
| `ContentScript.Checked` | content-script.js:261-264 | a download goes on with a response's body exactly when the fetch settled and the response is ok |
| `ContentScript.InlineFilename` | content-script.js:277-278 | the inline file name equals `generateDateStampedFilename` of the same prefix and date |
| `ContentScript.RoundSummaries` | content-script.js:345 | `scorecardSummaries.forEach` runs exactly when the body is readable and lists an array |
| `ContentScript.CourseWithPars` | content-script.js:347-350 | the details entry holds the course name or `''`, and the pars split into characters or `[]`; it throws exactly for truthy non-string pars |
| `ContentScript.CourseOnly` | content-script.js:579-581 | the shot download's entry holds the course name or `''` |
| `ContentScript.ScorecardIds` | content-script.js:356 | the ids are the summaries' `id`s, one per summary, in order |
| `ContentScript.ReadRounds` | content-script.js:337-356 | the summary response is checked, the course table filled and the ids listed, or the first exception is raised |
| `ContentScript.DownloadSummaryData` | content-script.js:225-300 | without a token the download throws; otherwise it checks the response and exports the summary CSV under the dated name |
| `ContentScript.FetchDetails` | content-script.js:367-416 | the round loop passes over responses that are not ok, throws on a rejected fetch, and pushes each enriched record |
| `ContentScript.DownloadDetailsData` | content-script.js:303-456 | the details download builds the course table, collects the records and exports the detail CSV |
| `ContentScript.ReadHoleScores` | content-script.js:649-658 | `holeScores` is filled from `scorecardDetails[0]` when its scorecard and holes are truthy |
| `ContentScript.WalkRound` | content-script.js:685-752 | one round's walk extends the file by that round's shot rows |
| `ContentScript.AppendRound` | content-script.js:616-755 | one pass of the round loop adds no rows when either response is not ok, throws on a rejected fetch, and otherwise adds the round's rows |
| `ContentScript.WriteRounds` | content-script.js:612-755 | the round loop after the header extends the file by every round's rows in order |
| `ContentScript.ReadClubs` | content-script.js:491-542 | the club responses are checked and the two tables filled, giving the club-name table |
| `ContentScript.DownloadShotData` | content-script.js:459-792 | the shot download builds both tables and exports the header and every round's shot rows |
| `ContentScript.RoundsOfOkIff` | content-script.js:337-356 | the tables are built exactly when the response is ok, lists an array and every summary can be entered |
| `ContentScript.CourseTableKeys` | content-script.js:344-356 | there is one id per summary, and the course table has a key exactly when a summary with a truthy id has it |
| `ContentScript.CourseTableLast` | content-script.js:345-354 | of several summaries with the same id, the last gives the entry |
| `ContentScript.OkIds` | content-script.js:399-402 | every kept id has an ok detail response, and every id with an ok response is kept |
| `ContentScript.OkIdsSubset` | content-script.js:399-402 | every kept id is one of the ids |
| `ContentScript.OkIdsInOrder` | content-script.js:399-402 | the kept ids keep the ids' order: the kept ids of a first run of ids precede those of a second run |
| `ContentScript.OkIdsOne` | content-script.js:399-402 | a single id is kept exactly when its detail response is ok |
| `ContentScript.DetailRecordsOkIff` | content-script.js:369-416 | the loop finishes exactly when no fetch is rejected and every ok response yields a record |
| `ContentScript.DetailRecordsOfOkIds` | content-script.js:399-414 | there is one record per ok id, in id order, and the ids that are not ok leave no trace |
| `ContentScript.EnrichedJoin` | content-script.js:404-410 | a record gets the table's course name and pars when the table holds its id, and is `scorecardDetails[0]` unchanged otherwise |
| `ContentScript.MissingDetailThrows` | content-script.js:405-408 | when the course table holds the id, a missing `scorecardDetails[0]` makes the enrichment throw |
| `ContentScript.MissingDetailPassedOn` | content-script.js:405-410 | when the course table lacks the id, `scorecardDetails[0]` is pushed as it is, even when missing |
| `ContentScript.ClubTypesNeedArray` | content-script.js:499-503 | `forEach` runs on the club-type body itself, so a body that is not an array makes the shot download throw |
| `ContentScript.ClubTypeLast` | content-script.js:501-503 | with several club types of the same `value`, the last one's name is kept |
| `ContentScript.ClubNameComposed` | content-script.js:540-542 | a player club's id maps to its type's name, or to `'Unknown'` when no type has its `clubTypeId` |
| `ContentScript.ClubNameAbsent` | content-script.js:540-542 | an id no player club has is absent from the club table |
| `ContentScript.NoHoleScores` | content-script.js:653-658 | without a truthy scorecard with truthy holes, the hole scores are empty |
| `ContentScript.HoleScoreLast` | content-script.js:655-657 | a hole's score is the strokes of the last hole with its number, or `''` |
| `ContentScript.HoleScoreMissing` | content-script.js:691 | a hole number without a score gets `''` |
| `ContentScript.CourseCell` | content-script.js:700-702 | the course column is the round's table entry's name, and throws for a round the table lacks |
| `ContentScript.ClubCell` | content-script.js:709-711 | an unmapped club id gives `''`, a mapped one its truthy name |
| `ContentScript.LocationCell` | content-script.js:716-733 | a location column is the part of a truthy location as it is, and `''` for a missing location |
| `ContentScript.YardsCell` | content-script.js:712-715 | falsy meters give `''`, truthy meters their yard text |
| `ContentScript.RoundSkipped` | content-script.js:644-683 | a round whose detail or shot response is not ok contributes no rows |
| `ContentScript.RoundRejected` | content-script.js:626-683 | a rejected fetch of a round stops the download with a TypeError |
| `ContentScript.AllRoundRowsInOrder` | content-script.js:616-755 | the rows are the first round's, then the second's, and so on; the loop finishes exactly when every round does |
| `ScorecardService.SparseArray` | src/services/scorecardService.js:22 | `Array(n)` has n empty slots |
| `ScorecardService.FlatMapSparse` | src/services/scorecardService.js:22 | `flatMap` over `Array(n)` yields nothing, whatever the callback |
| `ScorecardService.FlatMapDense` | src/services/scorecardService.js:47-50 | `flatMap` over assigned slots yields m values per slot when the callback yields m |
| `ScorecardService.ColumnsNoHoles` | src/services/scorecardService.js:20-23 | the header columns are the sixteen round fields, with no hole column |
| `ScorecardService.BeforeT` | src/services/scorecardService.js:37 | `split('T')[0]` is the longest prefix without `T` |
| `ScorecardService.ScorecardValues` | src/services/scorecardService.js:34-44 | the round values are built exactly when the start time converts, one per field in field order |
| `ScorecardService.HoleSlot` | src/services/scorecardService.js:47-49 | the hole callback gives thirteen values for any slot element |
| `ScorecardService.HoleCallbackWidth` | src/services/scorecardService.js:47-50 | were every slot assigned, each would give thirteen values |
| `ScorecardService.HoleValuesEmpty` | src/services/scorecardService.js:47-50 | the rows hold no hole values at all, whatever the holes |
| `ScorecardService.ScorecardRow` | src/services/scorecardService.js:26-61 | the row callback, filling `holeMap` in place, gives the row the model describes |
| `ScorecardService.FetchDetails` | src/services/scorecardService.js:82-93 | the loop fetches and pushes each scorecard's detail body in order |
| `ScorecardService.DownloadScorecardData` | src/services/scorecardService.js:67-104 | the download reads `scorecards`, collects the details and exports their CSV under the dated name |
| `ScorecardService.RawRowIff` | src/services/scorecardService.js:26-61 | a scorecard yields a row exactly when its `holes` is an array without `undefined` or `null` holes and its start time converts; the row is its sixteen round values |
| `ScorecardService.RawRowsIff` | src/services/scorecardService.js:26 | all rows are built exactly when every scorecard's is, and row i is scorecard i's |
| `ScorecardService.DateValue` | src/services/scorecardService.js:36-37 | `date` is the ISO text up to its first `T`; an `undefined` start time throws a RangeError |
| `ScorecardService.BeforeTOfIso` | src/services/scorecardService.js:37 | an ISO instant gives its `YYYY-MM-DD` part |
| `ScorecardService.StatsPrecedence` | src/services/scorecardService.js:38-41 | a defined round statistic wins over the scorecard's own field, even when falsy; otherwise the field or `''` |
| `ScorecardService.ZeroStatKept` | src/services/scorecardService.js:38-39 | a statistic of 0 is kept over a truthy own field |
| `ScorecardService.ScorecardFieldsPlain` | src/services/scorecardService.js:6-10 | the sixteen header names contain no comma, quote or line feed |
| `ScorecardService.NoScorecards` | src/services/scorecardService.js:63 | an empty list gives the header line and its line feed alone |
| `ScorecardService.NotAnArrayThrows` | src/services/scorecardService.js:26 | anything but an array makes the converter throw a TypeError |
| `ScorecardService.OutputReadsBack` | src/services/scorecardService.js:5-64 | a non-empty output reads back as the sixteen names and one record per scorecard in input order, with no empty last line |
| `ScorecardService.OutputJoined` | src/services/scorecardService.js:53-63 | the output is the header line above the escaped rows joined by LF |
| `ScorecardService.DetailsIff` | src/services/scorecardService.js:83-93 | collecting finishes exactly when every scorecard is readable and its fetch settles; detail i is the body of scorecard i's fetch |
| `ScorecardService.NoScorecardListThrows` | src/services/scorecardService.js:74-83 | a summary without a `scorecards` array or string fails the download with a TypeError |
| `ShotDataService.ClubTypes` | src/services/shotDataService.js:17-21 | reading the club types succeeds exactly when the body is an array or holds a `clubTypes` array |
| `ShotDataService.GetClubMappings` | src/services/shotDataService.js:10-43 | the two `forEach` fills give the club map, or an empty map when anything throws |
| `ShotDataService.ConvertShotDataToCsv` | src/services/shotDataService.js:46-82 | the converter returns the header line and the shots' escaped rows joined by LF, or the exception a shot raises |
| `ShotDataService.StampCourse` | src/services/shotDataService.js:112-114 | each shot is given the scorecard's course name in strict mode |
| `ShotDataService.FetchRoundShots` | src/services/shotDataService.js:106-114 | a round's shots are its fetched body, stamped |
| `ShotDataService.CollectShots` | src/services/shotDataService.js:103-121 | the loop appends each round's stamped shots in order |
| `ShotDataService.DownloadShotData` | src/services/shotDataService.js:85-132 | the download builds the club map, collects the shots and exports their CSV under the dated name |
| `ShotDataService.MappingsFallBack` | src/services/shotDataService.js:39-42 | a rejected fetch, a club-type body without an array or a player-club body that is not an array gives the empty map |
| `ShotDataService.MappingsComposed` | src/services/shotDataService.js:20-38 | otherwise the map is the player-club fill over the club-type table |
| `ShotDataService.TypeNameLast` | src/services/shotDataService.js:20-23 | a type id maps to the name of the last type with that id |
| `ShotDataService.ClubNameComposed` | src/services/shotDataService.js:32-36 | a club id maps to its type's name, or `'Unknown'` when the type is unmapped or its name falsy; the last club with an id wins |
| `ShotDataService.UnknownClub` | src/services/shotDataService.js:60-62 | a shot whose club no player club has shows `'Unknown'` |
| `ShotDataService.DistanceCell` | src/services/shotDataService.js:5-7 | falsy meters give `''`, truthy meters their yard text |
| `ShotDataService.RowIff` | src/services/shotDataService.js:56-77 | a shot yields a row exactly when it is readable and its shot time converts; the row holds its eleven values in order |
| `ShotDataService.PickOk` | src/services/shotDataService.js:57-71 | a column's value is computed exactly when the shot is readable and, for the shot time, it converts |
| `ShotDataService.InvalidShotTimeThrows` | src/services/shotDataService.js:63-65 | a shot time that does not convert fails the conversion with a RangeError |
| `ShotDataService.FirstThrow` | src/services/shotDataService.js:57-77 | the first column that throws gives the row's exception |
| `ShotDataService.RowsIff` | src/services/shotDataService.js:56-79 | all rows are built exactly when every shot's is, and row i is shot i's |
| `ShotDataService.NoShots` | src/services/shotDataService.js:53-81 | no shots give the header line and its line feed alone |
| `ShotDataService.FieldsPlain` | src/services/shotDataService.js:47-51 | the eleven header names contain no comma, quote or line feed |
| `ShotDataService.OutputReadsBack` | src/services/shotDataService.js:46-82 | a non-empty output reads back as the eleven names and one record per shot in order, with no empty last line |
| `ShotDataService.StampedIff` | src/services/shotDataService.js:112-114 | stamping succeeds exactly when every shot is an object or array, and otherwise throws a TypeError; each stamped shot is its own |
| `ShotDataService.StampedShot` | src/services/shotDataService.js:113 | a stamped object has the course name and keeps every other property |
| `ShotDataService.PrimitiveShotThrows` | src/services/shotDataService.js:113 | a number, string or boolean shot makes the stamping throw |
| `ShotDataService.AllShotsIff` | src/services/shotDataService.js:103-121 | collecting succeeds exactly when every round's shots are fetched and stamped |
| `ShotDataService.AllShotsAppend` | src/services/shotDataService.js:103-121 | the shots of two runs of scorecards are the first run's followed by the second's |
| `ShotDataService.RoundShotsStamped` | src/services/shotDataService.js:106-116 | a round gives one shot per fetched element, each object carrying the scorecard's course name |
| `ShotDataService.NoScorecardListThrows` | src/services/shotDataService.js:95-104 | a summary without a `scorecards` array or string fails the download with a TypeError |
| `HeaderCapture.StorageKeyIff` | header-capture.js:4-10 | the storage test accepts exactly the keys the response test accepts plus those containing `bearer` |
| `HeaderCapture.FindIsApply` | header-capture.js:87-104 | the walk writes exactly the recorded leaves, in visiting order, over the dictionary it is given |
| `HeaderCapture.ApplyLookup` | header-capture.js:97 | after the writes a path holds a value exactly when it did or a leaf names it; an unnamed path keeps its value, a named one the last leaf's |
| `HeaderCapture.LeafPathsExtend` | header-capture.js:91 | every leaf found below a non-empty path extends that path with a dot |
| `HeaderCapture.TopLevelLeaf` | header-capture.js:88-99 | a top-level token string is recorded under its bare key; every path found below a non-empty top-level key lies under that key and a dot; an object under the empty key is walked as the top level itself |
| `HeaderCapture.FindTokensInObject` | header-capture.js:87-104 | the recursive walk leaves the shared results as the threaded fold describes, unchanged for a primitive input |
| `HeaderCapture.VisitEntry` | header-capture.js:90-101 | the callback records a token string, recurses into a nested object, and otherwise changes nothing |
| `HeaderCapture.FindTokens` | header-capture.js:72 | with its default arguments the walk gives the recorded leaves written into an empty dictionary |

## Left out

- Network I/O is not modelled. Every `fetch` is passed in as a settled
  `Response`, as are the per-round fetches, given as functions of the
  scorecard id. So are URLs, headers and `json()`. A body that does not
  parse is not modelled.
- Getting the token is reduced to a flag. The flag says whether an
  authorization header is at hand after the localStorage attempt.
  `src/content-script.js`, `token-getter.js`, `background.js` and
  `src/api/` are not part of this model.
- The popup message listener of `content-script.js` is left out, because it
  only dispatches to the three downloads and reports success. So are the
  script injection and message plumbing of `injectHeaderCapture`,
  `getLocalStorageToken` and `getJwtToken`.
- Progress messages, `console` output, timers and the order of the
  asynchronous steps are left out. This includes `getClubMappings` fetching
  the player clubs after the club-type step, and the `setInterval` polling.
- The Blob, the object URL and the hand-over to the background script are
  left out, because they are browser APIs. `popup.js` and
  `src/services/downloadService.js` are not part of this model. A download
  ends with an `Export` value.
- The scans of `inspectForTokens` over localStorage, sessionStorage and
  `window` are left out, because they read browser state. So is the `fetch`
  monkey-patching of `header-capture.js`. Only the key test and
  `findTokensInObject` are modelled.
- `Date` is not modelled. Local-time getters, epoch parsing and
  `toISOString` are uninterpreted functions of the environment. `formatDate`
  is modelled from integer year, month and day components.
- Floating point is not modelled. `(meters * 1.09361).toFixed(1)` is an
  uninterpreted function, and only its falsy-meters branch is modelled. Numbers
  are integers.
- `toLowerCase` lowers only ASCII letters.
- Object keys are strings. `Map` keys compare values structurally, not by
  the identity of objects.
- Prototype properties are not modelled. Of the own properties, only an
  object's named keys can be read by key (`JsValue.Get`): the index properties
  of arrays and strings are reached only by position (`JsValue.At`).
- `ShotCsv.ScoreOf` and `ShotCsv.Pick`: the `holeScores` and
  `clubIdToNameMap` lookup tables are modelled as plain objects. An array
  passed as either table would give its elements in JavaScript, but `''`
  here.
- Object entries are kept in insertion order. JavaScript lists integer-like
  keys first, in ascending order, and the model does not reorder them. So the
  visiting order of `HeaderCapture.FindTokensInObject` follows the entries as
  given.
- Writing a property of an array is not modelled: the array is returned
  unchanged.
- `ShotCsv.ConvertShotDataToCsv`: no lemma states the reads-back property
  directly for this converter's output. It follows from
  `ShotWalk.ShotDocumentReadsBack`, the `ShotCsv.OutputOf` helper (the
  converter's output is the shot walk over `holeShots`) and
  `ShotWalk.ShotFieldsPlain`.
- `JsValue.SplitChars`: `split('')` splits into UTF-16 code units, while a
  Dafny `char` is a Unicode scalar value. The two agree on the digit strings
  of `holePars`.
- `ScorecardService.OutputReadsBack`: it covers a non-empty list only. An
  empty list is covered by `ScorecardService.NoScorecards`.
- `ShotDataService.OutputReadsBack`: it covers a non-empty list only. An empty
  list is covered by `ShotDataService.NoShots`.
- The ES modules under `src/` run in strict mode and `content-script.js` runs
  in sloppy mode. So writing a property of a primitive throws only in the
  services.
