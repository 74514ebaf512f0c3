# opera — hour-meter readings and the LOCPEL import, in Dafny

This project models two parts of the *opera* fleet-maintenance system.

**The LOCPEL import script** (`scripts/generateInserts.ts`, class `LocpelToSQL`).
It reads the LOCPEL workbook and writes one SQL script:

- a preamble and `BEGIN;`;
- then one section per sheet:
  - equipment, deduplicated by code;
  - suppliers;
  - service types;
  - services, each guarded by `WHERE EXISTS` sub-selects and counted as valid or ignored;
  - hour-meter readings, from every sheet whose name mentions *horímetro*;
- then `COMMIT;`.

The class is modelled as a Dafny `class` whose `sqlOutput` buffer the `Process*` methods extend line by line. Every method is proved against a pure function of the workbook (`InsertSections`) that gives the text it must append. Around it, the helpers are modelled as functions with their own properties:

- `cleanString` (`trim` of the cell text);
- `sqlString` (quote doubling, with a proved round trip);
- `parseDate` (the two regular expressions and `padStart`);
- `sqlDate`;
- `parseNumber` (cleaning, first-comma replacement and the prefix `parseFloat` reads);
- `findSheet` (case-insensitive lookup, first candidate wins);
- `deduplicateEquipamentos` (first occurrence per lower-cased key).

**The hour-meter API route** (`src/app/api/horimetros/route.ts`).

- `GET` answers one of two things:
  - the latest reading of one equipment, newest by `data_referencia`;
  - the whole list. The list is sorted by equipment and then date. The `for … of` loop then annotates every row in place with `leitura_anterior` (the previous reading of the same equipment) and `horas_trabalhadas` (the difference).
- `POST` validates the body. It refuses a reading below the latest one of its equipment (400). Otherwise it inserts the row (201).

Rows of the list are objects of class `Item`, and the loop is a method with a `map` of last readings. The table behind `POST` is a `Store` object. What the derived fields mean is stated and proved separately, over any sorted order, in `HorimetroReadings`.

Values outside the model are parameters:

- the authenticated user;
- the database answers and errors;
- the id the database assigns;
- the generation timestamp;
- the two JavaScript/spreadsheet conversions with floating-point behaviour (`Builtins`).

## Model

| member | source | states |
|---|---|---|
| `GenerateInserts.LocpelToSQL.constructor` | scripts/generateInserts.ts:53-61 | the buffer starts with the two comment lines, an empty line, `BEGIN;` and an empty line |
| `GenerateInserts.LocpelToSQL.ProcessAll` | scripts/generateInserts.ts:66-77 | appends the five sections in order (equipment, suppliers, service types, services, hour meters), then an empty line and `COMMIT;` |
| `GenerateInserts.LocpelToSQL.ProcessEquipamentos` | scripts/generateInserts.ts:82-125 | appends nothing when no equipment sheet exists; otherwise the header and one INSERT per deduplicated record that has a code or a description |
| `GenerateInserts.LocpelToSQL.AppendEquipamentos` | scripts/generateInserts.ts:113-122 | the `forEach` appends exactly the INSERTs of the records, in order (loop invariant over the prefix) |
| `GenerateInserts.LocpelToSQL.DeduplicateEquipamentos` | scripts/generateInserts.ts:364-372 | the `seen`-set filter keeps exactly the first record of each lower-cased key, in order |
| `GenerateInserts.LocpelToSQL.ProcessFornecedores` | scripts/generateInserts.ts:130-163 | appends nothing without a supplier sheet; otherwise the header and one INSERT (type `MANUTENCAO`) per distinct non-empty name, in first-seen order |
| `GenerateInserts.LocpelToSQL.AppendFornecedores` | scripts/generateInserts.ts:155-160 | appends the INSERT of each name, in order |
| `GenerateInserts.LocpelToSQL.ProcessTiposServico` | scripts/generateInserts.ts:168-199 | as for suppliers, with no header row skipped and the name used as description |
| `GenerateInserts.LocpelToSQL.AppendTiposServico` | scripts/generateInserts.ts:192-196 | appends the INSERT of each service type, in order |
| `GenerateInserts.LocpelToSQL.ProcessServicos` | scripts/generateInserts.ts:204-272 | appends the services section; the two counters are the number of valid and of ignored records |
| `GenerateInserts.LocpelToSQL.AppendServicos` | scripts/generateInserts.ts:238-268 | the loop writes the 12 lines of each valid record and nothing for the others, and counts both |
| `GenerateInserts.LocpelToSQL.AppendServicoAt` | scripts/generateInserts.ts:241-268 | one iteration extends the prefix of processed records by one and reports whether the record was written |
| `GenerateInserts.LocpelToSQL.WriteServico` | scripts/generateInserts.ts:243-267 | a record with date, equipment, cost and service type gets its INSERT … SELECT … WHERE EXISTS lines; any other gets none |
| `GenerateInserts.LocpelToSQL.ProcessHorimetros` | scripts/generateInserts.ts:277-334 | appends nothing when no sheet name mentions the hour meter; otherwise header, sheet count, and the readings of every such sheet; the total counts all parsed rows, written or not |
| `GenerateInserts.LocpelToSQL.AppendHorimetroSheets` | scripts/generateInserts.ts:296-331 | the outer loop appends each sheet's lines in workbook order and sums the sheets' row counts |
| `GenerateInserts.LocpelToSQL.ProcessHorimetroSheet` | scripts/generateInserts.ts:298-331 | one sheet: its kept rows become records, each valid one is written, the count is the number of records |
| `GenerateInserts.LocpelToSQL.AppendHorimetroAt` | scripts/generateInserts.ts:316-330 | one iteration extends the prefix of processed readings by one |
| `GenerateInserts.LocpelToSQL.WriteHorimetro` | scripts/generateInserts.ts:317-329 | a reading with date, equipment and a number gets its INSERT lines; any other gets none |
| `GenerateInserts.Generate` | scripts/generateInserts.ts:489-491 | the script built by construction and `processAll` is `Script(...)`: `BEGIN;` is line 4 and only there, `COMMIT;` is the last line and only there |
| `InsertSections.ScriptFraming` | scripts/generateInserts.ts:56-76 | every generated script opens one transaction and closes it at the very end; no other line of the script is `BEGIN;` or `COMMIT;` |
| `InsertSections.FramedBody` | scripts/generateInserts.ts:56-76 | between the preamble and the closing lines, a body without `BEGIN;`/`COMMIT;` lines leaves them only at the framing positions |
| `InsertSections.SectionsBody` | scripts/generateInserts.ts:105-329 | no line any section writes is `BEGIN;` or `COMMIT;` |
| `InsertSections.EquipamentoInsertCases` | scripts/generateInserts.ts:114-121 | a record writes one INSERT when it has an identification or a name; code falls back to the name and description to the identification |
| `InsertSections.EquipamentoCodesDistinct` | scripts/generateInserts.ts:364-372 | after deduplication no two records share a lower-cased key |
| `InsertSections.UniqueNames` | scripts/generateInserts.ts:152 | `[...new Set(names)].filter(Boolean)`: exactly the distinct non-empty names of the input, each once, in input order |
| `InsertSections.ServicoInsertLength` | scripts/generateInserts.ts:243-267 | a valid service writes 12 lines, any other none |
| `InsertSections.ServicosWrittenOrIgnored` | scripts/generateInserts.ts:238-271 | the section holds 12 lines per valid service; valid plus ignored is the number of records |
| `InsertSections.HorimetroTotalStep` | scripts/generateInserts.ts:314 | the running total grows by each sheet's number of records |
| `InsertSections.Continuation` | scripts/generateInserts.ts:254-262 | every continuation line of a multi-line INSERT starts with a space |
| `ImportCells.CleanString` | scripts/generateInserts.ts:377-380 | the result neither starts nor ends with whitespace; it is empty exactly when the cell text is all whitespace |
| `JsStrings.Trim` | scripts/generateInserts.ts:379 | `trim`: no whitespace at either end; empty exactly for all-whitespace text |
| `JsStrings.TrimIsSlice` | scripts/generateInserts.ts:379 | trimming keeps one contiguous slice and drops only whitespace around it |
| `JsStrings.TrimIdempotent` | scripts/generateInserts.ts:379 | trimming twice is trimming once |
| `JsStrings.ContainsIffOccurs` | scripts/generateInserts.ts:280-283 | `includes` holds exactly when the text occurs at some position |
| `JsStrings.LocaleLessTransitive` | src/app/api/horimetros/route.ts:54-59 | the string comparison the sort uses is transitive |
| `JsStrings.LocaleLessTotal` | src/app/api/horimetros/route.ts:54-59 | two different strings are ordered one way or the other |
| `JsStrings.LocaleLessIrreflexive` | src/app/api/horimetros/route.ts:54-59 | no string is before itself |
| `JsStrings.LocaleLessCommonPrefix` | src/app/api/horimetros/route.ts:56 | a common prefix (as in ISO dates of one year) does not change the order |
| `JsStrings.NatToString` | scripts/generateInserts.ts:293 | the sheet count is written as decimal digits that spell the count |
| `SqlQuoting.SqlString` | scripts/generateInserts.ts:385-388 | empty text becomes `NULL`; anything else is quoted |
| `SqlQuoting.EscapeRoundTrip` | scripts/generateInserts.ts:387 | doubling quotes yields well-quoted text that undoubles back to the input |
| `SqlQuoting.UnescapeRoundTrip` | scripts/generateInserts.ts:387 | every well-quoted text is the doubling of its undoubling |
| `SqlQuoting.SqlStringInjective` | scripts/generateInserts.ts:385-388 | two values with the same SQL literal are equal, so a lookup by literal finds the value written |
| `SheetLookup.FindSheet` | scripts/generateInserts.ts:351-359 | a found sheet is a sheet of the workbook and not empty |
| `SheetLookup.FindSheetFirstCandidate` | scripts/generateInserts.ts:351-359 | null exactly when no candidate matches; otherwise the first sheet matching the first candidate that matches any |
| `SheetLookup.FirstMatch` | scripts/generateInserts.ts:353-355 | `find` stops at the first sheet equal to the name ignoring case |
| `SheetLookup.HorimetroSheets` | scripts/generateInserts.ts:280-283 | only sheets whose lower-cased name mentions the hour meter, no more than the workbook has |
| `SheetLookup.HorimetroSheetsExactly` | scripts/generateInserts.ts:280-283 | the hour-meter sheets are exactly the workbook's sheets whose lower-cased name contains `horimetro` or `horímetro`, in workbook order |
| `SeqUtils.FilterMembers` | scripts/generateInserts.ts:280 | `filter` keeps an element exactly when it is in the input and passes the test |
| `ImportDates.MatchDate` | scripts/generateInserts.ts:419-426 | a match splits the text into three digit groups of allowed lengths around the separator |
| `ImportDates.MatchDateIff` | scripts/generateInserts.ts:419-426 | the regular expression matches exactly the texts made of such groups |
| `ImportDates.ParseDate` | scripts/generateInserts.ts:405-442 | falsy cells and booleans give null; text is trimmed and then matched |
| `ImportDates.ParseDateDayMonthYear` | scripts/generateInserts.ts:419-423 | `D/M/YYYY` becomes zero-padded `YYYY-MM-DD` |
| `ImportDates.ParseDateYearMonthDay` | scripts/generateInserts.ts:426-430 | `YYYY-M-D` becomes zero-padded `YYYY-MM-DD` |
| `ImportDates.ParseDateTextIsIso` | scripts/generateInserts.ts:415-431 | whatever text date is recognised comes out as an ISO date |
| `ImportDates.ParseDateIdempotent` | scripts/generateInserts.ts:405-431 | parsing the parsed date again gives it back |
| `ImportDates.ParseDateNone` | scripts/generateInserts.ts:415-441 | text matching neither pattern gives null |
| `ImportDates.SqlDate` | scripts/generateInserts.ts:393-400 | `NULL` or a quoted literal |
| `ImportDates.SqlDateOfParsed` | scripts/generateInserts.ts:393-400 | a parsed text date is written quoted, unchanged |
| `ImportNumbers.KeepNumericChars` | scripts/generateInserts.ts:454 | exactly the digits, `,`, `.` and `-` of the input, in order (the input filtered by that character class) |
| `ImportNumbers.ReplaceFirstComma` | scripts/generateInserts.ts:457 | a string pattern: the first comma becomes `.` and every other character, later commas included, is unchanged; text without a comma is unchanged |
| `ImportNumbers.IndexOfComma` | scripts/generateInserts.ts:457 | the first comma, or the end |
| `ImportNumbers.LeadingDecimalIsPrefix` | scripts/generateInserts.ts:459 | what `parseFloat` reads is a prefix of the text |
| `ImportNumbers.ParseNumber` | scripts/generateInserts.ts:447-464 | a number cell is returned as it is; a boolean gives null |
| `ImportNumbers.ParseNumberNeedsADigit` | scripts/generateInserts.ts:452-460 | text without a digit gives null (NaN) |
| `ImportNumbers.ParseNumberDecimalComma` | scripts/generateInserts.ts:454-459 | Brazilian `a,b` is read as the number a.b |
| `ImportNumbers.ParseNumberDigits` | scripts/generateInserts.ts:454-459 | a run of digits is read as the number it spells |
| `SeqUtils.FirstByKeyKeepsFirstOccurrences` | scripts/generateInserts.ts:364-372 | the deduplicated list holds exactly the first occurrence of each key |
| `SeqUtils.FirstByKeyDistinct` | scripts/generateInserts.ts:364-372 | the deduplicated list has no two records with the same key |
| `SeqUtils.FirstByKeyIsSubsequence` | scripts/generateInserts.ts:366 | the deduplicated list keeps the input order |
| `SeqUtils.ConcatMapLength` | scripts/generateInserts.ts:240-268 | a loop writing a fixed number of lines per selected item writes that many times the count |
| `HorimetroReadings.BeforeTransitive` | src/app/api/horimetros/route.ts:54-59 | the sort comparator is a strict order: transitive |
| `HorimetroReadings.BeforeAsymmetric` | src/app/api/horimetros/route.ts:54-59 | and asymmetric |
| `HorimetroReadings.BeforeTotal` | src/app/api/horimetros/route.ts:54-59 | it answers zero only for the same equipment on the same date |
| `HorimetroReadings.NotBeforeTransitive` | src/app/api/horimetros/route.ts:54-59 | "not after" is transitive, so the comparator is consistent for `sort` |
| `HorimetroReadings.SortedGroupsEquipment` | src/app/api/horimetros/route.ts:54-59 | in the sorted order the readings of one equipment are contiguous |
| `HorimetroReadings.SortedDates` | src/app/api/horimetros/route.ts:54-59 | within one equipment the sorted order is date order |
| `HorimetroReadings.LastMapAbsent` | src/app/api/horimetros/route.ts:61-66 | the map of last readings has no entry for an equipment exactly when none of its readings was seen |
| `HorimetroReadings.LastMapAt` | src/app/api/horimetros/route.ts:61-66 | it holds the `leitura` of the last reading seen of the equipment |
| `HorimetroReadings.LastMapSource` | src/app/api/horimetros/route.ts:61-66 | any entry comes from the last reading seen of that equipment |
| `HorimetroReadings.LastMapFiltered` | src/app/api/horimetros/route.ts:61-66 | the entry for an equipment depends only on that equipment's readings |
| `HorimetroReadings.FirstReadingHasNoPrevious` | src/app/api/horimetros/route.ts:62-64 | `leitura_anterior` is null exactly for the first reading of its equipment; `horas_trabalhadas` is null exactly when it is |
| `HorimetroReadings.PreviousIsClosestEarlier` | src/app/api/horimetros/route.ts:62-64 | otherwise it is the `leitura` of the closest earlier reading of the same equipment, and the hours are the difference |
| `HorimetroReadings.PreviousSource` | src/app/api/horimetros/route.ts:62-64 | a previous reading always comes from such a closest earlier reading |
| `HorimetroReadings.DerivedFieldsIsolated` | src/app/api/horimetros/route.ts:61-66 | the two fields of a row depend only on the earlier rows of its own equipment |
| `HorimetroReadings.HoursNonNegative` | src/app/api/horimetros/route.ts:54-66 | when readings never go down with the date, no row shows negative hours |
| `HorimetroReadings.Latest` | src/app/api/horimetros/route.ts:27-33 | an answer the newest-first, limit-1 query may give always exists: null exactly when the equipment has no reading, otherwise one of its readings with none dated later |
| `HorimetroReadings.NewestIsTheAnswer` | src/app/api/horimetros/route.ts:27-33 | a reading dated after all others of its equipment is the only answer the query can give |
| `HorimetrosRoute.Item.constructor` | src/app/api/horimetros/route.ts:51 | a fetched row starts without the two derived fields |
| `HorimetrosRoute.InsertAsc` | src/app/api/horimetros/route.ts:54-59 | inserting into a sorted list keeps it sorted and adds exactly the one item |
| `HorimetrosRoute.SortAsc` | src/app/api/horimetros/route.ts:54-59 | the sorted copy is a permutation of the items, in comparator order |
| `HorimetrosRoute.PermutationDistinct` | src/app/api/horimetros/route.ts:51-54 | the sorted copy holds the same separate objects as the list |
| `HorimetrosRoute.Annotate` | src/app/api/horimetros/route.ts:61-66 | after the loop every row holds the previous reading and hours of its position in the sorted order |
| `HorimetrosRoute.Get` | src/app/api/horimetros/route.ts:14-69 | 401 without a user; with `latest=true` and an id, 500 on error, or 200 with the query's answer, which is null exactly when the equipment has no reading; otherwise 500 on error, or 200 with the rows in query order, each annotated by its place in the sorted order |
| `HorimetrosRoute.TwoReadingsSorted` | src/app/api/horimetros/route.ts:42-59 | the two example rows, fetched newest first, sort January first |
| `HorimetrosRoute.TwoReadingsAnnotated` | src/app/api/horimetros/route.ts:61-68 | after the loop January shows nulls and February 100 and 80 |
| `HorimetrosRoute.NewRow` | src/app/api/horimetros/route.ts:100-103 | the stored row carries the payload's equipment, date and reading |
| `HorimetrosRoute.Store.constructor` | src/app/api/horimetros/route.ts:98-105 | the table starts with the given rows |
| `HorimetrosRoute.Post` | src/app/api/horimetros/route.ts:71-119 | 401 without a user; a body failing the schema throws; 500 when the latest-reading query fails; 400 exactly when the latest-reading query returned a reading and the new one is below it; otherwise 500 on insert error or 201 with the new row; the table grows by that row on 201 only |
| `HorimetrosRoute.RegressesIffBelowNewest` | src/app/api/horimetros/route.ts:79-96 | with a strictly newest reading, whatever the query answers, the gate rejects exactly the readings below it; an equal reading passes |
| `HorimetrosRoute.TiedDatesLeaveTheVerdictOpen` | src/app/api/horimetros/route.ts:79-96 | with two readings on the newest date, either may be the query's answer, and a reading between them passes against one and is refused against the other |
| `HorimetrosRoute.AcceptedKeepsNonDecreasing` | src/app/api/horimetros/route.ts:91-105 | an accepted reading dated after the recorded ones keeps the equipment's readings non-decreasing by date |
| `HorimetrosRoute.FirstReadingAccepted` | src/app/api/horimetros/route.ts:91 | the first reading of an equipment is never rejected |

## Left out

- Reading the workbook with `XLSX.readFile` is left out. The model starts from sheet names and the rows `sheet_to_json` returns.
- `saveSQL` and `main` are file-system and process I/O, and are not modelled. The model's result is the line list that `join('\n')` would write. The default user id is a parameter.
- `console.log` output is not modelled.
- `String(n)` for a number cell and `XLSX.SSF.parse_date_code` for an Excel serial date are parameters (`Builtins`). Their floating-point and calendar arithmetic is not modelled.
- The `Date`-object branch of `parseDate` is not modelled. `sheet_to_json` without `cellDates` never yields one, so cells are only text, numbers and booleans.
- Numbers are modelled as exact reals, not IEEE doubles:
  - the value `parseFloat` reads is not rounded;
  - `${custo}` and `${leitura}` use the `numberToString` parameter;
  - `item.leitura - previous` is exact subtraction.
- ImportDates.SqlDate takes the already-parsed date, which is how every call site uses it; `sqlDate` on a raw number cell is not modelled.
- JsStrings.ToLower lowercases only ASCII and Latin-1 capitals. Sheet names outside that range are compared as written.
- JsStrings.LocaleLess models `localeCompare` as code-point order (a Dafny `char` is a Unicode scalar value). It agrees with collation for the ids and ISO dates compared here, but not for arbitrary text.
- The database is not modelled:
  - the Supabase client, `getAuthContext` and `registerAudit` are left out;
  - the authenticated user, the query answers, the query errors and the new row's id are parameters of `Get` and `Post`.
- HorimetrosRoute.Get takes the list query's answer (`fetched`) as a parameter. It does not compute it from the table, and `data ?? []` is assumed already applied. The list query in the code has no `equipamentoId` filter; the model follows the code.
- HorimetrosRoute.Post and HorimetrosRoute.Get take the latest-reading query's answer as a parameter. They require only what the query guarantees: null exactly when the equipment has no reading, otherwise one of its readings with none dated later. Which of several readings on the newest date the database returns is left open; HorimetroReadings.Latest is one allowed answer and fixes no tie order for the route.
- HorimetrosRoute.SortAsc is stable by construction (as `Array.prototype.sort` is), but stability is not stated as a contract.
- HorimetrosRoute.Post models an invalid body as `Unhandled`, the exception `schema.parse` throws. The `"Erro ao salvar"` reply, for an insert that returns neither data nor an error, is not modelled.
- HorimetrosRoute.Post models the latest-reading query and the insert as one step, so concurrent requests interleaving between them are not modelled.
- HorimetrosRoute.AcceptedKeepsNonDecreasing requires the new reading's date to be later than all recorded ones. A back-dated reading is checked against the newest reading, not against its neighbours by date, so the property does not hold for it.
- The other routes (including PATCH), the pages and the UI components are not part of this model.
