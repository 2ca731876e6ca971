# Demo apps: a verified model

This project is a Dafny model of the stateful and textual logic in seven single-page demo apps:

- **Falling-block game.** A 20 x 10 board, seven piece templates, clockwise rotation with a kick search, collision, locking, row clearing and scoring.
- **Radio programme search.** Flattening a parsed station/programme tree, normalising case, full-width letters and digits, and katakana (shifted by a fixed offset) for matching, AND/OR keyword filtering, and a per-hour heatmap.
- **Household expense dashboard.** Conjunctive filters, totals, per-category and per-store aggregation, a top-ten store ranking, pagination, and mapping imported CSV columns to records.
- **Dividend calendar.** Twelve monthly payout buckets, the payout-month toggle, row add/update/delete, tax presets, shortfall months, and the CSV export/import format with its round trip.
- **To-do list.** Two lists, open and done; items move between them by id, and a case-insensitive search runs over both.
- **Pomodoro timer.** A focus/break phase machine with a clamped countdown, skip, reset, the 500 ms auto-advance, and the `MM:SS` formatter.
- **Vertical shooter.** One frame of the game loop on an in-place game record: movement clamping, rate-limited firing by firepower, and the bullet, enemy, boss and power-up filters. It also covers the hit loop with its kill counters, power-up drops and boss rewards, spawning, and the pause and game-over guards.

## How the model is organised

There is one module per app, plus two shared modules:

- `Seqs` holds an optional value, the order-preserving filter with its copy counts, `map`, subsequences and sums.
- `Text` holds the JavaScript string operations the apps rely on: white-space trimming, lower-casing, `includes`, `split`/`join` on one character, `String(n)`, `parseInt` with radix 10 and without a radix, and `parseFloat`.

The modules take the form of their source:

- **Pure code becomes functions.** The to-do handlers, the timer transitions, the expense filters and the dividend row edits are pure state updates or expressions, so they are functions on datatypes, with lemmas relating them.
- **Loops become methods.** A loop in the source becomes a method with a `while` loop, proved against a specification function:
  - `collide`;
  - the `sweep` scan;
  - the `hardDrop` descent;
  - the rotation kick search;
  - the heatmap counter;
  - the station/programme flattening;
  - the `Map` aggregations;
  - the twelve-bucket dividend loop;
  - the CSV import loop.
- **In-place objects become classes.**
  - The falling-block game is `Tetris.Game`. Its board and piece change in place.
  - The shooter's mutable game record is `Shooter.Game`. Each of its methods ensures `State() == F(old(State()))` for a stage function `F` on the value `GameState`. Lemmas about those functions prove the frame invariant.

## Model

| member | source | states |
|---|---|---|
| Tetris.Spawn | src/app/app2/TetrisClient.tsx:77-89 | a spawned piece is the template's matrix and colour, on row 0, at x = floor(5 - width/2); it is square with a block, 2 to 4 wide |
| Tetris.Rotate | src/app/app2/TetrisClient.tsx:91-93 | rotating an r x c matrix gives a c x r matrix |
| Tetris.RotateSquare | src/app/app2/TetrisClient.tsx:91-93 | an n x n matrix stays n x n, and entry (i, j) of the result is a block iff entry (n-1-j, i) of the input is |
| Tetris.RotateFourTimes | src/app/app2/TetrisClient.tsx:91-93 | four clockwise rotations restore the matrix, so the three extra turns on giving up restore the pre-rotation shape |
| Tetris.RotateKeepsBlockCount | src/app/app2/TetrisClient.tsx:91-93 | rotation keeps the number of blocks, and a matrix with a block still has one |
| Tetris.TurnedPieceWellFormed | src/app/app2/TetrisClient.tsx:214-218 | a turned piece is still square with a block and has the same width |
| Tetris.Collide | src/app/app2/TetrisClient.tsx:95-107 | the nested scan returns true iff some block lands off the board (above row 0 included) or on a locked cell; empty entries are never checked |
| Tetris.BelowFloorCollides | src/app/app2/TetrisClient.tsx:95-107 | a piece at or below row 20 always collides, which bounds the hard-drop loop |
| Tetris.SpawnFitsEmptyBoard | src/app/app2/TetrisClient.tsx:77-89 | no template collides when spawned on an empty board |
| Tetris.MergedLocked | src/app/app2/TetrisClient.tsx:162-170 | after a merge, the locked cells are exactly the old locked cells plus the cells under the piece's blocks |
| Tetris.PlacedAreFree | src/app/app2/TetrisClient.tsx:162-170 | the cells under a non-colliding piece are on the board and empty |
| Tetris.MergeAddsBlocks | src/app/app2/TetrisClient.tsx:162-170 | a merge keeps the board 20 x 10, keeps every locked cell, and adds exactly as many as the piece has blocks |
| Tetris.Game.Merge | src/app/app2/TetrisClient.tsx:162-170 | the in-place nested loop leaves the board equal to the merged board, with piece, score and game-over unchanged |
| Tetris.Game.MergeRow | src/app/app2/TetrisClient.tsx:163-168 | the inner loop writes the blocks of one matrix row, one entry at a time |
| Tetris.SweptShape | src/app/app2/TetrisClient.tsx:172-186 | a swept board is 20 x 10 with no full row; the non-full rows keep their order at the bottom under exactly `lines` empty rows; `lines` is the number of full rows |
| Tetris.SweptRows | src/app/app2/TetrisClient.tsx:172-186 | every swept row has 10 cells and is not full |
| Tetris.FullAndKeptPartition | src/app/app2/TetrisClient.tsx:174-181 | every row is either full or kept |
| Tetris.SweepScan | src/app/app2/TetrisClient.tsx:173-181 | the bottom-up splice/unshift loop, which re-examines a row index after a removal, terminates with the swept board and the count of full rows |
| Tetris.Game.Sweep | src/app/app2/TetrisClient.tsx:172-186 | the board becomes the swept board and the score rises by 10 per cleared row |
| Tetris.Game.ResetPiece | src/app/app2/TetrisClient.tsx:188-195 | the next piece is spawned; the game is over exactly when it collides at once |
| Tetris.Game.Drop | src/app/app2/TetrisClient.tsx:197-205 | if the row below is free the piece moves down one row and nothing else changes; otherwise the piece is merged where it is, full rows are cleared and scored, and the next piece spawns |
| Tetris.Game.Lock | src/app/app2/TetrisClient.tsx:199-204 | the collision branch of `drop`: merge, sweep and respawn, with the score raised by 10 per cleared row |
| Tetris.Game.Move | src/app/app2/TetrisClient.tsx:207-212 | x shifts by `dir` when that does not collide, otherwise the piece is unchanged; matrix and y never change |
| Tetris.KickTrials | src/app/app2/TetrisClient.tsx:219-226 | the kick search tries at most width + 1 positions, an even number, so it always terminates |
| Tetris.KickStep | src/app/app2/TetrisClient.tsx:220-222 | the offset recurrence 1, -2, 3, -4, ... gives the tried displacements 0, +1, -1, +2, ...; the search stops exactly when the next offset exceeds the width |
| Tetris.KickSearch | src/app/app2/TetrisClient.tsx:219-227 | the first non-colliding trial position in order, or none when every trial collides |
| Tetris.KickSearchIs | src/app/app2/TetrisClient.tsx:219-227 | the search result is determined by which trials collide |
| Tetris.KickPosition | src/app/app2/TetrisClient.tsx:219-227 | the `while (collide)` loop returns the search result, and a found position does not collide |
| Tetris.KickTrialsOfTemplates | src/app/app2/TetrisClient.tsx:18-75 | the 2-wide square tries x and x+1; the 3- and 4-wide templates also try x-1 and x+2 |
| Tetris.Game.RotatePiece | src/app/app2/TetrisClient.tsx:214-228 | on success the piece is the clockwise turn at the first free kick position; on giving up it is exactly the old piece; the board and score never change |
| Tetris.LandingY | src/app/app2/TetrisClient.tsx:230-236 | the landing row lies below the start, every row from the start down to it is free, and the next row collides |
| Tetris.LandingYUnique | src/app/app2/TetrisClient.tsx:230-236 | the landing row is the only row with that property |
| Tetris.Fall | src/app/app2/TetrisClient.tsx:231-234 | the descent loop stops at the landing row: a non-colliding position whose next row collides |
| Tetris.Game.HardDrop | src/app/app2/TetrisClient.tsx:230-236 | the piece is locked at its landing row, full rows are cleared and scored, and the next piece spawns |
| Tetris.Game.Tick | src/app/app2/TetrisClient.tsx:255-258 | the drop timer has the effect of `drop` while the game runs and changes nothing after game over |
| Tetris.Game.KeyListener | src/app/app2/TetrisClient.tsx:238-252 | after game over, and for other keys, nothing changes; left/right move, down drops (one row down with board, score and game-over flag unchanged when free; otherwise the piece locks), up rotates and space hard-drops, each with that operation's effect; the score never falls |
| Tetris.Game.constructor | src/app/app2/TetrisClient.tsx:124-127 | a new game has an empty 20 x 10 board, a spawned piece and score 0 |
| ProgramSearch.Normalize | src/app/app8/App8Client.tsx:128-137 | length is kept; an ASCII capital moves up 32, a full-width capital becomes its ASCII small letter, a full-width small letter or digit moves down 0xFEE0 to ASCII, and katakana U+30A1..U+30F3 moves up 0x60; every other character is unchanged and the result holds none of those classes |
| ProgramSearch.NormalizeIdempotent | src/app/app8/App8Client.tsx:128-137 | normalising twice is normalising once |
| ProgramSearch.KanaScriptsStayApart | src/app/app8/App8Client.tsx:134-136 | a katakana letter and the hiragana letter 0x60 below it normalise differently, so the kana shift does not unify the two scripts |
| ProgramSearch.Words | src/app/app8/App8Client.tsx:244-246 | the keywords are non-empty runs without white space; there are none iff the input is blank |
| ProgramSearch.WordsCoverInput | src/app/app8/App8Client.tsx:244-246 | the keywords concatenated are exactly the input's non-white-space characters, in order |
| ProgramSearch.KeywordList | src/app/app8/App8Client.tsx:244-247 | one normalised keyword per word; empty iff the keywords are blank |
| ProgramSearch.KeywordFilter | src/app/app8/App8Client.tsx:238-262 | blank keywords keep the whole list; otherwise exactly the programmes whose normalised `title desc` contains every keyword (AND) or some keyword (OR), each with all its copies, as an order-preserving subsequence |
| ProgramSearch.AndWithinOr | src/app/app8/App8Client.tsx:244-258 | for the same keywords, the AND result is a subsequence of the OR result |
| ProgramSearch.HourOf | src/app/app8/App8Client.tsx:269 | a valid start gives an hour in 0..23 in the given time zone; an invalid date gives none |
| ProgramSearch.HourCounts | src/app/app8/App8Client.tsx:265-271 | 24 buckets; bucket h counts the programmes starting in hour h; the buckets sum to the number of programmes with a valid start |
| ProgramSearch.AllDatedCounted | src/app/app8/App8Client.tsx:265-271 | when every start is valid, the buckets sum to the number of filtered programmes |
| ProgramSearch.AsList | src/app/app8/App8Client.tsx:180 | a single parsed child is a one-element list; an array is kept as it is |
| ProgramSearch.OrElse | src/app/app8/App8Client.tsx:183-184 | a missing or empty value falls back, so the station name falls back to the id |
| ProgramSearch.Millis | src/app/app8/App8Client.tsx:195-196 | start and end are the seconds read by radix-less `parseInt` (decimal, or hexadecimal after `0x`) times 1000; an unparsable or missing attribute gives none |
| ProgramSearch.StationPrograms | src/app/app8/App8Client.tsx:185-199 | exactly one programme per prog of the station, in order, tagged with the station's id and name, with the prog's title and description (empty when missing) and its start and end times |
| ProgramSearch.AllProgramsLength | src/app/app8/App8Client.tsx:182-200 | the flattened list has one programme per prog element of the whole tree |
| ProgramSearch.AllProgramsAppend | src/app/app8/App8Client.tsx:182-200 | flattening distributes over concatenation of stations |
| ProgramSearch.Flatten | src/app/app8/App8Client.tsx:173-200 | a missing `stations` node is an error; otherwise the nested loops produce every station's programmes in document order |
| Expenses.Select | src/app/app4/App4Client.tsx:125-149 | exactly the records meeting every criterion that is set, each with all its copies, in their original order |
| Expenses.SelectNone | src/app/app4/App4Client.tsx:126 | with no criterion set, every record is kept |
| Expenses.KeepNarrows | src/app/app4/App4Client.tsx:129-145 | filtering by one more criterion is filtering by the stricter criterion set |
| Expenses.KeepNarrowsBy | src/app/app4/App4Client.tsx:129-145 | applying one unset criterion to a selection is selecting with that criterion added to the filter set |
| Expenses.ApplyFilters | src/app/app4/App4Client.tsx:125-149 | the step-by-step reassignment of `result` ends with the conjunctive selection, and the page returns to 1 |
| Expenses.CalculateStats | src/app/app4/App4Client.tsx:53-61 | zero for no records; otherwise the total is the sum of the amounts and the count is the number of records |
| Expenses.FirstAppearance | src/app/app4/App4Client.tsx:71 | the Map's key order holds each key once and no other key |
| Expenses.Aggregate | src/app/app4/App4Client.tsx:88-92 | the Map loop gives one group per distinct key, in first-appearance order, holding that key's summed amount and record count; the groups sum to the total and to the record count |
| Expenses.AggregateFound | src/app/app4/App4Client.tsx:112-116 | adding a record to the group that already has its key keeps the aggregation invariant |
| Expenses.AggregateNew | src/app/app4/App4Client.tsx:112-116 | appending a group for a new key keeps the aggregation invariant |
| Expenses.NoKeyNoAmount | src/app/app4/App4Client.tsx:67 | a key no record has sums to 0 with count 0, as `get(key) || 0` reads it |
| Expenses.FindGroup | src/app/app4/App4Client.tsx:112 | the index of the group holding the key, or the group count iff no group has it |
| Expenses.InsertDesc | src/app/app4/App4Client.tsx:95 | inserting into a non-increasing list keeps it non-increasing and adds exactly the new group |
| Expenses.InsertDescTotals | src/app/app4/App4Client.tsx:121 | insertion adds the group's amount and count to the totals |
| Expenses.InsertDescDistinct | src/app/app4/App4Client.tsx:121 | inserting a new key keeps keys distinct |
| Expenses.CategoryData | src/app/app4/App4Client.tsx:64-72 | one label per distinct category in first-appearance order; each value is that category's summed amount; the values sum to the total |
| Expenses.InsertDescPermutes | src/app/app4/App4Client.tsx:95 | inserting into the descending order adds exactly that group |
| Expenses.InsertDescStable | src/app/app4/App4Client.tsx:95 | an inserted group lands after every group of its own amount, so groups of equal amount keep their arrival order |
| Expenses.SortDesc | src/app/app4/App4Client.tsx:95 | the descending sort gives non-increasing amounts with the same length and elements |
| Expenses.SortDescPermutes | src/app/app4/App4Client.tsx:121 | the sort is a permutation |
| Expenses.SortDescKeeps | src/app/app4/App4Client.tsx:121 | the sort keeps the amount and count totals |
| Expenses.SortDescDistinct | src/app/app4/App4Client.tsx:121 | the sort keeps keys distinct |
| Expenses.SortDescStable | src/app/app4/App4Client.tsx:95 | the sort is stable: for every amount, the groups of that amount come out in the order they went in |
| Expenses.StoreTable | src/app/app4/App4Client.tsx:109-122 | the table is the stable descending sort of the per-store groups in first-appearance order: one row per distinct store with its summed amount and count, counts summing to the number of records and amounts to the total, non-increasing amounts, equal amounts in first-appearance order |
| Expenses.StoreRanking | src/app/app4/App4Client.tsx:87-106 | the first min(stores, 10) groups of the stable descending sort of the per-store sums, so ties keep first-appearance order; each entry is its store's summed amount; every store left out has no more than any entry |
| Expenses.TopOfTable | src/app/app4/App4Client.tsx:94-96 | the first rows of a sorted store table stay sorted with distinct stores and outrank every store they leave out |
| Expenses.LeftOutBelow | src/app/app4/App4Client.tsx:94-96 | a store not among the first n rows of the sorted table is at most every one of them |
| Expenses.TotalPages | src/app/app4/App4Client.tsx:303 | ceil(n / 10): the least page count whose pages of 10 hold n rows |
| Expenses.PageSlice | src/app/app4/App4Client.tsx:299-302 | a page holds at most 10 rows, starting at row (page - 1) * 10; it is empty iff it starts past the end |
| Expenses.RowOnItsPage | src/app/app4/App4Client.tsx:299-303 | row i is entry i % 10 of page i / 10 + 1, which is at most the page count |
| Expenses.PrevPage | src/app/app4/App4Client.tsx:484 | "previous" never goes below page 1 |
| Expenses.NextPage | src/app/app4/App4Client.tsx:494 | "next" never exceeds the page count |
| Expenses.PagingStaysInRange | src/app/app4/App4Client.tsx:484-494 | from a page in 1..total, both buttons stay in 1..total |
| Expenses.IndexOf | src/app/app4/App4Client.tsx:225-229 | the first position of the header, or -1 iff it is absent |
| Expenses.CleanAmount | src/app/app4/App4Client.tsx:234 | only digits, `.` and `-` are kept, every copy of each, in their original order |
| Expenses.ConvertedFromRows | src/app/app4/App4Client.tsx:231-243 | each record kept after conversion comes from a non-blank row |
| Expenses.RowsConverted | src/app/app4/App4Client.tsx:231-243 | each non-blank row whose conversion is usable is kept |
| Expenses.ConvertRows | src/app/app4/App4Client.tsx:231-243 | the three passes (skip blank rows, convert, keep usable records) equal the one-pass import: one record per non-blank row whose record is usable, in row order; every record has a date, a store and a non-zero amount |
| Expenses.ConvertRowsOnePass | src/app/app4/App4Client.tsx:231-243 | filtering blank rows, mapping and filtering unusable records is the single pass over the rows |
| Expenses.ApplyColumnMapping | src/app/app4/App4Client.tsx:213-248 | no mapping rejects; a mapping rejects iff its date, store, category or amount column is unset; an accepted mapping gives the one-pass import of the rows through the mapped columns (memo only when mapped), usable records, at most one per row |
| Dividends.MonthlyDividends | src/app/app5/DividendCalendarClient.tsx:134-152 | 12 buckets; bucket k is month k+1's total over all holdings; the buckets sum to what the holdings pay into valid months |
| Dividends.AddPayouts | src/app/app5/DividendCalendarClient.tsx:144-148 | each listed month in 1..12 receives the per-payout amount once per listing; other months are ignored |
| Dividends.MonthAmountCounts | src/app/app5/DividendCalendarClient.tsx:144-148 | a month receives the per-payout amount times the number of times it is listed |
| Dividends.ValidAmountCounts | src/app/app5/DividendCalendarClient.tsx:141-148 | all buckets together receive the per-payout amount times the number of valid listings; invalid months still count in the divisor |
| Dividends.AllMonthsValidPaysAnnual | src/app/app5/DividendCalendarClient.tsx:141-148 | with every listed month valid, the buckets receive exactly shares * dividend, times the tax rate when adjusted |
| Dividends.ShortfallMonths | src/app/app5/DividendCalendarClient.tsx:336 | the count is at most the number of buckets; every bucket below the target counts them all, none below counts 0 |
| Dividends.ShortfallAppend | src/app/app5/DividendCalendarClient.tsx:336 | each bucket adds one to the count exactly when it is strictly below the target |
| Dividends.ToggleMonths | src/app/app5/DividendCalendarClient.tsx:196-198 | a listed month has every copy removed and every other month keeps all its copies in order; an absent month is added once and the list comes out ascending |
| Dividends.SortAsc | src/app/app5/DividendCalendarClient.tsx:198 | the numeric sort is ascending and a permutation |
| Dividends.Insert | src/app/app5/DividendCalendarClient.tsx:198 | adding a month to an ascending list and sorting gives an ascending list with exactly that month more |
| Dividends.InsertStrict | src/app/app5/DividendCalendarClient.tsx:198 | adding an absent month keeps the list strictly ascending, so months stay unique |
| Dividends.RemoveStrict | src/app/app5/DividendCalendarClient.tsx:197 | removing a month keeps the list strictly ascending |
| Dividends.SortSorted | src/app/app5/DividendCalendarClient.tsx:198 | sorting an ascending list changes nothing |
| Dividends.Remove | src/app/app5/DividendCalendarClient.tsx:197 | every copy of the month is gone and every other month keeps all its copies, in order |
| Dividends.RemoveInsert | src/app/app5/DividendCalendarClient.tsx:196-198 | removing a month that was just inserted gives the list back |
| Dividends.InsertRemove | src/app/app5/DividendCalendarClient.tsx:196-198 | inserting a month that was just removed from a strictly ascending list gives it back |
| Dividends.ToggleTwice | src/app/app5/DividendCalendarClient.tsx:196-198 | on a strictly ascending list, toggling keeps it strictly ascending, and toggling the same month twice restores it |
| Dividends.AddRow | src/app/app5/DividendCalendarClient.tsx:165-175 | one blank holding, with the clock value as its id, is appended and the rest is kept |
| Dividends.DeleteRow | src/app/app5/DividendCalendarClient.tsx:178-180 | exactly the holdings with the id are removed and every other holding keeps all its copies, in order |
| Dividends.DeleteAddedRow | src/app/app5/DividendCalendarClient.tsx:165-180 | deleting a just-added row with a fresh id gives the holdings back |
| Dividends.ApplyChangesOneField | src/app/app5/DividendCalendarClient.tsx:186 | an edit writes only its own field |
| Dividends.UpdateHolding | src/app/app5/DividendCalendarClient.tsx:183-189 | holdings with the id get the edit and no other field changes; other holdings are unchanged |
| Dividends.FindHolding | src/app/app5/DividendCalendarClient.tsx:193 | none iff no holding has the id; otherwise the first holding with that id |
| Dividends.TogglePayoutMonth | src/app/app5/DividendCalendarClient.tsx:192-201 | an unknown id changes nothing; otherwise the first match's months are toggled and written to every holding with the id |
| Dividends.TaxRateFor | src/app/app5/DividendCalendarClient.tsx:287-294 | the custom preset takes the custom rate; the other presets take their constant, which lies strictly between 0 and 1 |
| Dividends.HeaderLineClean | src/app/app5/DividendCalendarClient.tsx:205 | the header line is not blank and holds no line break |
| Dividends.MonthTexts | src/app/app5/DividendCalendarClient.tsx:212 | one text per month, in order, free of `;`, each reading back through `trim` and `parseInt(_, 10)` as its month |
| Dividends.EachMonthTextReadsBack | src/app/app5/DividendCalendarClient.tsx:253 | every month's `String` text is free of `;` and reads back through `trim` and `parseInt(_, 10)` |
| Dividends.NonEmpty | src/app/app5/DividendCalendarClient.tsx:259-265 | an empty optional cell reads as absent; any other cell is kept as it is |
| Dividends.ImportCsv | src/app/app5/DividendCalendarClient.tsx:236-272 | fewer than two non-blank lines, or no usable row, leaves the holdings unchanged; otherwise the rows read from the lines after the header, each id built from the clock reading taken at its line |
| Dividends.ReadRows | src/app/app5/DividendCalendarClient.tsx:246-267 | the loop keeps, in order, every line after the header that parses |
| Dividends.MonthTextReadsBack | src/app/app5/DividendCalendarClient.tsx:212-253 | a month written by `join` reads back through `trim` and `parseInt` |
| Dividends.NumbersOfTexts | src/app/app5/DividendCalendarClient.tsx:252-254 | parsing the month texts gives the months back |
| Dividends.MonthsRoundTrip | src/app/app5/DividendCalendarClient.tsx:212-254 | an integer month list survives `join(';')` and the import's month parsing |
| Dividends.ImportCells | src/app/app5/DividendCalendarClient.tsx:249-266 | eight comma-free cells joined by commas import cell by cell |
| Dividends.RowRoundTrip | src/app/app5/DividendCalendarClient.tsx:206-266 | an exported row imports as the same holding under its new id |
| Dividends.RowLineClean | src/app/app5/DividendCalendarClient.tsx:217 | an exported row line is not blank and has no line break |
| Dividends.ExportLinesClean | src/app/app5/DividendCalendarClient.tsx:205-217 | every exported line is non-blank and free of line breaks |
| Dividends.ExportLinesBack | src/app/app5/DividendCalendarClient.tsx:217-239 | splitting an export at line breaks and dropping blank lines gives the header and row lines back |
| Dividends.ImportsAs | src/app/app5/DividendCalendarClient.tsx:246-267 | text whose lines are a header and parseable rows imports as those rows |
| Dividends.FileReadsBack | src/app/app5/DividendCalendarClient.tsx:204-270 | a file with at least one exportable holding has two or more lines and imports as its holdings, each under the clock reading at its line followed by its line number |
| Dividends.ExportImport | src/app/app5/DividendCalendarClient.tsx:204-270 | exporting non-empty holdings and importing the file gives the same holdings back, in order, each under a new id from the clock reading at its line and its line number |
| Todo.Find | src/app/app1/page.tsx:40 | none iff no item has the id; otherwise the first item with it |
| Todo.FirstIndex | src/app/app1/page.tsx:40 | the position of the first item with the id, or the list length when none has it |
| Todo.WithoutId | src/app/app1/page.tsx:36 | exactly the items without the id, each with all its copies, in order |
| Seqs.FilterCounts | src/app/app1/page.tsx:36 | `filter` keeps every copy of an element it accepts and no copy of one it rejects |
| Todo.AddTodo | src/app/app1/page.tsx:23-33 | blank input changes nothing; otherwise exactly one open item with the trimmed text and the clock id is appended and the input is cleared; the completed flags stay right |
| Todo.DeleteTodo | src/app/app1/page.tsx:35-37 | every open item with the id is removed, in order; the done list is untouched |
| Todo.DeleteDoneItem | src/app/app1/page.tsx:47-49 | every done item with the id is removed, in order; the open list is untouched |
| Todo.CompleteTodo | src/app/app1/page.tsx:39-45 | an absent id changes nothing; otherwise the id leaves the open list and one completed copy with the same id and text ends the done list |
| Todo.IncompleteTodo | src/app/app1/page.tsx:51-57 | the mirror image: from done to the end of the open list, uncompleted |
| Todo.MovesKeepCount | src/app/app1/page.tsx:39-57 | with unique ids, complete and incomplete keep the combined count of both lists |
| Todo.MoveKeepsCount | src/app/app1/page.tsx:36 | in a list of distinct ids, removing a present id drops exactly one item and an absent id drops none |
| Todo.WithoutIdLength | src/app/app1/page.tsx:36 | removal shortens a list by the number of items with the id |
| Todo.CompleteThenIncomplete | src/app/app1/page.tsx:39-57 | completing and then un-completing a uniquely identified open item puts the same item back at the end of the open list |
| Todo.Search | src/app/app1/page.tsx:66-72 | exactly the items whose lower-cased text contains the lower-cased query, each with all its copies, in order |
| Todo.SearchEmptyQuery | src/app/app1/page.tsx:66-72 | an empty query keeps every item |
| Pomodoro.Tick | src/app/app10/App10Client.tsx:46-48 | while running, the countdown drops by exactly 1 when positive and never goes below 0; the invariant 0 <= seconds <= duration is kept |
| Pomodoro.Settle | src/app/app10/App10Client.tsx:55-62 | a running timer at 0 stops and schedules one advance; a running timer always has time left |
| Pomodoro.Flip | src/app/app10/App10Client.tsx:63-70 | the other phase at its full length, and one more completed session exactly when leaving focus |
| Pomodoro.Advance | src/app/app10/App10Client.tsx:62-72 | a scheduled advance flips the phase, counts a completed focus, and resumes running |
| Pomodoro.StartPause | src/app/app10/App10Client.tsx:75-77 | only the running flag toggles |
| Pomodoro.Reset | src/app/app10/App10Client.tsx:79-83 | focus, 1500 seconds, stopped; the completed count is unchanged |
| Pomodoro.Skip | src/app/app10/App10Client.tsx:85-95 | flips focus and break, counts a completed focus iff leaving focus, sets the next duration, stops |
| Pomodoro.StepKeepsInvariant | src/app/app10/App10Client.tsx:6-95 | every event keeps 0 <= seconds <= the phase's duration and never lowers the completed count |
| Pomodoro.AdvanceMatchesSkip | src/app/app10/App10Client.tsx:55-95 | reaching 0 and auto-advancing makes the same flip as skipping, but keeps running |
| Pomodoro.LastSecondOfFocus | src/app/app10/App10Client.tsx:46-73 | the last second of focus leads to a running 300-second break with one more completed session |
| Pomodoro.PadStart | src/app/app10/App10Client.tsx:24-25 | pads on the left to the width with the fill character and keeps the text at the end |
| Pomodoro.Pad2Digits | src/app/app10/App10Client.tsx:22-25 | a number below 100 pads to two digits that read back as the number |
| Pomodoro.FormatTimeReadsBack | src/app/app10/App10Client.tsx:21-27 | below 6000 the text is `MM:SS` with seconds below 60, and 60 * MM + SS is the input |
| Shooter.CollidesIffCommonPoint | src/app/app6/ShooterClient.tsx:273-280 | for boxes of positive size the test is symmetric and holds iff some point is strictly inside both, so boxes that merely touch do not collide |
| Shooter.MoveLeft | src/app/app6/ShooterClient.tsx:286-288 | x becomes x minus the speed, or 0 when that would be negative (`Math.max(0, x - speed)`); it stays at most the right limit and nothing else changes |
| Shooter.MoveRight | src/app/app6/ShooterClient.tsx:289-294 | x becomes x plus the speed, or the canvas width minus the ship's width when that would pass it (`Math.min(W - w, x + speed)`); nothing else changes |
| Shooter.Steered | src/app/app6/ShooterClient.tsx:286-294 | movement changes only the ship's x and keeps it within the canvas |
| Shooter.Volley | src/app/app6/ShooterClient.tsx:218-270 | 1, 2 or 3 bullets for firepower 1, 2 or above, at the ship's top edge, placed symmetrically about its centre |
| Shooter.Shot | src/app/app6/ShooterClient.tsx:213-271 | within the shot delay nothing changes; otherwise the time is recorded and the volley is appended after the existing bullets |
| Shooter.ShotCooldown | src/app/app6/ShooterClient.tsx:213-217 | a second shot within the delay of a shot does nothing, and the first one added bullets |
| Shooter.Risen | src/app/app6/ShooterClient.tsx:302-305 | every bullet moves up by its speed, and exactly those still below the top edge stay, with all their copies, in order |
| Shooter.Descended | src/app/app6/ShooterClient.tsx:308-319 | every enemy moves down; exactly those not past the bottom stay, with all their copies, in order; the game is over iff it was or some enemy passed the bottom |
| Shooter.Roam | src/app/app6/ShooterClient.tsx:322-327 | the boss moves by its speed, turns round at either edge, and on its track never leaves the screen |
| Shooter.Gathered | src/app/app6/ShooterClient.tsx:330-340 | every kept power-up is clear of the ship and above the bottom, every drifted one that is so is kept, and kept plus picked up is at most the input |
| Shooter.GatheredIsFilter | src/app/app6/ShooterClient.tsx:330-340 | the kept list is the drifted input filtered by the stay test |
| Shooter.GatheredFromInput | src/app/app6/ShooterClient.tsx:330-340 | the kept power-ups are a subsequence of the drifted input, with every copy of a staying one and none of the others |
| Shooter.Boosted | src/app/app6/ShooterClient.tsx:335 | each pickup adds 1 to the firepower, capped at 3, so firepower stays in 1..3 |
| Shooter.Collected | src/app/app6/ShooterClient.tsx:330-341 | the power-up filter changes only the power-ups and the firepower, by the number of pickups |
| Shooter.TensBetweenQuotients | src/app/app6/ShooterClient.tsx:350-355 | the number of kill counts that are multiples of 10 in a range is a difference of quotients |
| Shooter.StrikeAllCounts | src/app/app6/ShooterClient.tsx:344-360 | over one bullet's pass, each kill adds 10 to the score and 1 to the kill count; each enemy is kept or killed; a power-up drops exactly when the count reaches a multiple of 10 |
| Shooter.StrikeAllKeepsEnemies | src/app/app6/ShooterClient.tsx:344-360 | the enemies a pass keeps are alive and in range |
| Shooter.EnemyPass | src/app/app6/ShooterClient.tsx:344-360 | a bullet's pass over the enemies keeps the core invariant, never lowers the score and keeps the stage |
| Shooter.BossPass | src/app/app6/ShooterClient.tsx:363-373 | a hit costs the boss 1 hp; the last hp adds 500 to the score, advances the stage, removes the boss and resets the kill count; no hit, no change |
| Shooter.BulletHits | src/app/app6/ShooterClient.tsx:343-374 | one bullet against the enemies and then the boss keeps the core invariant and never lowers score or stage |
| Shooter.Resolved | src/app/app6/ShooterClient.tsx:343-374 | the hit loop over the first n bullets keeps the core invariant and never lowers score or stage |
| Shooter.Spawned | src/app/app6/ShooterClient.tsx:376-388 | nothing once a boss has spawned; otherwise, when the timer plus the frame time passes the delay one enemy is appended and the timer restarts at 0, and when it does not the enemies stay and the timer advances by the frame time; 30 kills bring a fresh boss and mark it spawned |
| Shooter.Updated | src/app/app6/ShooterClient.tsx:282-389 | `update` is a no-op while game over or paused |
| Shooter.KeyPressed | src/app/app6/ShooterClient.tsx:416-423 | P toggles the pause and is not recorded as held; any other key becomes held, and no other key changes |
| Shooter.KeyReleased | src/app/app6/ShooterClient.tsx:425-427 | the key is no longer held and no other key changes |
| Shooter.InitialInv | src/app/app6/ShooterClient.tsx:56-78 | the starting record satisfies the invariant, with the ship at (280, 700) |
| Shooter.MovesCore | src/app/app6/ShooterClient.tsx:286-305 | steering, shooting and the bullet filter keep the core invariant and touch no counter |
| Shooter.DescendedCore | src/app/app6/ShooterClient.tsx:308-319 | the enemy filter keeps the core invariant |
| Shooter.RoamedCollectedCore | src/app/app6/ShooterClient.tsx:322-341 | the boss move and the power-up filter keep the core invariant: firepower in 1..3, boss on screen |
| Shooter.SpawnedInv | src/app/app6/ShooterClient.tsx:175-211 | spawning with random values in [0, 1) restores the full invariant, including fewer than 30 kills without a boss |
| Shooter.UpdatedInv | src/app/app6/ShooterClient.tsx:282-389 | a whole frame keeps the invariant (ship in bounds, firepower 1..3, live enemies, boss iff spawned, score a multiple of 10) and never lowers score or stage |
| Shooter.Game.constructor | src/app/app6/ShooterClient.tsx:56-78 | the record starts in the initial state |
| Shooter.Game.Restart | src/app/app6/ShooterClient.tsx:443-471 | restart restores the initial record with score 0 and stage 1 |
| Shooter.Game.KeyDown | src/app/app6/ShooterClient.tsx:416-423 | the key-down handler updates the record as KeyPressed says |
| Shooter.Game.KeyUp | src/app/app6/ShooterClient.tsx:425-427 | the key-up handler updates the record as KeyReleased says |
| Shooter.Game.Steer | src/app/app6/ShooterClient.tsx:286-294 | the in-place movement matches Steered |
| Shooter.Game.Shoot | src/app/app6/ShooterClient.tsx:213-271 | the in-place push matches Shot |
| Shooter.Game.MoveBullets | src/app/app6/ShooterClient.tsx:302-305 | the in-place bullet filter matches Risen |
| Shooter.Game.MoveEnemies | src/app/app6/ShooterClient.tsx:308-319 | the in-place enemy filter matches Descended |
| Shooter.Game.MoveBoss | src/app/app6/ShooterClient.tsx:322-327 | the in-place boss move matches Roam |
| Shooter.Game.CollectPowerUps | src/app/app6/ShooterClient.tsx:330-341 | the in-place power-up filter matches Collected |
| Shooter.Game.StrikeEnemies | src/app/app6/ShooterClient.tsx:344-360 | the filter loop over the enemies for one bullet matches EnemyPass |
| Shooter.Game.StrikeBoss | src/app/app6/ShooterClient.tsx:363-373 | the boss check for one bullet matches BossPass |
| Shooter.Game.ResolveHits | src/app/app6/ShooterClient.tsx:343-374 | the loop over all bullets matches Resolved over every bullet |
| Shooter.Game.Spawn | src/app/app6/ShooterClient.tsx:376-388 | the in-place spawning matches Spawned |
| Shooter.Game.Frame | src/app/app6/ShooterClient.tsx:285-388 | a running frame performs the stages in source order |
| Shooter.Game.Update | src/app/app6/ShooterClient.tsx:282-389 | one frame matches Updated, keeps the invariant, and never lowers score or stage |
| Text.Trim | src/app/app1/page.tsx:24-27 | the input with white space stripped from both ends: empty iff the input is all white space, otherwise neither starting nor ending with white space |
| Text.TrimIdempotent | src/app/app1/page.tsx:24-27 | trimming twice is trimming once |
| Text.ToLower | src/app/app1/page.tsx:67 | length is kept, each ASCII or full-width capital moves up 32 code points to its small letter, no capital remains, and other characters are unchanged |
| Text.ToLowerIdempotent | src/app/app8/App8Client.tsx:130 | lower-casing twice is lower-casing once |
| Text.SplitJoin | src/app/app5/DividendCalendarClient.tsx:212-253 | splitting a join of separator-free parts gives the parts back |
| Text.JoinSplit | src/app/app5/DividendCalendarClient.tsx:249 | joining the split pieces gives the text back |
| Text.Split | src/app/app5/DividendCalendarClient.tsx:249 | at least one piece, and no piece contains the separator |
| Text.NatToString | src/app/app5/DividendCalendarClient.tsx:257 | a non-empty run of decimal digits whose value is the number, with no leading zero except for 0 itself |
| Text.IntToString | src/app/app5/DividendCalendarClient.tsx:212 | a non-empty run of digits with an optional leading minus |
| Text.ParseInt | src/app/app5/DividendCalendarClient.tsx:253 | a number iff a digit follows the leading white space and sign; its magnitude is the value of the whole digit run and its sign the sign read |
| Text.ParseFloat | src/app/app5/DividendCalendarClient.tsx:260-262 | no number iff no digit follows the white space and sign, either at once or after a point |
| Text.ParseFloatDecimal | src/app/app4/App4Client.tsx:239 | `parseFloat` of an optional sign, digits `a`, a point and digits `b` is a plus b over 10 to the length of b, negated after a minus |
| Text.ParseFloatWhole | src/app/app5/DividendCalendarClient.tsx:260-262 | `parseFloat` of an optional sign and digits is the digits' value, negated after a minus |
| Text.ParseIntOfIntToString | src/app/app5/DividendCalendarClient.tsx:253 | `parseInt(String(n))` is n |
| Text.ParseIntAnyRadix | src/app/app8/App8Client.tsx:195-196 | without a radix, `0x` or `0X` after the sign reads the hexadecimal run (a number iff one hexadecimal digit follows), and anything else reads as `parseInt(_, 10)` |
| Text.ParseIntAnyRadixOfIntToString | src/app/app8/App8Client.tsx:195-196 | radix-less `parseInt(String(n))` is n |
| Text.ParseFloatOfIntToString | src/app/app5/DividendCalendarClient.tsx:260-262 | `parseFloat(String(n))` is n |

## Left out

- Rendering is not modelled: canvas drawing, JSX, the Chart.js datasets, and `highlightKeyword`, which builds a regular expression from raw user text.
- I/O is not modelled: `fetch`, the IndexedDB cache, the XML parser call, Papa.parse/unparse, FileReader, Blob downloads and localStorage. The model starts from already-parsed input and ends at the data it would write.
- Timers and clocks become parameters: `Date.now()`, `setInterval`, `setTimeout` and `requestAnimationFrame`.
  - The shooter's `now` and `deltaTime` are arguments of `Update`.
  - The to-do and new-row dividend ids take the clock value as an argument; the dividend import takes a function `clock` giving the reading at each line.
  - The timer callbacks are explicit transitions: `Tick`, `Advance` and `Tetris.Game.Tick`.
- Randomness becomes parameters: the template drawn by `createPiece` is the `Kind` argument, and an enemy's x and speed come from `r1` and `r2` in [0, 1).
- The React effect re-subscription in the shooter, and the score and stage being React state apart from the game record, are plumbing. Score and stage live in the record's `Progress`.
- Pomodoro: the 500 ms timeout cannot be cancelled by reset or skip in the source. The model keeps a count of scheduled advances, so an advance can still fire after a reset, as it does in the source.
- Numbers are exact reals, not floating point, and no rounding is stated. Left out are averages, YOC, achievement rate, progress ratio, heatmap intensity and `toLocaleString`.
- Number-to-text conversion in the dividend export is a parameter `fmt`. The export round trip assumes each number reads back through `parseFloat`.
- Text.ToLower: lower-cases ASCII and full-width Latin capitals only, because the apps' inputs are Japanese and Latin text; other scripts' case mapping is not modelled.
- Text.ParseFloat: models decimal digits, a sign, a fraction and an exponent, but not the `Infinity` literal. The value read is stated by lemmas for signed digit runs with or without a point (`ParseFloatDecimal`, `ParseFloatWhole`); texts with an exponent or trailing characters are read by the definition but no lemma states their value.
- ProgramSearch.HourOf: takes a fixed time-zone offset, so daylight-saving changes are not modelled.
- `Date` values are epoch milliseconds; an unparsable start becomes an invalid date, counted outside the 24 buckets.
- Shooter.Gathered: the count of pickups is stated separately from the kept list, as an upper bound on how many power-ups can remain.
- Shooter.Updated: the frame is stated stage by stage; its meaning is carried by `UpdatedInv` and by the stage lemmas, not by this function's contract.
- Tetris.Game.Tick and Tetris.Game.KeyListener: the 1000 ms timer and the key dispatch are methods called with the next piece's `Kind`; the source draws it at random when it needs one.
- The Mandelbrot viewer, the 3D gear viewer and the synthesizer are floating-point numerics or audio wrappers and are not part of this model. So are routing and configuration.
