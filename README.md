# Calendar visualizer core, in Dafny

The calendar visualizer reads a team roster (a forest of employees with office
locations and direct reports) and two calendar feeds: PTO and Travel. It maps each
event title to employees or holiday tokens, then writes a spreadsheet. The sheet has one row per
employee, in hierarchy order, and one column per business day under merged
week and month headers. This project models and proves the engine between the
I/O calls:

- `Roster` (`roster.dfy`): the employee forest and `flatten_employees`, a
  recursive depth-first pre-order walk that appends `(name, location)` records.
- `Calendar` (`calendar.dfy`): dates as day ordinals (Python's `toordinal`);
  `weekday` as `(d + 6) % 7`; the inclusive date range and its Monday-to-Friday days.
- `HeaderLayout` (`header.dfy`): grouping the business days by month key and
  week key in insertion-ordered dictionaries, and the header loop with its
  column counter. The loop emits row-3 day cells, row-2 week merges and row-1
  month merges. The key and label functions (`strftime` in the program) are
  parameters.
- `Resolution` (`resolution.dfy`): the steps in the middle of `main`. These are
  the window filter, association through the resolver mapping (an arbitrary
  partial map), expansion of events over `[start, end)`, and the holiday
  fan-out by location. Then come routing of roster names to PTO or Travel by
  calendar, and the fold into `processed_data`, overwriting in the order P, T, H.
- `Rendering` (`rendering.dfy`): the recursive row writer with its row counter.
  It also covers the cell fills and `generate_excel` as a whole. The worksheet
  is a log of day cells, merges and rows.
- `SeqFacts` (`seqfacts.dfy`): small facts about sequences used by the proofs.

Loops and in-place updates are methods with loop invariants, proved against
functions that state what they compute. Appending to a list, extending a list,
writing a cell and overwriting a dictionary entry are modelled as reassigning
a `seq` or `map` value that is threaded through the method.

In these places the model follows the code rather than what a reader might expect:

- Matrix days are not clipped to the window. An event that overlaps the window
  edge contributes all of its days, including those outside the window.
- For each employee, the last write wins in the order PTO, then Travel, then
  Holiday, so the precedence is H over T over P. Employees who share a name
  write into one entry in roster order, so a later employee's PTO can
  overwrite an earlier one's Holiday.
- Employee names are not assumed unique. `employee_map` keeps the last employee
  of a name, and `processed_data` shares one entry per name (`Resolution.LastIndex`,
  `Resolution.Matrix`). The per-employee status lemmas assume distinct names.
- The header follows dictionary insertion order, not calendar order. The two
  coincide when equal keys come in unbroken runs (`HeaderLayout.KeysContiguous`).
  This is true of the real `%B %Y` and `W%U` keys.

## Model

| member | source | states |
|---|---|---|
| Roster.FlattenEmployees | main.py:35-49 | Returns the `(name, location)` records of the depth-first pre-order walk of the forest, one per node (length = node count). |
| Roster.ParseReports | main.py:40-47 | Appends to the list built so far exactly the records of the pre-order walk of `report_list`, each node followed by its reports. |
| Roster.WalkLength | main.py:40-47 | The walk visits every node exactly once: its length is the number of nodes of the forest. |
| Roster.WalkAppend | main.py:41-47 | Walking two forests one after the other is walking their concatenation: sibling subtrees appear in input order. |
| Roster.WalkRoot | main.py:41-47 | The `i`-th root is visited at depth `d`, right after the subtrees of the roots before it (at position = their node count). |
| Roster.WalkSubtree | main.py:40-47 | Every visited person is followed immediately by the walk of their reports, one level deeper: a manager precedes its reports and each subtree is contiguous. |
| Roster.EntriesAt | main.py:42-45 | Record `k` is the name and location of the `k`-th visited person. |
| Roster.ExampleOrder | main.py:35-49 | For A→[B, C], B→[D] the walk is A, B, D, C at depths 0, 1, 2, 1. |
| Calendar.Weekday | main.py:142 | `weekday()` lies in 0..6. |
| Calendar.KeepBusinessDays | main.py:142 | The comprehension keeps exactly the Monday-to-Friday days of its input and never adds days. |
| Calendar.KeepBusinessDaysIncreasing | main.py:142 | Keeping business days preserves increasing order. |
| Calendar.WeekdaysExactly | main.py:141-142 | `Calendar.Weekdays`, the business days kept from `Calendar.AllDates` (the `all_dates` comprehension), holds exactly the business days of `[start, end]` inclusive, strictly increasing; a range without business days gives `[]`. |
| HeaderLayout.AddToWeeksDays | main.py:147 | Appending a day to the week dictionary (`HeaderLayout.AddToWeeks`) adds exactly that day to the days it holds. |
| HeaderLayout.AddToWeeksNew | main.py:147 | A new week key opens a new entry at the end, holding just the day (insertion order). |
| HeaderLayout.AddToWeeksLast | main.py:147 | A day whose week key is the last entry's is appended to that entry's list. |
| HeaderLayout.AddToMonthsDays | main.py:147 | Appending a day to the month dictionary (`HeaderLayout.AddToMonths`) adds exactly that day to the days it holds. |
| HeaderLayout.AddToMonthsNew | main.py:147 | A new month key opens a new entry at the end with one week holding the day. |
| HeaderLayout.AddToMonthsLast | main.py:147 | A day whose month key is the last entry's goes into that month's week dictionary. |
| HeaderLayout.Step | main.py:146-147 | With contiguous keys, one grouping step keeps the dictionaries holding the days seen so far in input order. |
| HeaderLayout.GroupFoldDays | main.py:145-147 | The grouped dictionaries hold exactly the days grouped, each as often as it occurs. |
| HeaderLayout.GroupFoldOrdered | main.py:145-147 | With contiguous keys, reading the dictionaries month by month and week by week gives the days in input order. |
| HeaderLayout.AddToWeeksAt | main.py:147 | Appending under a week key already present updates that entry in place and leaves the others unchanged. |
| HeaderLayout.AddToMonthsAt | main.py:147 | Appending under a month key already present updates that month's weeks in place and leaves the other months unchanged. |
| HeaderLayout.AddToWeeksKeyed | main.py:147 | Appending a day under its own week key keeps every week entry non-empty, holding only days of its month and week key, with no week key twice. |
| HeaderLayout.AddToMonthsKeyed | main.py:147 | Appending a day under its own month and week keys keeps the dictionary grouped by keys (`HeaderLayout.GroupedByKeys`). |
| HeaderLayout.GroupFoldKeyed | main.py:145-147 | Whatever the keys, the dictionaries built from the days are grouped by keys: each day sits under its own month key and week key, no key occurs twice, no entry is empty. |
| HeaderLayout.GroupByMonthWeek | main.py:145-147 | The grouping loop puts every weekday into the dictionaries exactly once, each under its own month key and week key, with distinct keys and no empty entry; with contiguous keys, in input order (calendar order for the increasing weekdays). |
| HeaderLayout.DayCellsAt | main.py:158-162 | The `c`-th day cell is at column `col + c`, stands for the `c`-th day and carries its label. |
| HeaderLayout.WriteDayCells | main.py:158-162 | The day loop writes one labelled cell per day at consecutive columns and advances the counter by the number of days. |
| HeaderLayout.WriteWeeks | main.py:156-168 | The week loop writes the day cells of all weeks in order and the week merges, and advances the counter by the number of days. |
| HeaderLayout.MonthMergeAt | main.py:170-174 | The month guard merges columns from the month's first to `current_col - 1` exactly when the month emitted a column. |
| HeaderLayout.LayoutStep | main.py:154-174 | One pass of the month loop extends the cells, merges and column counter of the first `mi` months to those of the first `mi + 1`. |
| HeaderLayout.LayoutHeader | main.py:150-174 | The header loop writes the day cells of all grouped days from column 2 and, month by month, the merges (cells and merges are kept as two logs, so their relative order is not represented); it ends with `current_col = 2 + number of days`. |
| HeaderLayout.WeekMergeShape | main.py:164-168 | A week's merge (`HeaderLayout.WeekMerge`) is merged on row 2 over exactly its own columns, captioned with its key, and only when it has days. |
| HeaderLayout.MonthMergeShape | main.py:170-174 | A month's merge (`HeaderLayout.MonthMerge`) is merged on row 1 over exactly its own columns, captioned with its key, and only when it emitted a column. |
| HeaderLayout.WeekMergesShape | main.py:156-168 | A month's week merges lie on row 2 and tile its columns with no gap or overlap. |
| HeaderLayout.WeekSpan | main.py:156-162 | The columns used by a month's weeks number exactly its days. |
| HeaderLayout.MonthSpan | main.py:154-162 | The columns used by all months number exactly the grouped days. |
| HeaderLayout.MonthRows | main.py:154-174 | A month's week merges on row 2 and its month merge on row 1 both tile the same columns: the month span is the union of its week spans. |
| HeaderLayout.HeaderRows | main.py:154-174 | The row-2 merges tile `[col, col + days)` without gaps or overlaps, and so do the row-1 merges. |
| HeaderLayout.MonthBlock | main.py:154-174 | The merges of month `i` (its weeks, then itself) come after those of earlier months and before those of later months, at the month's own column. |
| HeaderLayout.NoDaysNoMerges | main.py:164-171 | With no days there are no week merges and no month merges. |
| HeaderLayout.HeaderShape | main.py:141-174 | One day cell per weekday at columns 2, 3, ...; row-2 and row-1 merges each tile `[2, 2 + days)`; an empty range has no merges. |
| HeaderLayout.WriteHeader | main.py:141-174 | The header of the window: a dictionary grouping exactly the weekdays by their own month and week keys; one labelled cell per weekday at columns 2, 3, ... (in calendar order under contiguous keys); the merges of that dictionary, captioned with its keys and tiling rows 1 and 2; `current_col = 2 + |weekdays|`; no merges for an empty range. |
| Resolution.FilterToWindow | main.py:246-249 | Keeps exactly the events passing `Resolution.InWindow`, i.e. with `start < end_date` and `end > start_date`, never adding any. |
| Resolution.FilterCounts | main.py:246-249 | Each overlapping event is kept as often as it occurs; the others are dropped. |
| Resolution.FilterAppend | main.py:246-249 | The filter keeps input order: filtering a concatenation concatenates the filtered parts. |
| Resolution.AssociateEvents | main.py:261-268 | Each event gets the list its name maps to, or `[]` without a key (`Resolution.Targets`); exactly the names without a key are reported unmatched, and a name whose key maps to `[]` is not. |
| Resolution.EventDatesExactly | main.py:285 | The expansion `Resolution.EventDates` covers exactly `start + i` for `0 <= i < end - start`, each day once and in increasing order; the end day is excluded. |
| Resolution.LastIndex | main.py:279 | `employee_map[name]` is the last employee of that name; -1 when there is none. |
| Resolution.TokenDays | main.py:287-298 | A holiday token adds the days to the Holiday list of the employees its location rule reaches; a roster name adds them to PTO for 'P' and to Travel for 'T'; anything else adds nothing. |
| Resolution.TokensDays | main.py:287-298 | The tokens of one event add its days to an employee's Holiday list iff some token reaches them, and to PTO or Travel by calendar iff some token names them. |
| Resolution.ExtendHoliday | main.py:288-295 | A holiday token's loop extends the Holiday list of exactly the employees the token reaches. |
| Resolution.ApplyToken | main.py:287-298 | One token updates every employee's lists by what that token adds. |
| Resolution.ApplyEvent | main.py:281-298 | One tagged event updates every employee's lists by what its tokens add, token by token. |
| Resolution.FanOut | main.py:274-298 | The fan-out loop leaves each employee's lists equal to `Resolution.ExpectedAll`, starting from empty lists. |
| Resolution.EventDays | main.py:281-298 | What one tagged event adds, list by list. An event with no targets adds nothing. |
| Resolution.ExpectedDays | main.py:274-298 | A day is on an employee's Holiday (PTO, Travel) list iff some tagged event covers it and reaches them (names them, from the 'P' ('T') calendar). |
| Resolution.ExpectedAppend | main.py:281-298 | The lists after two batches of events are the lists of the first batch extended by those of the second. |
| Resolution.PaintAt | main.py:304-306 | Writing a code over a list of days (`Resolution.Paint`) sets exactly those days to the code and leaves the others unchanged. |
| Resolution.PaintDays | main.py:304-306 | The overwriting loop over a list of days computes that write. |
| Resolution.CodesAt | main.py:303-306 | After the three loops (`Resolution.Codes`), a day has 'H' if it is a holiday, else 'T' if travel, else 'P' if PTO, and is absent otherwise. |
| Resolution.Matrix | main.py:302-306 | Every flat employee's name is a key of `processed_data`. |
| Resolution.MatrixKeys | main.py:302 | The keys of `processed_data` are exactly the roster names. |
| Resolution.BuildMatrix | main.py:302-306 | The matrix loop computes the fold, with one, possibly empty, entry per roster name. |
| Resolution.MatrixEntry | main.py:302-306 | With distinct names, an employee's entry is the H/T/P overwrite of their own lists. |
| Resolution.MatrixDays | main.py:302-306 | A day is in a name's entry iff it is on some list of some employee with that name (names may repeat). |
| Resolution.MatrixSameDays | main.py:302-306 | Only which days the lists hold matters, not their order or repetitions. |
| Resolution.ResolveEvents | main.py:246-306 | The whole step computes `Resolution.Resolve`: no result when no event overlaps the window, else the matrix and the unmatched names. |
| Resolution.NoEventsExactly | main.py:253-254 | Nothing is produced iff no event overlaps the window. |
| Resolution.UnmatchedExactly | main.py:256-268 | A name is reported unmatched iff it has no key in the mapping and titles some event overlapping the window. |
| Resolution.UnmatchedTwice | main.py:261-268 | Associating the same events twice reports the same unmatched names. |
| Resolution.MatrixTwice | main.py:274-306 | Fanning out the same tagged events twice yields the same matrix. |
| Resolution.ResolveTwice | main.py:246-306 | Processing every event twice yields the same outcome: duplicate days are harmless. |
| Resolution.ScheduledTagged | main.py:246-268 | Some overlapping event schedules the day for the employee iff some tagged event in the filtered list does. |
| Resolution.ListedIffScheduled | main.py:274-298 | A day is on an employee's PTO, Travel or Holiday list after the fan-out iff some event overlapping the window schedules it there. |
| Resolution.StatusOfDay | main.py:246-306 | With distinct names, every employee has an entry; day `d` is in it iff some overlapping event schedules it; the code is 'H' over 'T' over 'P'. |
| Rendering.WriteCells | main.py:186-197 | The column loop writes one cell per weekday at columns 2, 3, ..., each filled by that day's code. |
| Rendering.FillMeaning | main.py:184-196 | Reading the code with `Rendering.EntryOf` and `Rendering.CodeOf` and the fill with `Rendering.FillFor`, a cell gets the PTO, Travel or Holiday fill iff its code is 'P', 'T' or 'H'; an employee missing from `processed_data` gets no fills. |
| Rendering.RowsOfPerson | main.py:178-203 | A person's rows are their own row, then the rows of their reports one level deeper, in order. |
| Rendering.WriteEmployeeRow | main.py:178-203 | The recursive writer appends the rows of the person's subtree in pre-order from `current_row` and advances the counter by the subtree's size. |
| Rendering.WriteRows | main.py:205-206 | Writing each root at indent 0 from row 4 produces the rows of the whole pre-order walk, and the row counter ends at 4 plus the number of people. |
| Rendering.GenerateExcel | main.py:141-206 | One labelled day cell per weekday at column `2 + c` (in calendar order under contiguous keys, matching the row cells of those columns); merges of a dictionary grouping the weekdays by their keys, tiling rows 1 and 2 over the day columns; rows from 4 following the pre-order walk, and final `current_row = 4 + node count`. |
| Rendering.RowsLayout | main.py:177-206 | Row `k` is sheet row `4 + k` for the `k`-th person of the walk, indented by their depth; cell `i` is column `2 + i` for `weekdays[i]`. |
| Rendering.FillFromEntry | main.py:184-196 | If an entry holds the H/T/P precedence for a day, the cell fill follows it. |
| Rendering.CellOfRow | main.py:184-196 | The fill of cell `i` of row `k` is given by the code of the `k`-th person on `weekdays[i]`. |
| Rendering.CellFromEvents | main.py:184-196 | End to end, with distinct names: the cell for person `k` and weekday `i` is Holiday-filled if a holiday event reaches them that day, else Travel-filled, else PTO-filled, else unfilled. |

## Left out

- Loading the roster file, fetching and parsing the ICS feeds, and the language-model call that builds the mapping. These are file, network and foreign I/O. The roster, the events and the mapping are inputs.
- A mapping value that is JSON `null`, which the program reports as unmatched. The model's mapping is `map<string, seq<string>>` and has no such value.
- openpyxl presentation: fill colours, borders, alignment, column widths, the `Employee` caption of cell A3, and saving the workbook. Fills are kept as categories and indents as numbers.
- The text produced by `strftime` for month keys, week keys and day labels. These are library formatting, so they are parameters.
- Command-line parsing, `date.today()` and the `months * 30` window computation. The window is an input.
- Progress and warning prints. They are console output only.
- HeaderLayout.GroupByMonthWeek: calendar order of the grouped days is proved only when keys come in unbroken runs. This is not derived from the civil calendar, because the keys are abstract.
- Recursion depth: `parse_reports` and `write_employee_row` recurse once per level of the roster, so Python raises `RecursionError` on a roster nested about 1000 levels deep. The model has no such bound: `Roster.ParseReports` and `Rendering.WriteEmployeeRow` handle any depth.
- Resolution.StatusOfDay: assumes distinct employee names. With repeated names, `Resolution.MatrixDays` describes the shared entries instead.
- Rendering.CellFromEvents: assumes distinct employee names, as `Resolution.StatusOfDay` does.
- Mutation of the event dictionaries (adding `employee`) and of the employee records (adding `PTO`, `Travel`, `Holiday`). These are modelled as separate tagged and bucket values, so aliasing between them is not modelled.
