/**
 The employee rows of the calendar sheet (lines 177-206 of `generate_excel`):
 from row 4 down, one row per person of the roster forest in depth-first
 pre-order, the name in column 1 indented by the person's depth, and under each
 business-day column a cell filled by that day's status code.
 */
module Rendering {
  import opened Roster
  import opened Calendar
  import opened HeaderLayout
  import opened Resolution
  import opened SeqFacts

  /** The fill categories of the sheet: the orange PTO fill, the blue Travel
      fill, the grey Holiday fill, or none. Colours are left out. */
  datatype Fill = NoFill | PtoFill | TravelFill | HolidayFill

  /** A grid cell under a day column: the column, the day it stands for, its fill. */
  datatype GridCell = GridCell(col: int, day: int, fill: Fill)

  /** One employee row: its sheet row, the name in column 1, the indent level,
      and the grid cells from column 2 on. */
  datatype Row = Row(row: int, name: string, indent: nat, cells: seq<GridCell>)

  /** The `if`/`elif` chain of lines 191-196. */
  function FillFor(code: string): Fill
  {
    if code == "P" then PtoFill
    else if code == "T" then TravelFill
    else if code == "H" then HolidayFill
    else NoFill
  }

  /** `processed_data.get(name, {})`. */
  function EntryOf(data: map<string, map<int, string>>, name: string): map<int, string>
  {
    if name in data then data[name] else map[]
  }

  /** `employee_events.get(report_date, "")`. */
  function CodeOf(entry: map<int, string>, day: int): string
  {
    if day in entry then entry[day] else ""
  }

  /** The grid cells of a row whose status entry is `entry`: column `2 + i`
      stands for `weekdays[i]` and is filled by its code. */
  function CellsFor(entry: map<int, string>, weekdays: seq<int>): (cells: seq<GridCell>)
    ensures |cells| == |weekdays|
  {
    seq(|weekdays|, i requires 0 <= i < |weekdays| => GridCell(2 + i, weekdays[i], FillFor(CodeOf(entry, weekdays[i]))))
  }

  /** The row a visit of the walk gets when it is written at `row`. */
  function RowFor(v: Visit, row: int, data: map<string, map<int, string>>, weekdays: seq<int>): Row
  {
    Row(row, v.node.name, v.depth, CellsFor(EntryOf(data, v.node.name), weekdays))
  }

  /** The rows of a walk written from `firstRow` down, one per visit. */
  function RowsFor(vs: seq<Visit>, firstRow: int, data: map<string, map<int, string>>, weekdays: seq<int>): (rows: seq<Row>)
    ensures |rows| == |vs|
  {
    seq(|vs|, k requires 0 <= k < |vs| => RowFor(vs[k], firstRow + k, data, weekdays))
  }

  lemma {:induction false} RowsForAppend(a: seq<Visit>, b: seq<Visit>, firstRow: int, data: map<string, map<int, string>>, weekdays: seq<int>)
    ensures RowsFor(a + b, firstRow, data, weekdays) == RowsFor(a, firstRow, data, weekdays) + RowsFor(b, firstRow + |a|, data, weekdays)
  {
  }

  /** The filled column loop of lines 186-197, advancing `col_idx` from 2. */
  method WriteCells(entry: map<int, string>, weekdays: seq<int>) returns (cells: seq<GridCell>)
    ensures cells == CellsFor(entry, weekdays)
  {
    cells := [];
    var colIdx := 2;
    for i := 0 to |weekdays|
      invariant colIdx == 2 + i
      invariant cells == CellsFor(entry, weekdays[..i])
    {
      var reportDate := weekdays[i];
      var eventType := if reportDate in entry then entry[reportDate] else "";
      var fill := NoFill;
      if eventType == "P" {
        fill := PtoFill;
      } else if eventType == "T" {
        fill := TravelFill;
      } else if eventType == "H" {
        fill := HolidayFill;
      }
      cells := cells + [GridCell(colIdx, reportDate, fill)];
      colIdx := colIdx + 1;
    }
    assert weekdays[..|weekdays|] == weekdays;
  }

  /** Writing the rows of one more root of a forest: they follow the rows of
      the roots before it, which take up as many rows as those roots have people. */
  lemma {:induction false} RowsPrefix(f: seq<Employee>, i: nat, d: nat, firstRow: int, data: map<string, map<int, string>>, weekdays: seq<int>)
    requires i < |f|
    ensures RowsFor(Walk(f[..i + 1], d), firstRow, data, weekdays)
         == RowsFor(Walk(f[..i], d), firstRow, data, weekdays)
            + RowsFor(Walk([f[i]], d), firstRow + ForestSize(f[..i]), data, weekdays)
    ensures ForestSize(f[..i + 1]) == ForestSize(f[..i]) + Size(f[i])
  {
    assert f[..i + 1] == f[..i] + [f[i]];
    WalkAppend(f[..i], [f[i]], d);
    ForestSizeAppend(f[..i], [f[i]]);
    assert [f[i]][1..] == [];
    WalkLength(f[..i], d);
    RowsForAppend(Walk(f[..i], d), Walk([f[i]], d), firstRow, data, weekdays);
  }

  /** One turn of a loop over the roots of `f` that appends each root's rows to
      `head`: the rows of the next root continue those of the roots before it. */
  lemma {:induction false} RowsStep(head: seq<Row>, f: seq<Employee>, i: nat, d: nat, firstRow: int,
                                    data: map<string, map<int, string>>, weekdays: seq<int>)
    requires i < |f|
    ensures head + RowsFor(Walk(f[..i], d), firstRow, data, weekdays)
                 + RowsFor(Walk([f[i]], d), firstRow + ForestSize(f[..i]), data, weekdays)
         == head + RowsFor(Walk(f[..i + 1], d), firstRow, data, weekdays)
    ensures ForestSize(f[..i + 1]) == ForestSize(f[..i]) + Size(f[i])
  {
    RowsPrefix(f, i, d, firstRow, data, weekdays);
    ConcatAssoc(head, RowsFor(Walk(f[..i], d), firstRow, data, weekdays),
                RowsFor(Walk([f[i]], d), firstRow + ForestSize(f[..i]), data, weekdays));
  }

  /** A person's rows: their own row, then their reports' rows one level deeper. */
  lemma {:induction false} RowsOfPerson(e: Employee, d: nat, row: int, data: map<string, map<int, string>>, weekdays: seq<int>)
    ensures RowsFor(Walk([e], d), row, data, weekdays)
         == [Row(row, e.name, d, CellsFor(EntryOf(data, e.name), weekdays))]
            + RowsFor(Walk(e.reports, d + 1), row + 1, data, weekdays)
  {
    var top := [Visit(e, d)];
    assert [e][1..] == [];
    assert Walk([e], d) == top + Walk(e.reports, d + 1);
    RowsForAppend(top, Walk(e.reports, d + 1), row, data, weekdays);
  }

  /** `write_employee_row` (lines 178-203): writes the person's row at
      `currentRow` with their name, indent and filled cells, advances the row
      counter, then writes each report one level deeper. The rows written are
      those of the walk of the person's subtree, from `currentRow` down, and
      the counter advances by the subtree's size. */
  method WriteEmployeeRow(rows: seq<Row>, currentRow: int, employee: Employee, indentLevel: nat,
                          data: map<string, map<int, string>>, weekdays: seq<int>)
    returns (rows': seq<Row>, currentRow': int)
    ensures rows' == rows + RowsFor(Walk([employee], indentLevel), currentRow, data, weekdays)
    ensures currentRow' == currentRow + Size(employee)
    decreases employee
  {
    var cells := WriteCells(EntryOf(data, employee.name), weekdays);
    rows' := rows + [Row(currentRow, employee.name, indentLevel, cells)];
    currentRow' := currentRow + 1;
    ghost var head := rows';
    var reports := employee.reports;
    for i := 0 to |reports|
      invariant currentRow' == currentRow + 1 + ForestSize(reports[..i])
      invariant rows' == head + RowsFor(Walk(reports[..i], indentLevel + 1), currentRow + 1, data, weekdays)
    {
      rows', currentRow' := WriteEmployeeRow(rows', currentRow', reports[i], indentLevel + 1, data, weekdays);
      RowsStep(head, reports, i, indentLevel + 1, currentRow + 1, data, weekdays);
    }
    assert reports[..|reports|] == reports;
    RowsOfPerson(employee, indentLevel, currentRow, data, weekdays);
    ConcatAssoc(rows, [Row(currentRow, employee.name, indentLevel, cells)],
                RowsFor(Walk(reports, indentLevel + 1), currentRow + 1, data, weekdays));
  }

  /** The finished sheet: the header's day cells and merges, and the employee rows. */
  datatype Sheet = Sheet(dayCells: seq<DayCell>, merges: seq<Merge>, rows: seq<Row>)

  /** `generate_excel` without its styling and saving. The header of the window
      `[startDate, endDate]`: one labelled cell per business day from column 2,
      in calendar order when the keys are contiguous, under the merges of the
      dictionary that groups those days by their keys. Then, from row 4, one
      row per person of the forest in pre-order with indent equal to depth, the
      row counter ending at 4 plus the number of people. */
  method GenerateExcel(data: map<string, map<int, string>>, employees: seq<Employee>, startDate: int, endDate: int,
                       monthKey: int -> string, weekKey: int -> string, dayLabel: int -> string)
    returns (sheet: Sheet, currentRow: int)
    ensures |sheet.dayCells| == |Weekdays(startDate, endDate)|
    ensures forall c :: 0 <= c < |sheet.dayCells| ==>
              sheet.dayCells[c].col == 2 + c && sheet.dayCells[c].caption == dayLabel(sheet.dayCells[c].day)
    ensures multiset(CellDays(sheet.dayCells)) == multiset(Weekdays(startDate, endDate))
    ensures KeysContiguous(Weekdays(startDate, endDate), monthKey, weekKey) ==>
              CellDays(sheet.dayCells) == Weekdays(startDate, endDate)
    ensures exists groups :: GroupedByKeys(groups, monthKey, weekKey)
              && multiset(MonthDays(groups)) == multiset(Weekdays(startDate, endDate))
              && sheet.dayCells == DayCells(MonthDays(groups), 2, dayLabel)
              && sheet.merges == HeaderMerges(groups, 2)
    ensures Tiling(OfRow(sheet.merges, 2), 2, 2 + |Weekdays(startDate, endDate)|)
    ensures Tiling(OfRow(sheet.merges, 1), 2, 2 + |Weekdays(startDate, endDate)|)
    ensures sheet.rows == RowsFor(Walk(employees, 0), 4, data, Weekdays(startDate, endDate))
    ensures currentRow == 4 + ForestSize(employees)
  {
    var weekdays, groups, cells, merges, currentCol := WriteHeader(startDate, endDate, monthKey, weekKey, dayLabel);
    var rows;
    rows, currentRow := WriteRows(data, employees, weekdays);
    sheet := Sheet(cells, merges, rows);
    assert GroupedByKeys(groups, monthKey, weekKey);
  }

  /** The loop of lines 205-206: every root of the forest is written at indent 0,
      one after the other, from row 4; the rows are those of the pre-order walk
      and the row counter ends at 4 plus the number of people. */
  method WriteRows(data: map<string, map<int, string>>, employees: seq<Employee>, weekdays: seq<int>)
    returns (rows: seq<Row>, currentRow: int)
    ensures rows == RowsFor(Walk(employees, 0), 4, data, weekdays)
    ensures currentRow == 4 + ForestSize(employees)
  {
    rows := [];
    currentRow := 4;
    for i := 0 to |employees|
      invariant currentRow == 4 + ForestSize(employees[..i])
      invariant rows == RowsFor(Walk(employees[..i], 0), 4, data, weekdays)
    {
      rows, currentRow := WriteEmployeeRow(rows, currentRow, employees[i], 0, data, weekdays);
      RowsPrefix(employees, i, 0, 4, data, weekdays);
    }
    assert employees[..|employees|] == employees;
  }

  /** The rows in sheet order: row `k` is sheet row `4 + k` and shows the
      `k`-th person of the pre-order walk, at their depth, with column `2 + i`
      standing for `weekdays[i]`. */
  lemma {:induction false} RowsLayout(employees: seq<Employee>, data: map<string, map<int, string>>, weekdays: seq<int>, k: nat, i: nat)
    requires k < ForestSize(employees) && i < |weekdays|
    ensures |RowsFor(Walk(employees, 0), 4, data, weekdays)| == ForestSize(employees)
    ensures var r := RowsFor(Walk(employees, 0), 4, data, weekdays)[k];
            && r.row == 4 + k
            && r.name == Walk(employees, 0)[k].node.name
            && r.indent == Walk(employees, 0)[k].depth
            && |r.cells| == |weekdays|
            && r.cells[i].col == 2 + i && r.cells[i].day == weekdays[i]
  {
    WalkLength(employees, 0);
  }

  /** A cell's fill is the category of the day's code: PTO, Travel or Holiday
      for "P", "T", "H", and none for a day without a code, for any other code,
      and for every day of a person without an entry. */
  lemma {:induction false} FillMeaning(entry: map<int, string>, data: map<string, map<int, string>>, name: string, weekdays: seq<int>, i: nat)
    requires i < |weekdays|
    ensures CellsFor(entry, weekdays)[i].fill == PtoFill <==> weekdays[i] in entry && entry[weekdays[i]] == "P"
    ensures CellsFor(entry, weekdays)[i].fill == TravelFill <==> weekdays[i] in entry && entry[weekdays[i]] == "T"
    ensures CellsFor(entry, weekdays)[i].fill == HolidayFill <==> weekdays[i] in entry && entry[weekdays[i]] == "H"
    ensures name !in data ==> CellsFor(EntryOf(data, name), weekdays)[i].fill == NoFill
  {
  }

  /** From events to fills, for a roster without repeated names: the cell of
      the `k`-th person of the walk under day column `2 + i` has the Holiday
      fill iff some event overlapping the window covers that day with a holiday
      token reaching them; otherwise the Travel fill iff some Travel event
      covering the day names them; otherwise the PTO fill iff some PTO event
      covering the day names them; otherwise no fill. */
  lemma {:induction false} CellFromEvents(events: seq<Event>, mapping: map<string, seq<string>>, employees: seq<Employee>,
                       startDate: int, endDate: int, k: nat, i: nat)
    requires DistinctNames(Entries(Walk(employees, 0)))
    requires Resolve(events, mapping, Entries(Walk(employees, 0)), startDate, endDate).Resolved?
    requires k < |Walk(employees, 0)| && i < |Weekdays(startDate, endDate)|
    ensures var flat := Entries(Walk(employees, 0));
            var weekdays := Weekdays(startDate, endDate);
            var data := Resolve(events, mapping, flat, startDate, endDate).data;
            var d := weekdays[i];
            var fill := RowsFor(Walk(employees, 0), 4, data, weekdays)[k].cells[i].fill;
            var holiday := Scheduled(events, mapping, flat, startDate, endDate, k, d, HolidayList);
            var travel := Scheduled(events, mapping, flat, startDate, endDate, k, d, TravelList);
            var pto := Scheduled(events, mapping, flat, startDate, endDate, k, d, PtoList);
            fill == if holiday then HolidayFill else if travel then TravelFill else if pto then PtoFill else NoFill
  {
    var walk := Walk(employees, 0);
    var flat := Entries(walk);
    var weekdays := Weekdays(startDate, endDate);
    var data := Resolve(events, mapping, flat, startDate, endDate).data;
    var d := weekdays[i];
    EntriesAt(walk, k);
    var name := walk[k].node.name;
    StatusOfDay(events, mapping, flat, startDate, endDate, k, d);
    FillFromEntry(data, name, d, Scheduled(events, mapping, flat, startDate, endDate, k, d, HolidayList),
                  Scheduled(events, mapping, flat, startDate, endDate, k, d, TravelList),
                  Scheduled(events, mapping, flat, startDate, endDate, k, d, PtoList));
    CellOfRow(walk, data, weekdays, k, i);
  }

  /** The fill of a day whose status code, if any, follows the precedence H, T, P. */
  lemma {:induction false} FillFromEntry(data: map<string, map<int, string>>, name: string, d: int, holiday: bool, travel: bool, pto: bool)
    requires name in data
    requires d in data[name] <==> holiday || travel || pto
    requires d in data[name] ==> data[name][d] == if holiday then "H" else if travel then "T" else "P"
    ensures FillFor(CodeOf(EntryOf(data, name), d))
         == if holiday then HolidayFill else if travel then TravelFill else if pto then PtoFill else NoFill
  {
  }

  /** The cell of row `k` under day column `2 + i` is filled by the code that
      the `k`-th visit's entry gives `weekdays[i]`. */
  lemma {:induction false} CellOfRow(walk: seq<Visit>, data: map<string, map<int, string>>, weekdays: seq<int>, k: nat, i: nat)
    requires k < |walk| && i < |weekdays|
    ensures RowsFor(walk, 4, data, weekdays)[k].cells[i].fill
         == FillFor(CodeOf(EntryOf(data, walk[k].node.name), weekdays[i]))
  {
  }
}
