/**
 The three header rows of the calendar sheet (lines 141-174 of `generate_excel`):
 row 1 holds one merged cell per month, row 2 one merged cell per week, row 3 one
 cell per business day, starting at column 2 (column 1 holds "Employee"). The
 business days are grouped by month key and then by week key in two nested
 insertion-ordered dictionaries, which are then walked with a column counter.

 The month key (`strftime("%B %Y")`), the week key (`strftime("W%U")`) and the
 day label (`strftime("%a %d")`) are parameters: any functions of the day.
 */
module HeaderLayout {
  import opened Calendar
  import opened SeqFacts

  /** One entry of the inner dictionary: a week key and its days in insertion order. */
  datatype WeekGroup = WeekGroup(key: string, days: seq<int>)

  /** One entry of the outer dictionary: a month key and its weeks in insertion order. */
  datatype MonthGroup = MonthGroup(key: string, weeks: seq<WeekGroup>)

  /** A merged header cell on `row`, spanning columns `first` to `last`, captioned `caption`
      (the caption is written to its first cell). */
  datatype Merge = Merge(row: int, first: int, last: int, caption: string)

  /** A row-3 cell: the column, the day it stands for and its label. */
  datatype DayCell = DayCell(col: int, day: int, caption: string)

  /** The days of a month's weeks, in dictionary order. */
  function WeekDays(weeks: seq<WeekGroup>): seq<int>
  {
    if weeks == [] then [] else weeks[0].days + WeekDays(weeks[1..])
  }

  /** The days of all months, in dictionary order: the order the header loop visits them. */
  function MonthDays(groups: seq<MonthGroup>): seq<int>
  {
    if groups == [] then [] else WeekDays(groups[0].weeks) + MonthDays(groups[1..])
  }

  /** The days the cells of row 3 stand for, left to right. */
  function CellDays(cells: seq<DayCell>): seq<int>
  {
    if cells == [] then [] else [cells[0].day] + CellDays(cells[1..])
  }

  /** `weeks[w].append(d)` on the inner `defaultdict(list)`: appends to the first
      entry with key `w`, or adds a new entry at the end. */
  function AddToWeeks(weeks: seq<WeekGroup>, w: string, d: int): seq<WeekGroup>
  {
    if weeks == [] then [WeekGroup(w, [d])]
    else if weeks[0].key == w then [WeekGroup(w, weeks[0].days + [d])] + weeks[1..]
    else [weeks[0]] + AddToWeeks(weeks[1..], w, d)
  }

  /** `dates_by_month_week[m][w].append(d)` on the outer dictionary: finds or adds
      the month entry `m`, then appends `d` to its week `w`. */
  function AddToMonths(groups: seq<MonthGroup>, m: string, w: string, d: int): seq<MonthGroup>
  {
    if groups == [] then [MonthGroup(m, [WeekGroup(w, [d])])]
    else if groups[0].key == m then [MonthGroup(m, AddToWeeks(groups[0].weeks, w, d))] + groups[1..]
    else [groups[0]] + AddToMonths(groups[1..], m, w, d)
  }

  /** Appending to the week dictionary adds exactly the one day. */
  lemma {:induction false} AddToWeeksDays(weeks: seq<WeekGroup>, w: string, d: int)
    ensures multiset(WeekDays(AddToWeeks(weeks, w, d))) == multiset(WeekDays(weeks)) + multiset{d}
  {
    var r := AddToWeeks(weeks, w, d);
    if weeks == [] {
      assert WeekDays(r) == [d] + WeekDays([]);
    } else if weeks[0].key == w {
      assert r[1..] == weeks[1..];
      assert WeekDays(r) == weeks[0].days + [d] + WeekDays(weeks[1..]);
    } else {
      AddToWeeksDays(weeks[1..], w, d);
      assert r[1..] == AddToWeeks(weeks[1..], w, d);
      assert WeekDays(r) == weeks[0].days + WeekDays(r[1..]);
    }
  }

  /** A week key not yet present opens a new entry at the end. */
  lemma {:induction false} AddToWeeksNew(weeks: seq<WeekGroup>, w: string, d: int)
    requires forall j :: 0 <= j < |weeks| ==> weeks[j].key != w
    ensures AddToWeeks(weeks, w, d) == weeks + [WeekGroup(w, [d])]
  {
    if weeks != [] {
      AddToWeeksNew(weeks[1..], w, d);
      assert weeks == [weeks[0]] + weeks[1..];
    }
  }

  /** A week key present only as the last entry appends to that entry. */
  lemma {:induction false} AddToWeeksLast(weeks: seq<WeekGroup>, w: string, d: int)
    requires weeks != [] && weeks[|weeks| - 1].key == w
    requires forall j :: 0 <= j < |weeks| - 1 ==> weeks[j].key != w
    ensures AddToWeeks(weeks, w, d) == weeks[..|weeks| - 1] + [WeekGroup(w, weeks[|weeks| - 1].days + [d])]
  {
    if |weeks| > 1 {
      AddToWeeksLast(weeks[1..], w, d);
      assert weeks[..|weeks| - 1] == [weeks[0]] + weeks[1..][..|weeks| - 2];
    }
  }

  /** Appending to the month dictionary adds exactly the one day. */
  lemma {:induction false} AddToMonthsDays(groups: seq<MonthGroup>, m: string, w: string, d: int)
    ensures multiset(MonthDays(AddToMonths(groups, m, w, d))) == multiset(MonthDays(groups)) + multiset{d}
  {
    var r := AddToMonths(groups, m, w, d);
    if groups == [] {
      assert MonthDays(r) == WeekDays([WeekGroup(w, [d])]) + MonthDays([]);
      assert WeekDays([WeekGroup(w, [d])]) == [d] + WeekDays([]);
    } else if groups[0].key == m {
      AddToWeeksDays(groups[0].weeks, w, d);
      assert r[1..] == groups[1..];
    } else {
      AddToMonthsDays(groups[1..], m, w, d);
      assert r[1..] == AddToMonths(groups[1..], m, w, d);
    }
  }

  /** A month key not yet present opens a new month entry at the end. */
  lemma {:induction false} AddToMonthsNew(groups: seq<MonthGroup>, m: string, w: string, d: int)
    requires forall j :: 0 <= j < |groups| ==> groups[j].key != m
    ensures AddToMonths(groups, m, w, d) == groups + [MonthGroup(m, [WeekGroup(w, [d])])]
  {
    if groups != [] {
      AddToMonthsNew(groups[1..], m, w, d);
      assert groups == [groups[0]] + groups[1..];
    }
  }

  /** A month key present only as the last entry adds the day to that month's weeks. */
  lemma {:induction false} AddToMonthsLast(groups: seq<MonthGroup>, m: string, w: string, d: int)
    requires groups != [] && groups[|groups| - 1].key == m
    requires forall j :: 0 <= j < |groups| - 1 ==> groups[j].key != m
    ensures AddToMonths(groups, m, w, d)
         == groups[..|groups| - 1] + [MonthGroup(m, AddToWeeks(groups[|groups| - 1].weeks, w, d))]
  {
    if |groups| > 1 {
      AddToMonthsLast(groups[1..], m, w, d);
      assert groups[..|groups| - 1] == [groups[0]] + groups[1..][..|groups| - 2];
    }
  }

  lemma {:induction false} WeekDaysAppend(a: seq<WeekGroup>, b: seq<WeekGroup>)
    ensures WeekDays(a + b) == WeekDays(a) + WeekDays(b)
  {
    if a == [] {
      assert a + b == b;
    } else {
      assert (a + b)[1..] == a[1..] + b;
      WeekDaysAppend(a[1..], b);
      ConcatAssoc(a[0].days, WeekDays(a[1..]), WeekDays(b));
    }
  }

  lemma {:induction false} MonthDaysAppend(a: seq<MonthGroup>, b: seq<MonthGroup>)
    ensures MonthDays(a + b) == MonthDays(a) + MonthDays(b)
  {
    if a == [] {
      assert a + b == b;
    } else {
      assert (a + b)[1..] == a[1..] + b;
      MonthDaysAppend(a[1..], b);
      ConcatAssoc(WeekDays(a[0].weeks), MonthDays(a[1..]), MonthDays(b));
    }
  }

  /** Splitting off the last month entry. */
  lemma {:induction false} SplitLastMonth(groups: seq<MonthGroup>)
    requires groups != []
    ensures MonthDays(groups) == MonthDays(groups[..|groups| - 1]) + WeekDays(groups[|groups| - 1].weeks)
  {
    var n := |groups| - 1;
    assert groups == groups[..n] + [groups[n]];
    MonthDaysAppend(groups[..n], [groups[n]]);
    assert MonthDays([groups[n]]) == WeekDays(groups[n].weeks) + MonthDays([]);
  }

  /** Splitting off the last week entry. */
  lemma {:induction false} SplitLastWeek(weeks: seq<WeekGroup>)
    requires weeks != []
    ensures WeekDays(weeks) == WeekDays(weeks[..|weeks| - 1]) + weeks[|weeks| - 1].days
  {
    var k := |weeks| - 1;
    assert weeks == weeks[..k] + [weeks[k]];
    WeekDaysAppend(weeks[..k], [weeks[k]]);
    assert WeekDays([weeks[k]]) == weeks[k].days + WeekDays([]);
  }

  /** `0 <= a < b < c`: three positions in order. */
  predicate Ordered(a: int, b: int, c: int)
  {
    0 <= a < b < c
  }

  /** Equal month keys, and equal week keys within one month, occur in unbroken
      runs along `days`. True of the real keys, since the month key carries the
      year and the week number only grows within a year; it is what makes the
      header columns come out in calendar order. */
  ghost predicate KeysContiguous(days: seq<int>, monthKey: int -> string, weekKey: int -> string)
  {
    && (forall a, b, c {:trigger Ordered(a, b, c)} ::
          Ordered(a, b, c) && c < |days| && monthKey(days[a]) == monthKey(days[c])
          ==> monthKey(days[b]) == monthKey(days[a]))
    && (forall a, b, c {:trigger Ordered(a, b, c)} ::
          Ordered(a, b, c) && c < |days| && monthKey(days[a]) == monthKey(days[c])
          && weekKey(days[a]) == weekKey(days[c])
          ==> weekKey(days[b]) == weekKey(days[a]))
  }

  /** No day from position `i` on that falls in month `month` has the key of a
      week entry other than the last. */
  ghost predicate WeeksClosed(weeks: seq<WeekGroup>, month: string, days: seq<int>, i: nat,
                              monthKey: int -> string, weekKey: int -> string)
  {
    forall j, c :: 0 <= j < |weeks| - 1 && i <= c < |days| && monthKey(days[c]) == month
      ==> weeks[j].key != weekKey(days[c])
  }

  /** No day from position `i` on has the key of a month entry other than the last. */
  ghost predicate MonthsClosed(groups: seq<MonthGroup>, days: seq<int>, i: nat, monthKey: int -> string)
  {
    forall j, c :: 0 <= j < |groups| - 1 && i <= c < |days| ==> groups[j].key != monthKey(days[c])
  }

  /** What the grouping loop knows after `i` days when keys are contiguous: the
      dictionaries hold `days[..i]` in order, the last entries are those of the
      last day, and no later day can reopen a month entry other than the last,
      nor a week entry of the last month other than its last. */
  ghost predicate InOrder(groups: seq<MonthGroup>, days: seq<int>, i: nat, monthKey: int -> string, weekKey: int -> string)
    requires i <= |days|
  {
    && MonthDays(groups) == days[..i]
    && (i == 0 ==> groups == [])
    && (i > 0 ==>
          && groups != []
          && groups[|groups| - 1].key == monthKey(days[i - 1])
          && groups[|groups| - 1].weeks != []
          && groups[|groups| - 1].weeks[|groups[|groups| - 1].weeks| - 1].key == weekKey(days[i - 1])
          && WeeksClosed(groups[|groups| - 1].weeks, groups[|groups| - 1].key, days, i, monthKey, weekKey))
    && MonthsClosed(groups, days, i, monthKey)
  }

  /** Replacing the last month entry by `g` replaces its days by those of `g`. */
  lemma {:induction false} ReplaceLastMonth(groups: seq<MonthGroup>, g: MonthGroup)
    requires groups != []
    ensures MonthDays(groups) == MonthDays(groups[..|groups| - 1]) + WeekDays(groups[|groups| - 1].weeks)
    ensures MonthDays(groups[..|groups| - 1] + [g]) == MonthDays(groups[..|groups| - 1]) + WeekDays(g.weeks)
  {
    var n := |groups| - 1;
    SplitLastMonth(groups);
    var r := groups[..n] + [g];
    SplitLastMonth(r);
    assert r[..n] == groups[..n];
  }

  /** Appending `d` to the last week entry appends `d` to the days of the weeks. */
  lemma {:induction false} GrowLastWeek(weeks: seq<WeekGroup>, w: string, d: int)
    requires weeks != []
    ensures WeekDays(weeks[..|weeks| - 1] + [WeekGroup(w, weeks[|weeks| - 1].days + [d])]) == WeekDays(weeks) + [d]
  {
    var k := |weeks| - 1;
    var nw := weeks[..k] + [WeekGroup(w, weeks[k].days + [d])];
    SplitLastWeek(weeks);
    SplitLastWeek(nw);
    assert nw[..k] == weeks[..k];
  }

  /** Opening a week entry for `d` appends `d` to the days of the weeks. */
  lemma {:induction false} OpenWeek(weeks: seq<WeekGroup>, w: string, d: int)
    ensures WeekDays(weeks + [WeekGroup(w, [d])]) == WeekDays(weeks) + [d]
  {
    WeekDaysAppend(weeks, [WeekGroup(w, [d])]);
    assert WeekDays([WeekGroup(w, [d])]) == [d] + WeekDays([]);
  }

  /** Entries keeping the keys of all but the last one stay closed from one day on. */
  lemma {:induction false} MonthsClosedKeep(groups: seq<MonthGroup>, r: seq<MonthGroup>, days: seq<int>, i: nat, monthKey: int -> string)
    requires |r| == |groups| && forall j :: 0 <= j < |groups| - 1 ==> r[j].key == groups[j].key
    requires MonthsClosed(groups, days, i, monthKey)
    ensures MonthsClosed(r, days, i + 1, monthKey)
  {
  }

  /** Week entries keeping the keys of all but the last one stay closed from one day on. */
  lemma {:induction false} WeeksClosedKeep(weeks: seq<WeekGroup>, nw: seq<WeekGroup>, month: string, days: seq<int>, i: nat,
                                           monthKey: int -> string, weekKey: int -> string)
    requires |nw| == |weeks| && forall j :: 0 <= j < |weeks| - 1 ==> nw[j].key == weeks[j].key
    requires WeeksClosed(weeks, month, days, i, monthKey, weekKey)
    ensures WeeksClosed(nw, month, days, i + 1, monthKey, weekKey)
  {
  }

  /** The first day opens the first month entry. */
  lemma {:induction false} StepFirst(days: seq<int>, monthKey: int -> string, weekKey: int -> string)
    requires |days| > 0
    ensures InOrder(AddToMonths([], monthKey(days[0]), weekKey(days[0]), days[0]), days, 1, monthKey, weekKey)
  {
    var d := days[0];
    var r := AddToMonths([], monthKey(d), weekKey(d), d);
    assert r == [MonthGroup(monthKey(d), [WeekGroup(weekKey(d), [d])])];
    assert MonthDays(r) == WeekDays([WeekGroup(weekKey(d), [d])]) + MonthDays([]);
    assert WeekDays([WeekGroup(weekKey(d), [d])]) == [d] + WeekDays([]);
    assert days[..1] == [d];
  }

  /** A day whose month key differs from the last month's opens a new month
      entry, and the old last month is closed for good. */
  lemma {:induction false} StepNewMonth(groups: seq<MonthGroup>, days: seq<int>, i: nat, monthKey: int -> string, weekKey: int -> string)
    requires 0 < i < |days| && KeysContiguous(days, monthKey, weekKey)
    requires InOrder(groups, days, i, monthKey, weekKey)
    requires monthKey(days[i]) != groups[|groups| - 1].key
    ensures InOrder(groups + [MonthGroup(monthKey(days[i]), [WeekGroup(weekKey(days[i]), [days[i]])])], days, i + 1, monthKey, weekKey)
  {
    var d := days[i];
    var g := MonthGroup(monthKey(d), [WeekGroup(weekKey(d), [d])]);
    var r := groups + [g];
    MonthDaysAppend(groups, [g]);
    assert MonthDays([g]) == WeekDays(g.weeks) + MonthDays([]);
    assert WeekDays(g.weeks) == [d] + WeekDays([]);
    PrefixSnoc(days, i + 1);
    forall j, c | 0 <= j < |r| - 1 && i + 1 <= c < |days| ensures r[j].key != monthKey(days[c]) {
      if j == |groups| - 1 {
        assert Ordered(i - 1, i, c);
      }
    }
  }

  /** A day in the last month's last week is appended to that week. */
  lemma {:induction false} StepSameWeek(groups: seq<MonthGroup>, days: seq<int>, i: nat, monthKey: int -> string, weekKey: int -> string)
    requires 0 < i < |days|
    requires InOrder(groups, days, i, monthKey, weekKey)
    requires monthKey(days[i]) == groups[|groups| - 1].key
    requires weekKey(days[i]) == groups[|groups| - 1].weeks[|groups[|groups| - 1].weeks| - 1].key
    ensures InOrder(AddToMonths(groups, monthKey(days[i]), weekKey(days[i]), days[i]), days, i + 1, monthKey, weekKey)
  {
    var d := days[i];
    var n := |groups| - 1;
    var weeks := groups[n].weeks;
    var k := |weeks| - 1;
    AddToWeeksLast(weeks, weekKey(d), d);
    var nw := weeks[..k] + [WeekGroup(weekKey(d), weeks[k].days + [d])];
    AddToMonthsLast(groups, monthKey(d), weekKey(d), d);
    var g := MonthGroup(monthKey(d), nw);
    var r := groups[..n] + [g];
    ReplaceLastMonth(groups, g);
    GrowLastWeek(weeks, weekKey(d), d);
    MonthsClosedKeep(groups, r, days, i, monthKey);
    WeeksClosedKeep(weeks, nw, g.key, days, i, monthKey, weekKey);
    PrefixSnoc(days, i + 1);
  }

  /** A day of the last month with a new week key opens a new week entry in that
      month, and the old last week is closed for good. */
  lemma {:induction false} StepNewWeek(groups: seq<MonthGroup>, days: seq<int>, i: nat, monthKey: int -> string, weekKey: int -> string)
    requires 0 < i < |days| && KeysContiguous(days, monthKey, weekKey)
    requires InOrder(groups, days, i, monthKey, weekKey)
    requires monthKey(days[i]) == groups[|groups| - 1].key
    requires weekKey(days[i]) != groups[|groups| - 1].weeks[|groups[|groups| - 1].weeks| - 1].key
    ensures InOrder(AddToMonths(groups, monthKey(days[i]), weekKey(days[i]), days[i]), days, i + 1, monthKey, weekKey)
  {
    var d := days[i];
    var n := |groups| - 1;
    var weeks := groups[n].weeks;
    var k := |weeks| - 1;
    AddToWeeksNew(weeks, weekKey(d), d);
    var nw := weeks + [WeekGroup(weekKey(d), [d])];
    AddToMonthsLast(groups, monthKey(d), weekKey(d), d);
    var g := MonthGroup(monthKey(d), nw);
    var r := groups[..n] + [g];
    ReplaceLastMonth(groups, g);
    OpenWeek(weeks, weekKey(d), d);
    MonthsClosedKeep(groups, r, days, i, monthKey);
    PrefixSnoc(days, i + 1);
    NewWeekClosed(weeks, g.key, days, i, monthKey, weekKey);
  }

  /** Once day `i` opens a new week in the last month, none of that month's
      older weeks can be reopened by a later day. */
  lemma {:induction false} NewWeekClosed(weeks: seq<WeekGroup>, month: string, days: seq<int>, i: nat,
                                         monthKey: int -> string, weekKey: int -> string)
    requires 0 < i < |days| && KeysContiguous(days, monthKey, weekKey)
    requires weeks != [] && weeks[|weeks| - 1].key == weekKey(days[i - 1])
    requires monthKey(days[i - 1]) == month && monthKey(days[i]) == month
    requires weekKey(days[i]) != weeks[|weeks| - 1].key
    requires WeeksClosed(weeks, month, days, i, monthKey, weekKey)
    ensures WeeksClosed(weeks + [WeekGroup(weekKey(days[i]), [days[i]])], month, days, i + 1, monthKey, weekKey)
  {
    var nw := weeks + [WeekGroup(weekKey(days[i]), [days[i]])];
    var k := |weeks| - 1;
    forall j, c | 0 <= j < |nw| - 1 && i + 1 <= c < |days| && monthKey(days[c]) == month
      ensures nw[j].key != weekKey(days[c])
    {
      if j == k {
        assert Ordered(i - 1, i, c);
      } else {
        assert nw[j] == weeks[j];
      }
    }
  }

  /** One turn of the grouping loop, when keys are contiguous, keeps `InOrder`. */
  lemma {:induction false} Step(groups: seq<MonthGroup>, days: seq<int>, i: nat, monthKey: int -> string, weekKey: int -> string)
    requires i < |days| && KeysContiguous(days, monthKey, weekKey)
    requires InOrder(groups, days, i, monthKey, weekKey)
    ensures InOrder(AddToMonths(groups, monthKey(days[i]), weekKey(days[i]), days[i]), days, i + 1, monthKey, weekKey)
  {
    var d := days[i];
    if i == 0 {
      StepFirst(days, monthKey, weekKey);
    } else if monthKey(d) != groups[|groups| - 1].key {
      StepNewMonth(groups, days, i, monthKey, weekKey);
      AddToMonthsNew(groups, monthKey(d), weekKey(d), d);
    } else if weekKey(d) == groups[|groups| - 1].weeks[|groups[|groups| - 1].weeks| - 1].key {
      StepSameWeek(groups, days, i, monthKey, weekKey);
    } else {
      StepNewWeek(groups, days, i, monthKey, weekKey);
    }
  }

  /** The dictionaries after inserting `days` one by one, in order. */
  function GroupFold(days: seq<int>, monthKey: int -> string, weekKey: int -> string): seq<MonthGroup>
  {
    if days == [] then []
    else
      var d := days[|days| - 1];
      AddToMonths(GroupFold(days[..|days| - 1], monthKey, weekKey), monthKey(d), weekKey(d), d)
  }

  /** Inserting the first `i` days one by one leaves exactly those days in the
      dictionaries, whatever the keys. */
  lemma {:induction false} GroupFoldDays(days: seq<int>, i: nat, monthKey: int -> string, weekKey: int -> string)
    requires i <= |days|
    ensures multiset(MonthDays(GroupFold(days[..i], monthKey, weekKey))) == multiset(days[..i])
  {
    if i == 0 {
      assert days[..0] == [];
    } else {
      GroupFoldDays(days, i - 1, monthKey, weekKey);
      var d := days[i - 1];
      var prev := GroupFold(days[..i - 1], monthKey, weekKey);
      GroupFoldLast(days, i, monthKey, weekKey);
      AddToMonthsDays(prev, monthKey(d), weekKey(d), d);
      PrefixSnoc(days, i);
    }
  }

  /** With contiguous keys, inserting the first `i` days one by one leaves
      them in the dictionaries in order. */
  lemma {:induction false} GroupFoldOrdered(days: seq<int>, i: nat, monthKey: int -> string, weekKey: int -> string)
    requires i <= |days| && KeysContiguous(days, monthKey, weekKey)
    ensures InOrder(GroupFold(days[..i], monthKey, weekKey), days, i, monthKey, weekKey)
  {
    if i == 0 {
      assert days[..0] == [];
    } else {
      GroupFoldOrdered(days, i - 1, monthKey, weekKey);
      GroupFoldLast(days, i, monthKey, weekKey);
      Step(GroupFold(days[..i - 1], monthKey, weekKey), days, i - 1, monthKey, weekKey);
    }
  }

  /** The last of the first `i` days is inserted last. */
  lemma {:induction false} GroupFoldLast(days: seq<int>, i: nat, monthKey: int -> string, weekKey: int -> string)
    requires 0 < i <= |days|
    ensures GroupFold(days[..i], monthKey, weekKey)
         == AddToMonths(GroupFold(days[..i - 1], monthKey, weekKey), monthKey(days[i - 1]), weekKey(days[i - 1]), days[i - 1])
  {
    PrefixOfPrefix(days, i - 1, i);
  }

  // -------------------------------------------------------------------- keys

  /** A week entry of month `month`: it holds at least one day, and every day
      it holds has that month key and the entry's own week key. */
  ghost predicate WeekKeyed(w: WeekGroup, month: string, monthKey: int -> string, weekKey: int -> string)
  {
    w.days != [] && forall x :: x in w.days ==> monthKey(x) == month && weekKey(x) == w.key
  }

  /** The week dictionary of month `month`: every entry is keyed by the days it
      holds, and no week key occurs twice. */
  ghost predicate WeeksKeyed(weeks: seq<WeekGroup>, month: string, monthKey: int -> string, weekKey: int -> string)
  {
    && (forall wi :: 0 <= wi < |weeks| ==> WeekKeyed(weeks[wi], month, monthKey, weekKey))
    && (forall a, b :: 0 <= a < b < |weeks| ==> weeks[a].key != weeks[b].key)
  }

  /** `dates_by_month_week` groups its days by their keys: every month entry has
      at least one week, every week entry holds only days of its month key and
      its week key, and no month key occurs twice. */
  ghost predicate GroupedByKeys(groups: seq<MonthGroup>, monthKey: int -> string, weekKey: int -> string)
  {
    && (forall mi :: 0 <= mi < |groups| ==>
          groups[mi].weeks != [] && WeeksKeyed(groups[mi].weeks, groups[mi].key, monthKey, weekKey))
    && (forall a, b :: 0 <= a < b < |groups| ==> groups[a].key != groups[b].key)
  }

  /** Appending to the first week entry with key `w` updates that entry in place. */
  lemma {:induction false} AddToWeeksAt(weeks: seq<WeekGroup>, w: string, d: int, k: nat)
    requires k < |weeks| && weeks[k].key == w
    requires forall j :: 0 <= j < k ==> weeks[j].key != w
    ensures AddToWeeks(weeks, w, d) == weeks[k := WeekGroup(w, weeks[k].days + [d])]
  {
    var g := WeekGroup(w, weeks[k].days + [d]);
    if k == 0 {
      assert weeks[0 := g] == [g] + weeks[1..];
    } else {
      AddToWeeksAt(weeks[1..], w, d, k - 1);
      assert weeks[k := g] == [weeks[0]] + weeks[1..][k - 1 := g];
    }
  }

  /** Appending to the first month entry with key `m` updates that entry in place. */
  lemma {:induction false} AddToMonthsAt(groups: seq<MonthGroup>, m: string, w: string, d: int, k: nat)
    requires k < |groups| && groups[k].key == m
    requires forall j :: 0 <= j < k ==> groups[j].key != m
    ensures AddToMonths(groups, m, w, d) == groups[k := MonthGroup(m, AddToWeeks(groups[k].weeks, w, d))]
  {
    var g := MonthGroup(m, AddToWeeks(groups[k].weeks, w, d));
    if k == 0 {
      assert groups[0 := g] == [g] + groups[1..];
    } else {
      AddToMonthsAt(groups[1..], m, w, d, k - 1);
      assert groups[k := g] == [groups[0]] + groups[1..][k - 1 := g];
    }
  }

  /** Appending a day of month `month` under its own week key keeps the week
      dictionary keyed by its days. */
  lemma {:induction false} AddToWeeksKeyed(weeks: seq<WeekGroup>, month: string, d: int, monthKey: int -> string, weekKey: int -> string)
    requires WeeksKeyed(weeks, month, monthKey, weekKey) && monthKey(d) == month
    ensures WeeksKeyed(AddToWeeks(weeks, weekKey(d), d), month, monthKey, weekKey)
    ensures AddToWeeks(weeks, weekKey(d), d) != []
  {
    var w := weekKey(d);
    if exists k :: 0 <= k < |weeks| && weeks[k].key == w {
      var k :| 0 <= k < |weeks| && weeks[k].key == w;
      AddToWeeksAt(weeks, w, d, k);
      var r := AddToWeeks(weeks, w, d);
      assert forall x :: x in r[k].days ==> x in weeks[k].days || x == d;
      assert WeekKeyed(r[k], month, monthKey, weekKey);
    } else {
      AddToWeeksNew(weeks, w, d);
      var r := AddToWeeks(weeks, w, d);
      assert WeekKeyed(r[|weeks|], month, monthKey, weekKey);
    }
  }

  /** Appending a day under its own keys keeps the dictionary grouped by keys:
      the daily step of line 147. */
  lemma {:induction false} AddToMonthsKeyed(groups: seq<MonthGroup>, d: int, monthKey: int -> string, weekKey: int -> string)
    requires GroupedByKeys(groups, monthKey, weekKey)
    ensures GroupedByKeys(AddToMonths(groups, monthKey(d), weekKey(d), d), monthKey, weekKey)
  {
    var m := monthKey(d);
    if exists k :: 0 <= k < |groups| && groups[k].key == m {
      var k :| 0 <= k < |groups| && groups[k].key == m;
      AddToMonthsAt(groups, m, weekKey(d), d, k);
      AddToWeeksKeyed(groups[k].weeks, m, d, monthKey, weekKey);
    } else {
      AddToMonthsNew(groups, m, weekKey(d), d);
      var r := AddToMonths(groups, m, weekKey(d), d);
      assert WeekKeyed(WeekGroup(weekKey(d), [d]), m, monthKey, weekKey);
      assert WeeksKeyed(r[|groups|].weeks, m, monthKey, weekKey);
    }
  }

  /** Whatever the keys, inserting days one by one groups them by their keys. */
  lemma {:induction false} GroupFoldKeyed(days: seq<int>, monthKey: int -> string, weekKey: int -> string)
    ensures GroupedByKeys(GroupFold(days, monthKey, weekKey), monthKey, weekKey)
  {
    if days != [] {
      GroupFoldKeyed(days[..|days| - 1], monthKey, weekKey);
      AddToMonthsKeyed(GroupFold(days[..|days| - 1], monthKey, weekKey), days[|days| - 1], monthKey, weekKey);
    }
  }

  /** The grouping loop of lines 145-147: every business day lands in the entry of
      its month key and, inside it, of its week key. Whatever the keys, the
      dictionaries hold exactly the given days; when the keys are contiguous
      (as the real ones are) they hold them in the given order. */
  method GroupByMonthWeek(weekdays: seq<int>, monthKey: int -> string, weekKey: int -> string)
    returns (groups: seq<MonthGroup>)
    ensures multiset(MonthDays(groups)) == multiset(weekdays)
    ensures GroupedByKeys(groups, monthKey, weekKey)
    ensures KeysContiguous(weekdays, monthKey, weekKey) ==> MonthDays(groups) == weekdays
  {
    groups := [];
    for i := 0 to |weekdays|
      invariant groups == GroupFold(weekdays[..i], monthKey, weekKey)
    {
      var d := weekdays[i];
      assert weekdays[..i + 1][..i] == weekdays[..i];
      groups := AddToMonths(groups, monthKey(d), weekKey(d), d);
    }
    assert weekdays[..|weekdays|] == weekdays;
    GroupFoldKeyed(weekdays, monthKey, weekKey);
    GroupFoldDays(weekdays, |weekdays|, monthKey, weekKey);
    if KeysContiguous(weekdays, monthKey, weekKey) {
      GroupFoldOrdered(weekdays, |weekdays|, monthKey, weekKey);
    }
  }

  // ------------------------------------------------------------------ blocks

  /** Blocks laid side by side from column `col`: the block of each entry starts
      where the previous entry's `width` ended. Both levels of the header loop
      make their merges this way: a week's merge per week, and per month its
      weeks' merges followed by its own. */
  function Blocks<G>(gs: seq<G>, col: int, block: (G, int) -> seq<Merge>, width: G -> nat): seq<Merge>
  {
    if gs == [] then [] else block(gs[0], col) + Blocks(gs[1..], col + width(gs[0]), block, width)
  }

  /** The number of columns the entries `gs` take. */
  function Span<G>(gs: seq<G>, width: G -> nat): nat
  {
    if gs == [] then 0 else width(gs[0]) + Span(gs[1..], width)
  }

  lemma {:induction false} BlocksAppend<G>(a: seq<G>, b: seq<G>, col: int, block: (G, int) -> seq<Merge>, width: G -> nat)
    ensures Blocks(a + b, col, block, width) == Blocks(a, col, block, width) + Blocks(b, col + Span(a, width), block, width)
    ensures Span(a + b, width) == Span(a, width) + Span(b, width)
  {
    if a == [] {
      assert a + b == b;
    } else {
      assert (a + b)[0] == a[0];
      assert (a + b)[1..] == a[1..] + b;
      BlocksAppend(a[1..], b, col + width(a[0]), block, width);
      ConcatAssoc(block(a[0], col), Blocks(a[1..], col + width(a[0]), block, width), Blocks(b, col + Span(a, width), block, width));
    }
  }

  /** One more entry: its block follows the blocks of the entries before it. */
  lemma {:induction false} BlocksPrefix<G>(gs: seq<G>, i: nat, col: int, block: (G, int) -> seq<Merge>, width: G -> nat)
    requires i < |gs|
    ensures Span(gs[..i + 1], width) == Span(gs[..i], width) + width(gs[i])
    ensures Blocks(gs[..i + 1], col, block, width)
         == Blocks(gs[..i], col, block, width) + block(gs[i], col + Span(gs[..i], width))
  {
    var s := col + Span(gs[..i], width);
    assert gs[..i + 1] == gs[..i] + [gs[i]];
    BlocksAppend(gs[..i], [gs[i]], col, block, width);
    assert [gs[i]][1..] == [];
    assert Blocks([gs[i]], s, block, width) == block(gs[i], s) + Blocks([], s + width(gs[i]), block, width);
    assert block(gs[i], s) + [] == block(gs[i], s);
  }

  /** Entry `i`'s block sits in the middle of the blocks, between those of the
      entries before it and those of the entries after it. */
  lemma {:induction false} BlocksAt<G>(gs: seq<G>, i: nat, col: int, block: (G, int) -> seq<Merge>, width: G -> nat)
    requires i < |gs|
    ensures var s := col + Span(gs[..i], width);
            Blocks(gs, col, block, width)
            == Blocks(gs[..i], col, block, width) + block(gs[i], s) + Blocks(gs[i + 1..], s + width(gs[i]), block, width)
  {
    var s := col + Span(gs[..i], width);
    var tail := gs[i..];
    assert gs == gs[..i] + tail;
    BlocksAppend(gs[..i], tail, col, block, width);
    assert tail[0] == gs[i] && tail[1..] == gs[i + 1..];
    var before := Blocks(gs[..i], col, block, width);
    var here := block(gs[i], s);
    var after := Blocks(gs[i + 1..], s + width(gs[i]), block, width);
    assert Blocks(tail, s, block, width) == here + after;
    ConcatAssoc(before, here, after);
  }

  // ------------------------------------------------------------------ merges

  /** The columns a week takes: one per day. */
  function WeekWidth(w: WeekGroup): nat
  {
    |w.days|
  }

  /** The columns a month takes: one per day of its weeks. */
  function MonthWidth(g: MonthGroup): nat
  {
    |WeekDays(g.weeks)|
  }

  /** The row-2 merge of week `w` from column `col` over its days, captioned
      with its key; none for a week without days (the `if len(days) > 0` guard). */
  function WeekMerge(w: WeekGroup, col: int): seq<Merge>
  {
    if |w.days| > 0 then [Merge(2, col, col + |w.days| - 1, w.key)] else []
  }

  /** The row-1 merge of month `g` from column `col` over its days, captioned
      with its key; none for a month that emitted no column (the
      `if (current_col - 1) >= month_start_col` guard). */
  function MonthMerge(g: MonthGroup, col: int): seq<Merge>
  {
    if MonthWidth(g) > 0 then [Merge(1, col, col + MonthWidth(g) - 1, g.key)] else []
  }

  /** A week's merge is on row 2, covers exactly the week's columns and is
      captioned with the week's key. */
  lemma {:induction false} WeekMergeShape(w: WeekGroup, col: int)
    ensures InRow(WeekMerge(w, col), 2)
    ensures Tiling(WeekMerge(w, col), col, col + WeekWidth(w))
    ensures forall m :: m in WeekMerge(w, col) ==> m.caption == w.key
  {
    var wm := WeekMerge(w, col);
    if |w.days| > 0 {
      assert wm[1..] == [];
    }
  }

  /** A month's own merge is on row 1, covers exactly the month's columns and
      is captioned with the month's key. */
  lemma {:induction false} MonthMergeShape(g: MonthGroup, col: int)
    ensures InRow(MonthMerge(g, col), 1)
    ensures Tiling(MonthMerge(g, col), col, col + MonthWidth(g))
    ensures forall m :: m in MonthMerge(g, col) ==> m.caption == g.key
  {
    var mm := MonthMerge(g, col);
    if MonthWidth(g) > 0 {
      assert mm[1..] == [];
    }
  }

  /** The row-2 merges of a month's weeks, from column `col`. */
  function WeekMerges(weeks: seq<WeekGroup>, col: int): seq<Merge>
  {
    Blocks(weeks, col, WeekMerge, WeekWidth)
  }

  /** What the header loop merges for one month: its weeks, then itself. */
  function MonthMerges(g: MonthGroup, col: int): seq<Merge>
  {
    WeekMerges(g.weeks, col) + MonthMerge(g, col)
  }

  /** The merges of the header loop from column `col`, in the order it makes them. */
  function HeaderMerges(groups: seq<MonthGroup>, col: int): seq<Merge>
  {
    Blocks(groups, col, MonthMerges, MonthWidth)
  }

  /** The weeks' widths add up to the number of their days. */
  lemma {:induction false} WeekSpan(weeks: seq<WeekGroup>)
    ensures Span(weeks, WeekWidth) == |WeekDays(weeks)|
  {
    if weeks != [] {
      WeekSpan(weeks[1..]);
    }
  }

  /** The months' widths add up to the number of their days. */
  lemma {:induction false} MonthSpan(groups: seq<MonthGroup>)
    ensures Span(groups, MonthWidth) == |MonthDays(groups)|
  {
    if groups != [] {
      MonthSpan(groups[1..]);
    }
  }

  /** One more week: its merge follows the merges of the weeks before it. */
  lemma {:induction false} WeekMergesPrefix(weeks: seq<WeekGroup>, wi: nat, col: int)
    requires wi < |weeks|
    ensures WeekMerges(weeks[..wi + 1], col)
         == WeekMerges(weeks[..wi], col) + WeekMerge(weeks[wi], col + |WeekDays(weeks[..wi])|)
  {
    WeekSpan(weeks[..wi]);
    BlocksPrefix(weeks, wi, col, WeekMerge, WeekWidth);
  }

  /** One more month: its week merges and then its own merge follow the merges
      of the months before it. */
  lemma {:induction false} HeaderMergesPrefix(groups: seq<MonthGroup>, mi: nat, col: int)
    requires mi < |groups|
    ensures var s := col + |MonthDays(groups[..mi])|;
            HeaderMerges(groups[..mi + 1], col)
            == HeaderMerges(groups[..mi], col) + WeekMerges(groups[mi].weeks, s) + MonthMerge(groups[mi], s)
  {
    var s := col + |MonthDays(groups[..mi])|;
    MonthSpan(groups[..mi]);
    BlocksPrefix(groups, mi, col, MonthMerges, MonthWidth);
    ConcatAssoc(HeaderMerges(groups[..mi], col), WeekMerges(groups[mi].weeks, s), MonthMerge(groups[mi], s));
  }

  // ------------------------------------------------------------------- cells

  /** The row-3 cells for `days` written from column `col` on, one column each. */
  function DayCells(days: seq<int>, col: int, dayLabel: int -> string): seq<DayCell>
  {
    if days == [] then [] else [DayCell(col, days[0], dayLabel(days[0]))] + DayCells(days[1..], col + 1, dayLabel)
  }

  lemma {:induction false} DayCellsAppend(a: seq<int>, b: seq<int>, col: int, dayLabel: int -> string)
    ensures DayCells(a + b, col, dayLabel) == DayCells(a, col, dayLabel) + DayCells(b, col + |a|, dayLabel)
  {
    if a == [] {
      assert a + b == b;
    } else {
      assert (a + b)[0] == a[0];
      assert (a + b)[1..] == a[1..] + b;
      DayCellsAppend(a[1..], b, col + 1, dayLabel);
      ConcatAssoc([DayCell(col, a[0], dayLabel(a[0]))], DayCells(a[1..], col + 1, dayLabel), DayCells(b, col + |a|, dayLabel));
    }
  }

  /** Cell `c` of `DayCells(days, col, ...)` sits in column `col + c` and shows day `c`. */
  lemma {:induction false} DayCellsAt(days: seq<int>, col: int, dayLabel: int -> string)
    ensures |DayCells(days, col, dayLabel)| == |days|
    ensures forall c :: 0 <= c < |days| ==> DayCells(days, col, dayLabel)[c] == DayCell(col + c, days[c], dayLabel(days[c]))
    ensures CellDays(DayCells(days, col, dayLabel)) == days
  {
    if days != [] {
      DayCellsAt(days[1..], col + 1, dayLabel);
      var cs := DayCells(days, col, dayLabel);
      assert cs[1..] == DayCells(days[1..], col + 1, dayLabel);
      forall c | 0 <= c < |days| ensures cs[c] == DayCell(col + c, days[c], dayLabel(days[c])) {
        if c > 0 {
          assert cs[c] == cs[1..][c - 1];
          assert days[c] == days[1..][c - 1];
        }
      }
    }
  }

  /** One more week: its days and their cells follow those of the weeks before it. */
  lemma {:induction false} WeekCellsPrefix(weeks: seq<WeekGroup>, wi: nat, col: int, dayLabel: int -> string)
    requires wi < |weeks|
    ensures WeekDays(weeks[..wi + 1]) == WeekDays(weeks[..wi]) + weeks[wi].days
    ensures DayCells(WeekDays(weeks[..wi + 1]), col, dayLabel)
         == DayCells(WeekDays(weeks[..wi]), col, dayLabel) + DayCells(weeks[wi].days, col + |WeekDays(weeks[..wi])|, dayLabel)
  {
    var w := weeks[wi];
    assert weeks[..wi + 1] == weeks[..wi] + [w];
    WeekDaysAppend(weeks[..wi], [w]);
    assert WeekDays([w]) == w.days + WeekDays([]);
    DayCellsAppend(WeekDays(weeks[..wi]), w.days, col, dayLabel);
  }

  /** One more month: its days and their cells follow those of the months before it. */
  lemma {:induction false} MonthCellsPrefix(groups: seq<MonthGroup>, mi: nat, dayLabel: int -> string)
    requires mi < |groups|
    ensures MonthDays(groups[..mi + 1]) == MonthDays(groups[..mi]) + WeekDays(groups[mi].weeks)
    ensures DayCells(MonthDays(groups[..mi + 1]), 2, dayLabel)
         == DayCells(MonthDays(groups[..mi]), 2, dayLabel)
            + DayCells(WeekDays(groups[mi].weeks), 2 + |MonthDays(groups[..mi])|, dayLabel)
  {
    var g := groups[mi];
    assert groups[..mi + 1] == groups[..mi] + [g];
    MonthDaysAppend(groups[..mi], [g]);
    assert MonthDays([g]) == WeekDays(g.weeks) + MonthDays([]);
    DayCellsAppend(MonthDays(groups[..mi]), WeekDays(g.weeks), 2, dayLabel);
  }

  // ------------------------------------------------------------------ layout

  /** The innermost loop of the header (lines 158-162): one labelled cell per
      day of a week, advancing `current_col` by one each time. */
  method WriteDayCells(cells: seq<DayCell>, col: int, days: seq<int>, dayLabel: int -> string)
    returns (cells': seq<DayCell>, col': int)
    ensures cells' == cells + DayCells(days, col, dayLabel)
    ensures col' == col + |days|
  {
    cells', col' := cells, col;
    for di := 0 to |days|
      invariant cells' == cells + DayCells(days[..di], col, dayLabel)
      invariant col' == col + di
    {
      cells' := cells' + [DayCell(col', days[di], dayLabel(days[di]))];
      col' := col' + 1;
      DayCellsStep(cells, days, di, col, dayLabel);
    }
    assert days[..|days|] == days;
  }

  /** One turn of the day loop: the next day's cell continues the cells so far. */
  lemma {:induction false} DayCellsStep(cells: seq<DayCell>, days: seq<int>, di: nat, col: int, dayLabel: int -> string)
    requires di < |days|
    ensures cells + DayCells(days[..di], col, dayLabel) + [DayCell(col + di, days[di], dayLabel(days[di]))]
         == cells + DayCells(days[..di + 1], col, dayLabel)
  {
    var d := days[di];
    PrefixSnoc(days, di + 1);
    DayCellsAppend(days[..di], [d], col, dayLabel);
    assert DayCells([d], col + di, dayLabel) == [DayCell(col + di, d, dayLabel(d))] + DayCells([], col + di + 1, dayLabel);
    ConcatAssoc(cells, DayCells(days[..di], col, dayLabel), [DayCell(col + di, d, dayLabel(d))]);
  }

  /** The week loop of one month (lines 156-168): the week's day cells, then a
      row-2 merge over them when the week has days. */
  method WriteWeeks(cells: seq<DayCell>, merges: seq<Merge>, col: int, weeks: seq<WeekGroup>, dayLabel: int -> string)
    returns (cells': seq<DayCell>, merges': seq<Merge>, col': int)
    ensures cells' == cells + DayCells(WeekDays(weeks), col, dayLabel)
    ensures merges' == merges + WeekMerges(weeks, col)
    ensures col' == col + |WeekDays(weeks)|
  {
    cells', merges', col' := cells, merges, col;
    for wi := 0 to |weeks|
      invariant cells' == cells + DayCells(WeekDays(weeks[..wi]), col, dayLabel)
      invariant merges' == merges + WeekMerges(weeks[..wi], col)
      invariant col' == col + |WeekDays(weeks[..wi])|
    {
      var week := weeks[wi].key;
      var days := weeks[wi].days;
      var weekStartCol := col';
      ghost var merges0 := merges';
      cells', col' := WriteDayCells(cells', col', days, dayLabel);
      if |days| > 0 {
        merges' := merges' + [Merge(2, weekStartCol, col' - 1, week)];
      }
      assert merges' == merges0 + WeekMerge(weeks[wi], weekStartCol);
      WeekCellsPrefix(weeks, wi, col, dayLabel);
      WeekMergesPrefix(weeks, wi, col);
      ConcatAssoc(cells, DayCells(WeekDays(weeks[..wi]), col, dayLabel), DayCells(days, weekStartCol, dayLabel));
      ConcatAssoc(merges, WeekMerges(weeks[..wi], col), WeekMerge(weeks[wi], weekStartCol));
    }
    assert weeks[..|weeks|] == weeks;
  }

  /** The month merge the guard of line 171 lets through, once the column
      counter has passed the month's days. */
  lemma {:induction false} MonthMergeAt(g: MonthGroup, s: int, c: int)
    requires c == s + MonthWidth(g)
    ensures c - 1 >= s ==> MonthMerge(g, s) == [Merge(1, s, c - 1, g.key)]
    ensures c - 1 < s ==> MonthMerge(g, s) == []
  {
  }

  /** One month of the header loop: writing month `mi`'s cells and merges at the
      column where the earlier months ended extends the layout of the first
      `mi` months to that of the first `mi + 1`. */
  lemma {:induction false} LayoutStep(groups: seq<MonthGroup>, mi: nat, dayLabel: int -> string,
                                      cells: seq<DayCell>, merges: seq<Merge>, col: int)
    requires mi < |groups|
    requires cells == DayCells(MonthDays(groups[..mi]), 2, dayLabel)
    requires merges == HeaderMerges(groups[..mi], 2)
    requires col == 2 + |MonthDays(groups[..mi])|
    ensures cells + DayCells(WeekDays(groups[mi].weeks), col, dayLabel) == DayCells(MonthDays(groups[..mi + 1]), 2, dayLabel)
    ensures merges + WeekMerges(groups[mi].weeks, col) + MonthMerge(groups[mi], col) == HeaderMerges(groups[..mi + 1], 2)
    ensures col + |WeekDays(groups[mi].weeks)| == 2 + |MonthDays(groups[..mi + 1])|
  {
    MonthCellsPrefix(groups, mi, dayLabel);
    HeaderMergesPrefix(groups, mi, 2);
  }

  /** The header loop of lines 150-174: walks the months, their weeks and their
      days with `current_col` from column 2, writing one day cell per column,
      a row-2 merge per non-empty week and a row-1 merge per month that
      emitted a column. */
  method LayoutHeader(groups: seq<MonthGroup>, dayLabel: int -> string)
    returns (cells: seq<DayCell>, merges: seq<Merge>, currentCol: int)
    ensures cells == DayCells(MonthDays(groups), 2, dayLabel)
    ensures merges == HeaderMerges(groups, 2)
    ensures currentCol == 2 + |MonthDays(groups)|
  {
    cells, merges, currentCol := [], [], 2;
    for mi := 0 to |groups|
      invariant cells == DayCells(MonthDays(groups[..mi]), 2, dayLabel)
      invariant merges == HeaderMerges(groups[..mi], 2)
      invariant currentCol == 2 + |MonthDays(groups[..mi])|
    {
      var month := groups[mi].key;
      var weeks := groups[mi].weeks;
      var monthStartCol := currentCol;
      ghost var cells0, merges0 := cells, merges;
      cells, merges, currentCol := WriteWeeks(cells, merges, currentCol, weeks, dayLabel);
      ghost var merges1 := merges;
      MonthMergeAt(groups[mi], monthStartCol, currentCol);
      if currentCol - 1 >= monthStartCol {
        merges := merges + [Merge(1, monthStartCol, currentCol - 1, month)];
      } else {
        assert merges == merges1 + [];
      }
      LayoutStep(groups, mi, dayLabel, cells0, merges0, monthStartCol);
    }
    assert groups[..|groups|] == groups;
  }

  // -------------------------------------------------------------------- rows

  /** `spans` follow one another left to right with no gap and no overlap, each
      at least one column wide, covering columns `lo` to `hi - 1`. */
  predicate Tiling(spans: seq<Merge>, lo: int, hi: int)
    decreases |spans|
  {
    if spans == [] then lo == hi
    else spans[0].first == lo <= spans[0].last && Tiling(spans[1..], spans[0].last + 1, hi)
  }

  /** Every merge of `ms` is on row `row`. */
  predicate InRow(ms: seq<Merge>, row: int)
  {
    forall m :: m in ms ==> m.row == row
  }

  /** The merges of row `row`, in order. */
  function OfRow(ms: seq<Merge>, row: int): seq<Merge>
  {
    if ms == [] then [] else (if ms[0].row == row then [ms[0]] else []) + OfRow(ms[1..], row)
  }

  /** Tilings of adjacent ranges concatenate. */
  lemma {:induction false} TilingAppend(a: seq<Merge>, b: seq<Merge>, lo: int, mid: int, hi: int)
    requires Tiling(a, lo, mid) && Tiling(b, mid, hi)
    ensures Tiling(a + b, lo, hi)
  {
    if a == [] {
      assert a + b == b;
    } else {
      var t := a[1..];
      assert a == [a[0]] + t;
      ConcatAssoc([a[0]], t, b);
      TilingCons(a[0], t, lo, mid);
      TilingAppend(t, b, a[0].last + 1, mid, hi);
      TilingCons(a[0], t + b, lo, hi);
    }
  }

  lemma {:induction false} TilingCons(m: Merge, t: seq<Merge>, lo: int, hi: int)
    ensures Tiling([m] + t, lo, hi) <==> m.first == lo <= m.last && Tiling(t, m.last + 1, hi)
  {
    assert ([m] + t)[0] == m;
    assert ([m] + t)[1..] == t;
  }

  lemma {:induction false} OfRowAppend(a: seq<Merge>, b: seq<Merge>, row: int)
    ensures OfRow(a + b, row) == OfRow(a, row) + OfRow(b, row)
  {
    if a == [] {
      assert a + b == b;
    } else {
      var t := a[1..];
      var h := if a[0].row == row then [a[0]] else [];
      assert a == [a[0]] + t;
      ConcatAssoc([a[0]], t, b);
      OfRowCons(a[0], t + b, row);
      OfRowCons(a[0], t, row);
      OfRowAppend(t, b, row);
      ConcatAssoc(h, OfRow(t, row), OfRow(b, row));
    }
  }

  lemma {:induction false} OfRowCons(m: Merge, t: seq<Merge>, row: int)
    ensures OfRow([m] + t, row) == (if m.row == row then [m] else []) + OfRow(t, row)
  {
    assert ([m] + t)[0] == m;
    assert ([m] + t)[1..] == t;
  }

  /** Filtering merges that are all on one row keeps all or none of them. */
  lemma {:induction false} OfRowInRow(ms: seq<Merge>, row: int, other: int)
    requires InRow(ms, row) && other != row
    ensures OfRow(ms, row) == ms && OfRow(ms, other) == []
  {
    if ms != [] {
      assert ms[0] in ms;
      assert forall m :: m in ms[1..] ==> m in ms;
      OfRowInRow(ms[1..], row, other);
    }
  }

  /** Both halves on one row: so is their concatenation. */
  lemma {:induction false} InRowAppend(a: seq<Merge>, b: seq<Merge>, row: int)
    requires InRow(a, row) && InRow(b, row)
    ensures InRow(a + b, row)
  {
  }

  /** A month's week merges are on row 2 and tile the month's columns. */
  lemma {:induction false} WeekMergesShape(weeks: seq<WeekGroup>, col: int)
    ensures InRow(WeekMerges(weeks, col), 2)
    ensures Tiling(WeekMerges(weeks, col), col, col + |WeekDays(weeks)|)
  {
    if weeks != [] {
      var w := weeks[0];
      var n := |w.days|;
      var first := WeekMerge(w, col);
      var rest := WeekMerges(weeks[1..], col + n);
      WeekMergeShape(w, col);
      WeekMergesShape(weeks[1..], col + n);
      assert WeekMerges(weeks, col) == first + rest;
      InRowAppend(first, rest, 2);
      TilingAppend(first, rest, col, col + n, col + n + |WeekDays(weeks[1..])|);
    }
  }

  /** A month's merges, read along row 2 and along row 1, each tile the month's columns. */
  lemma {:induction false} MonthRows(g: MonthGroup, c: int)
    ensures Tiling(OfRow(MonthMerges(g, c), 2), c, c + MonthWidth(g))
    ensures Tiling(OfRow(MonthMerges(g, c), 1), c, c + MonthWidth(g))
  {
    MonthRow2(g, c);
    MonthRow1(g, c);
  }

  /** Along row 2 a month's merges are its week merges. */
  lemma {:induction false} MonthRow2(g: MonthGroup, c: int)
    ensures Tiling(OfRow(MonthMerges(g, c), 2), c, c + MonthWidth(g))
  {
    var w := WeekMerges(g.weeks, c);
    var mm := MonthMerge(g, c);
    WeekMergesShape(g.weeks, c);
    MonthMergeShape(g, c);
    OfRowInRow(w, 2, 1);
    OfRowInRow(mm, 1, 2);
    OfRowAppend(w, mm, 2);
    assert OfRow(MonthMerges(g, c), 2) == w + [];
    assert w + [] == w;
  }

  /** Along row 1 a month's merges are its own merge. */
  lemma {:induction false} MonthRow1(g: MonthGroup, c: int)
    ensures Tiling(OfRow(MonthMerges(g, c), 1), c, c + MonthWidth(g))
  {
    var w := WeekMerges(g.weeks, c);
    var mm := MonthMerge(g, c);
    WeekMergesShape(g.weeks, c);
    MonthMergeShape(g, c);
    OfRowInRow(w, 2, 1);
    OfRowInRow(mm, 1, 2);
    OfRowAppend(w, mm, 1);
    assert OfRow(MonthMerges(g, c), 1) == [] + mm;
    assert [] + mm == mm;
  }

  /** Read along each of rows 2 and 1, the header merges tile the day columns:
      on row 2 one merge per non-empty week, on row 1 one per month that
      emitted a column, left to right, with no gap and no overlap. */
  lemma {:induction false} HeaderRows(groups: seq<MonthGroup>, col: int)
    ensures Tiling(OfRow(HeaderMerges(groups, col), 2), col, col + |MonthDays(groups)|)
    ensures Tiling(OfRow(HeaderMerges(groups, col), 1), col, col + |MonthDays(groups)|)
  {
    HeaderRow(groups, col, 2);
    HeaderRow(groups, col, 1);
  }

  /** Along one merge row, the header merges tile the day columns. */
  lemma {:induction false} HeaderRow(groups: seq<MonthGroup>, col: int, row: int)
    requires row == 1 || row == 2
    ensures Tiling(OfRow(HeaderMerges(groups, col), row), col, col + |MonthDays(groups)|)
  {
    if groups != [] {
      var g := groups[0];
      var n := MonthWidth(g);
      if row == 2 {
        MonthRow2(g, col);
      } else {
        MonthRow1(g, col);
      }
      HeaderRow(groups[1..], col + n, row);
      HeaderMergesCons(groups, col);
      RowTileAppend(MonthMerges(g, col), HeaderMerges(groups[1..], col + n), row, col, col + n, col + n + |MonthDays(groups[1..])|);
    }
  }

  /** The first month's merges come first, then those of the other months. */
  lemma {:induction false} HeaderMergesCons(groups: seq<MonthGroup>, col: int)
    requires groups != []
    ensures HeaderMerges(groups, col) == MonthMerges(groups[0], col) + HeaderMerges(groups[1..], col + MonthWidth(groups[0]))
    ensures MonthDays(groups) == WeekDays(groups[0].weeks) + MonthDays(groups[1..])
  {
  }

  /** Row tilings of adjacent ranges concatenate. */
  lemma {:induction false} RowTileAppend(a: seq<Merge>, b: seq<Merge>, row: int, lo: int, mid: int, hi: int)
    requires Tiling(OfRow(a, row), lo, mid) && Tiling(OfRow(b, row), mid, hi)
    ensures Tiling(OfRow(a + b, row), lo, hi)
  {
    OfRowAppend(a, b, row);
    TilingAppend(OfRow(a, row), OfRow(b, row), lo, mid, hi);
  }

  /** Weeks without days give no week merges. */
  lemma {:induction false} NoDaysNoWeekMerges(weeks: seq<WeekGroup>, col: int)
    requires |WeekDays(weeks)| == 0
    ensures WeekMerges(weeks, col) == []
  {
    if weeks != [] {
      NoDaysNoWeekMerges(weeks[1..], col);
      assert WeekMerges(weeks, col) == WeekMerge(weeks[0], col) + WeekMerges(weeks[1..], col);
    }
  }

  /** An empty range gives no merges at all. */
  lemma {:induction false} NoDaysNoMerges(groups: seq<MonthGroup>, col: int)
    requires |MonthDays(groups)| == 0
    ensures HeaderMerges(groups, col) == []
  {
    if groups != [] {
      var g := groups[0];
      NoDaysNoWeekMerges(g.weeks, col);
      NoDaysNoMerges(groups[1..], col);
      assert MonthMerges(g, col) == [] + [];
      assert HeaderMerges(groups, col) == MonthMerges(g, col) + HeaderMerges(groups[1..], col);
    }
  }

  /** Nesting: the merges of month `i` sit together in the header list, as the
      week merges of its weeks (which `WeekMergesShape` places on row 2, tiling
      the month's columns) followed by the month's own row-1 merge over those
      same columns (`MonthMergeShape`), between the merges of the months before
      it and those of the months after it. */
  lemma {:induction false} MonthBlock(groups: seq<MonthGroup>, col: int, i: nat)
    requires i < |groups|
    ensures var s := col + |MonthDays(groups[..i])|;
            var n := |WeekDays(groups[i].weeks)|;
            && HeaderMerges(groups, col)
               == HeaderMerges(groups[..i], col) + (WeekMerges(groups[i].weeks, s) + MonthMerge(groups[i], s))
                  + HeaderMerges(groups[i + 1..], s + n)
  {
    var s := col + |MonthDays(groups[..i])|;
    MonthSpan(groups[..i]);
    BlocksAt(groups, i, col, MonthMerges, MonthWidth);
    assert MonthMerges(groups[i], s) == WeekMerges(groups[i].weeks, s) + MonthMerge(groups[i], s);
  }

  /** What the header layout of `groups` looks like once `groups` holds the
      `days` in some order: one column per day, both merge rows tiling the
      day columns, and no merges without days. */
  lemma {:induction false} HeaderShape(groups: seq<MonthGroup>, days: seq<int>, dayLabel: int -> string)
    requires multiset(MonthDays(groups)) == multiset(days)
    ensures |MonthDays(groups)| == |days|
    ensures |DayCells(MonthDays(groups), 2, dayLabel)| == |days|
    ensures CellDays(DayCells(MonthDays(groups), 2, dayLabel)) == MonthDays(groups)
    ensures forall c :: 0 <= c < |days| ==> DayCells(MonthDays(groups), 2, dayLabel)[c].col == 2 + c
    ensures Tiling(OfRow(HeaderMerges(groups, 2), 2), 2, 2 + |days|)
    ensures Tiling(OfRow(HeaderMerges(groups, 2), 1), 2, 2 + |days|)
    ensures days == [] ==> HeaderMerges(groups, 2) == []
  {
    assert |multiset(MonthDays(groups))| == |multiset(days)|;
    DayCellsAt(MonthDays(groups), 2, dayLabel);
    HeaderRows(groups, 2);
    if days == [] {
      NoDaysNoMerges(groups, 2);
    }
  }

  /** The header part of `generate_excel` for the reporting window `[startDate, endDate]`.
      `groups` is the two-level dictionary `dates_by_month_week`. The grid's days
      are the business days of the window; the dictionary holds exactly them,
      each under its own month key and week key, in calendar order when the keys are contiguous; row 3 has one labelled
      cell per day from column 2, in dictionary order, so the column counter
      ends at 2 plus their number; the merges are those of the dictionary walk
      (`MonthBlock` says how each month's merges nest), and along each of rows
      1 and 2 they tile the day columns; an empty window gives no merges. */
  method WriteHeader(startDate: int, endDate: int, monthKey: int -> string, weekKey: int -> string, dayLabel: int -> string)
    returns (weekdays: seq<int>, groups: seq<MonthGroup>, cells: seq<DayCell>, merges: seq<Merge>, currentCol: int)
    ensures weekdays == Weekdays(startDate, endDate)
    ensures multiset(MonthDays(groups)) == multiset(weekdays)
    ensures GroupedByKeys(groups, monthKey, weekKey)
    ensures KeysContiguous(weekdays, monthKey, weekKey) ==> MonthDays(groups) == weekdays
    ensures cells == DayCells(MonthDays(groups), 2, dayLabel) && merges == HeaderMerges(groups, 2)
    ensures CellDays(cells) == MonthDays(groups)
    ensures currentCol == 2 + |weekdays| && |cells| == |weekdays|
    ensures forall c :: 0 <= c < |cells| ==> cells[c].col == 2 + c && cells[c].caption == dayLabel(cells[c].day)
    ensures multiset(CellDays(cells)) == multiset(weekdays)
    ensures Tiling(OfRow(merges, 2), 2, currentCol) && Tiling(OfRow(merges, 1), 2, currentCol)
    ensures weekdays == [] ==> merges == []
  {
    weekdays := KeepBusinessDays(AllDates(startDate, endDate));
    groups := GroupByMonthWeek(weekdays, monthKey, weekKey);
    cells, merges, currentCol := LayoutHeader(groups, dayLabel);
    HeaderShape(groups, weekdays, dayLabel);
    DayCellsAt(MonthDays(groups), 2, dayLabel);
  }
}
