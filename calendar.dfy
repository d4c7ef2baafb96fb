/**
 Calendar days as day ordinals, the way Python's `date.toordinal()` counts them:
 day 1 is Monday 0001-01-01 and `timedelta(days=i)` is `+ i`. The grid keeps
 the business days of the reporting window.
 */
module Calendar {

  /** `date.weekday()`: Monday is 0 and Sunday is 6. CPython computes it from the
      ordinal as `(ordinal + 6) % 7`; both operands are positive for every date
      Python can represent, and Dafny's `%` agrees with Python's there. */
  function Weekday(d: int): (w: int)
    ensures 0 <= w < 7
  {
    (d + 6) % 7
  }

  /** A business day of the grid: Monday to Friday. */
  predicate IsBusinessDay(d: int)
  {
    Weekday(d) < 5
  }

  /** `all_dates`: every day from `start` to `end`, both included, in order;
      empty when `end` comes before `start` (Python's `range` of a negative count). */
  function AllDates(start: int, end: int): seq<int>
  {
    seq(if start <= end then end - start + 1 else 0, i => start + i)
  }

  /** Strictly increasing: the order of the calendar. */
  predicate Increasing(s: seq<int>)
  {
    forall i, j :: 0 <= i < j < |s| ==> s[i] < s[j]
  }

  /** The list comprehension that keeps the business days of `s`, in order. */
  function KeepBusinessDays(s: seq<int>): (r: seq<int>)
    ensures |r| <= |s|
    ensures forall d :: d in r <==> d in s && IsBusinessDay(d)
  {
    if s == [] then []
    else if IsBusinessDay(s[0]) then [s[0]] + KeepBusinessDays(s[1..])
    else KeepBusinessDays(s[1..])
  }

  /** Keeping the business days of an increasing list keeps it increasing. */
  lemma {:induction false} KeepBusinessDaysIncreasing(s: seq<int>)
    requires Increasing(s)
    ensures Increasing(KeepBusinessDays(s))
  {
    if s != [] {
      IncreasingTail(s);
      KeepBusinessDaysIncreasing(s[1..]);
      var rest := KeepBusinessDays(s[1..]);
      assert forall j :: 0 <= j < |rest| ==> rest[j] in rest;
    }
  }

  /** The tail of an increasing list is increasing and lies above its head. */
  lemma {:induction false} IncreasingTail(s: seq<int>)
    requires s != [] && Increasing(s)
    ensures Increasing(s[1..])
    ensures forall x :: x in s[1..] ==> s[0] < x
  {
    forall x | x in s[1..] ensures s[0] < x {
      var j :| 0 <= j < |s[1..]| && s[1..][j] == x;
      assert s[j + 1] == x;
    }
  }

  /** `weekdays`: the business days of the inclusive range `[start, end]`. */
  function Weekdays(start: int, end: int): seq<int>
  {
    KeepBusinessDays(AllDates(start, end))
  }

  /** The grid's days are exactly the Monday-to-Friday days of `[start, end]`,
      strictly increasing; a range without business days gives an empty list. */
  lemma {:induction false} WeekdaysExactly(start: int, end: int)
    ensures forall d :: d in Weekdays(start, end) <==> start <= d <= end && IsBusinessDay(d)
    ensures Increasing(Weekdays(start, end))
    ensures (forall d :: start <= d <= end ==> !IsBusinessDay(d)) ==> Weekdays(start, end) == []
  {
    var all := AllDates(start, end);
    assert forall d :: d in all <==> start <= d <= end by {
      forall d | start <= d <= end ensures d in all {
        assert all[d - start] == d;
      }
    }
    assert Increasing(all);
    KeepBusinessDaysIncreasing(all);
    var w := Weekdays(start, end);
    assert w != [] ==> w[0] in w;
  }
}
