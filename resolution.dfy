/**
 Event resolution (the middle of `main`, lines 246-306): the calendar events are
 cut down to those overlapping the reporting window, tagged with the targets the
 resolver mapping gives their name, expanded into the days they cover, fanned
 out into per-employee PTO, Travel and Holiday lists, and folded into the status
 matrix `processed_data`: employee name -> (day -> "P" | "T" | "H").

 Days are day ordinals as in `Calendar`. The resolver mapping (the JSON object
 the language model returns) is an arbitrary, possibly partial map.
 */
module Resolution {
  import opened Roster
  import opened SeqFacts

  /** A calendar entry: its title, its first day, the day after its last day
      (`end_date` of an all-day ICS event is exclusive) and the calendar it came
      from ("P" for the PTO feed, "T" for the Travel feed). */
  datatype Event = Event(name: string, start: int, end: int, kind: string)

  /** An event once association has set its `employee` list. */
  datatype Tagged = Tagged(event: Event, targets: seq<string>)

  /** The three tokens the resolver uses for holidays. */
  const HolidayUS: string := "_HOLIDAY_US"
  const HolidayFrance: string := "_HOLIDAY_FRANCE"
  const HolidayCompany: string := "_HOLIDAY_COMPANY"

  // ---------------------------------------------------------------- window

  /** The overlap test of the window filter (lines 246-249). */
  predicate InWindow(e: Event, startDate: int, endDate: int)
  {
    e.start < endDate && e.end > startDate
  }

  /** `events_in_range`: the events overlapping the window, in input order. */
  function FilterToWindow(events: seq<Event>, startDate: int, endDate: int): (r: seq<Event>)
    ensures |r| <= |events|
    ensures forall e :: e in r <==> e in events && InWindow(e, startDate, endDate)
  {
    if events == [] then []
    else
      var rest := FilterToWindow(events[1..], startDate, endDate);
      assert forall e :: e in events <==> e == events[0] || e in events[1..];
      (if InWindow(events[0], startDate, endDate) then [events[0]] else []) + rest
  }

  /** Filtering keeps every copy of an overlapping event and drops every copy
      of the others. */
  lemma {:induction false} FilterCounts(events: seq<Event>, startDate: int, endDate: int, e: Event)
    ensures multiset(FilterToWindow(events, startDate, endDate))[e]
         == if InWindow(e, startDate, endDate) then multiset(events)[e] else 0
  {
    if events != [] {
      FilterCounts(events[1..], startDate, endDate, e);
      assert events == [events[0]] + events[1..];
    }
  }

  /** Filtering a concatenation filters each part. */
  lemma {:induction false} FilterAppend(a: seq<Event>, b: seq<Event>, startDate: int, endDate: int)
    ensures FilterToWindow(a + b, startDate, endDate)
         == FilterToWindow(a, startDate, endDate) + FilterToWindow(b, startDate, endDate)
  {
    if a == [] {
      assert a + b == b;
    } else {
      assert (a + b)[0] == a[0];
      assert (a + b)[1..] == a[1..] + b;
      FilterAppend(a[1..], b, startDate, endDate);
    }
  }

  // ----------------------------------------------------------- association

  /** `event_to_employee_map.get(name)`, with a missing key read as `[]`. */
  function Targets(mapping: map<string, seq<string>>, name: string): seq<string>
  {
    if name in mapping then mapping[name] else []
  }

  /** The association loop (lines 261-268): every event is tagged with the list
      its name maps to, or with `[]` when the name has no key; exactly the
      names without a key are reported unmatched (a key mapped to `[]` is
      matched). */
  method AssociateEvents(events: seq<Event>, mapping: map<string, seq<string>>)
    returns (tagged: seq<Tagged>, unmatched: set<string>)
    ensures |tagged| == |events|
    ensures forall i :: 0 <= i < |events| ==> tagged[i] == Tagged(events[i], Targets(mapping, events[i].name))
    ensures forall name :: name in unmatched <==> name !in mapping && exists i :: 0 <= i < |events| && events[i].name == name
  {
    tagged, unmatched := [], {};
    for i := 0 to |events|
      invariant |tagged| == i
      invariant forall k :: 0 <= k < i ==> tagged[k] == Tagged(events[k], Targets(mapping, events[k].name))
      invariant forall name :: name in unmatched <==> name !in mapping && exists k :: 0 <= k < i && events[k].name == name
    {
      var event := events[i];
      if event.name in mapping {
        tagged := tagged + [Tagged(event, mapping[event.name])];
      } else {
        tagged := tagged + [Tagged(event, [])];
        unmatched := unmatched + {event.name};
      }
    }
  }

  /** The tagged events association produces, as a value. */
  function TagAll(events: seq<Event>, mapping: map<string, seq<string>>): seq<Tagged>
  {
    seq(|events|, i requires 0 <= i < |events| => Tagged(events[i], Targets(mapping, events[i].name)))
  }

  /** The names association reports unmatched, as a value. */
  function Unmatched(events: seq<Event>, mapping: map<string, seq<string>>): set<string>
  {
    set i | 0 <= i < |events| && events[i].name !in mapping :: events[i].name
  }

  // ------------------------------------------------------------- expansion

  /** `event_dates` (line 285): `start + i` for `0 <= i < end - start`; empty when
      the event ends on or before its start day. */
  function EventDates(e: Event): seq<int>
  {
    seq(if e.end > e.start then e.end - e.start else 0, i => e.start + i)
  }

  /** The expansion covers exactly the half-open range `[start, end)`, each day once,
      in increasing order. */
  lemma {:induction false} EventDatesExactly(e: Event)
    ensures forall d :: d in EventDates(e) <==> e.start <= d < e.end
    ensures forall i, k :: 0 <= i < k < |EventDates(e)| ==> EventDates(e)[i] < EventDates(e)[k]
  {
    var ds := EventDates(e);
    forall d | e.start <= d < e.end ensures d in ds {
      assert ds[d - e.start] == d;
    }
  }

  // -------------------------------------------------------------- fan-out

  /** The three lists `main` attaches to each flat employee. */
  datatype Buckets = Buckets(pto: seq<int>, travel: seq<int>, holiday: seq<int>)

  const NoBuckets := Buckets([], [], [])

  /** Extending each list of `a` by the matching list of `b`. */
  function Join(a: Buckets, b: Buckets): Buckets
  {
    Buckets(a.pto + b.pto, a.travel + b.travel, a.holiday + b.holiday)
  }

  lemma {:induction false} JoinNone(a: Buckets)
    ensures Join(a, NoBuckets) == a
  {
    assert a.pto + [] == a.pto;
    assert a.travel + [] == a.travel;
    assert a.holiday + [] == a.holiday;
  }

  lemma {:induction false} JoinAssoc(a: Buckets, b: Buckets, c: Buckets)
    ensures Join(Join(a, b), c) == Join(a, Join(b, c))
  {
    assert a.pto + b.pto + c.pto == a.pto + (b.pto + c.pto);
    assert a.travel + b.travel + c.travel == a.travel + (b.travel + c.travel);
    assert a.holiday + b.holiday + c.holiday == a.holiday + (b.holiday + c.holiday);
  }

  /** The tokens the `if`/`elif` chain of lines 288-295 treats as holidays. */
  predicate IsHolidayToken(token: string)
  {
    token == HolidayUS || token == HolidayFrance || token == HolidayCompany
  }

  /** Whether a holiday token reaches an employee at `location`: the US token
      reaches "US", the France token "France", the company token everyone. */
  predicate HolidayApplies(token: string, location: string)
  {
    || (token == HolidayUS && location == "US")
    || (token == HolidayFrance && location == "France")
    || token == HolidayCompany
  }

  /** `employee_map[name]` (line 279): the dictionary comprehension keeps the
      last flat employee of each name. -1 stands for "no such key". */
  function LastIndex(employees: seq<FlatEmployee>, name: string): (k: int)
    ensures -1 <= k < |employees|
    ensures k >= 0 ==> employees[k].name == name
    ensures forall j :: k < j < |employees| ==> employees[j].name != name
  {
    if employees == [] then -1
    else if employees[|employees| - 1].name == name then |employees| - 1
    else LastIndex(employees[..|employees| - 1], name)
  }

  /** What routing a roster name adds for an event of calendar `kind`. */
  function ByKind(kind: string, dates: seq<int>): Buckets
  {
    if kind == "P" then Buckets(dates, [], [])
    else if kind == "T" then Buckets([], dates, [])
    else NoBuckets
  }

  /** What one token of an event adds to the lists of employee `j`. */
  function TokenBuckets(employees: seq<FlatEmployee>, j: nat, kind: string, token: string, dates: seq<int>): Buckets
    requires j < |employees|
  {
    if IsHolidayToken(token) then
      (if HolidayApplies(token, employees[j].location) then Buckets([], [], dates) else NoBuckets)
    else if LastIndex(employees, token) == j then ByKind(kind, dates)
    else NoBuckets
  }

  /** What the tokens of an event add to the lists of employee `j`, in token order. */
  function TokensBuckets(employees: seq<FlatEmployee>, j: nat, kind: string, tokens: seq<string>, dates: seq<int>): Buckets
    requires j < |employees|
  {
    if tokens == [] then NoBuckets
    else
      Join(TokensBuckets(employees, j, kind, tokens[..|tokens| - 1], dates),
           TokenBuckets(employees, j, kind, tokens[|tokens| - 1], dates))
  }

  /** What one tagged event adds to the lists of employee `j`; an event with no
      targets is skipped. */
  function EventBuckets(employees: seq<FlatEmployee>, j: nat, t: Tagged): Buckets
    requires j < |employees|
  {
    if t.targets == [] then NoBuckets
    else TokensBuckets(employees, j, t.event.kind, t.targets, EventDates(t.event))
  }

  /** The lists of employee `j` after the fan-out loop over `tagged`. */
  function Expected(employees: seq<FlatEmployee>, j: nat, tagged: seq<Tagged>): Buckets
    requires j < |employees|
  {
    if tagged == [] then NoBuckets
    else Join(Expected(employees, j, tagged[..|tagged| - 1]), EventBuckets(employees, j, tagged[|tagged| - 1]))
  }

  /** Every employee's lists after the fan-out loop. */
  function ExpectedAll(employees: seq<FlatEmployee>, tagged: seq<Tagged>): (lists: seq<Buckets>)
    ensures |lists| == |employees|
  {
    seq(|employees|, j requires 0 <= j < |employees| => Expected(employees, j, tagged))
  }

  /** The holiday loops of lines 288-295: every employee the token reaches gets
      the event's days appended to their Holiday list. */
  method ExtendHoliday(lists: seq<Buckets>, employees: seq<FlatEmployee>, kind: string, token: string, dates: seq<int>)
    returns (lists': seq<Buckets>)
    requires |lists| == |employees| && IsHolidayToken(token)
    ensures |lists'| == |employees|
    ensures forall j :: 0 <= j < |employees| ==> lists'[j] == Join(lists[j], TokenBuckets(employees, j, kind, token, dates))
  {
    lists' := lists;
    for j := 0 to |employees|
      invariant |lists'| == |employees|
      invariant forall k :: 0 <= k < j ==> lists'[k] == Join(lists[k], TokenBuckets(employees, k, kind, token, dates))
      invariant forall k :: j <= k < |employees| ==> lists'[k] == lists[k]
    {
      if HolidayApplies(token, employees[j].location) {
        lists' := lists'[j := lists'[j].(holiday := lists'[j].holiday + dates)];
      } else {
        JoinNone(lists[j]);
      }
    }
  }

  /** One token of an event (lines 288-298): a holiday token fans out by
      location; a roster name routes the days to that employee's PTO or Travel
      list by the event's calendar; anything else changes nothing. */
  method ApplyToken(lists: seq<Buckets>, employees: seq<FlatEmployee>, kind: string, token: string, dates: seq<int>)
    returns (lists': seq<Buckets>)
    requires |lists| == |employees|
    ensures |lists'| == |employees|
    ensures forall j :: 0 <= j < |employees| ==> lists'[j] == Join(lists[j], TokenBuckets(employees, j, kind, token, dates))
  {
    if IsHolidayToken(token) {
      lists' := ExtendHoliday(lists, employees, kind, token, dates);
    } else {
      var k := LastIndex(employees, token);
      lists' := lists;
      if k >= 0 {
        if kind == "P" {
          lists' := lists[k := lists[k].(pto := lists[k].pto + dates)];
        } else if kind == "T" {
          lists' := lists[k := lists[k].(travel := lists[k].travel + dates)];
        }
      }
      forall j | 0 <= j < |employees| && (j != k || kind !in {"P", "T"})
        ensures lists'[j] == Join(lists[j], TokenBuckets(employees, j, kind, token, dates))
      {
        JoinNone(lists[j]);
      }
    }
  }

  /** The token loop of one event (line 287). */
  method ApplyEvent(lists: seq<Buckets>, employees: seq<FlatEmployee>, t: Tagged)
    returns (lists': seq<Buckets>)
    requires |lists| == |employees|
    ensures |lists'| == |employees|
    ensures forall j :: 0 <= j < |employees| ==> lists'[j] == Join(lists[j], TokensBuckets(employees, j, t.event.kind, t.targets, EventDates(t.event)))
  {
    var dates := EventDates(t.event);
    lists' := lists;
    forall j | 0 <= j < |employees| ensures lists'[j] == Join(lists[j], TokensBuckets(employees, j, t.event.kind, t.targets[..0], dates)) {
      JoinNone(lists[j]);
    }
    for ti := 0 to |t.targets|
      invariant |lists'| == |employees|
      invariant forall j :: 0 <= j < |employees| ==> lists'[j] == Join(lists[j], TokensBuckets(employees, j, t.event.kind, t.targets[..ti], dates))
    {
      lists' := ApplyToken(lists', employees, t.event.kind, t.targets[ti], dates);
      forall j | 0 <= j < |employees|
        ensures lists'[j] == Join(lists[j], TokensBuckets(employees, j, t.event.kind, t.targets[..ti + 1], dates))
      {
        assert t.targets[..ti + 1][..ti] == t.targets[..ti];
        JoinAssoc(lists[j], TokensBuckets(employees, j, t.event.kind, t.targets[..ti], dates),
                  TokenBuckets(employees, j, t.event.kind, t.targets[ti], dates));
      }
    }
    assert t.targets[..|t.targets|] == t.targets;
  }

  /** The fan-out loop (lines 274-298): every employee starts with three empty
      lists, and each tagged event with targets extends them. */
  method FanOut(employees: seq<FlatEmployee>, tagged: seq<Tagged>) returns (lists: seq<Buckets>)
    ensures lists == ExpectedAll(employees, tagged)
  {
    lists := seq(|employees|, _ => NoBuckets);
    for i := 0 to |tagged|
      invariant |lists| == |employees|
      invariant forall j :: 0 <= j < |employees| ==> lists[j] == Expected(employees, j, tagged[..i])
    {
      var t := tagged[i];
      assert tagged[..i + 1][..i] == tagged[..i];
      if t.targets != [] {
        lists := ApplyEvent(lists, employees, t);
      } else {
        forall j | 0 <= j < |employees| ensures lists[j] == Expected(employees, j, tagged[..i + 1]) {
          JoinNone(lists[j]);
        }
      }
    }
    assert tagged[..|tagged|] == tagged;
  }

  // ------------------------------------------------ what the lists contain

  /** Some token of `tokens` is a holiday token reaching employee `j`. */
  predicate Reached(employees: seq<FlatEmployee>, j: nat, tokens: seq<string>)
    requires j < |employees|
  {
    exists t :: t in tokens && HolidayApplies(t, employees[j].location)
  }

  /** Some token of `tokens` is not a holiday token and names employee `j`, the
      last roster entry of that name. */
  predicate Routed(employees: seq<FlatEmployee>, j: nat, tokens: seq<string>)
    requires j < |employees|
  {
    exists t :: t in tokens && !IsHolidayToken(t) && LastIndex(employees, t) == j
  }

  /** The days one event's tokens add to each list of employee `j`. */
  lemma {:induction false} TokensDays(employees: seq<FlatEmployee>, j: nat, kind: string, tokens: seq<string>, dates: seq<int>, d: int)
    requires j < |employees|
    ensures d in TokensBuckets(employees, j, kind, tokens, dates).holiday
        <==> d in dates && Reached(employees, j, tokens)
    ensures d in TokensBuckets(employees, j, kind, tokens, dates).pto
        <==> d in dates && kind == "P" && Routed(employees, j, tokens)
    ensures d in TokensBuckets(employees, j, kind, tokens, dates).travel
        <==> d in dates && kind == "T" && Routed(employees, j, tokens)
  {
    if tokens != [] {
      var init := tokens[..|tokens| - 1];
      var last := tokens[|tokens| - 1];
      TokensDays(employees, j, kind, init, dates, d);
      TokenDays(employees, j, kind, last, dates, d);
      LastSplit(tokens);
    }
  }

  /** The days one token adds to each list of employee `j`. */
  lemma {:induction false} TokenDays(employees: seq<FlatEmployee>, j: nat, kind: string, token: string, dates: seq<int>, d: int)
    requires j < |employees|
    ensures d in TokenBuckets(employees, j, kind, token, dates).holiday
        <==> d in dates && HolidayApplies(token, employees[j].location)
    ensures d in TokenBuckets(employees, j, kind, token, dates).pto
        <==> d in dates && kind == "P" && !IsHolidayToken(token) && LastIndex(employees, token) == j
    ensures d in TokenBuckets(employees, j, kind, token, dates).travel
        <==> d in dates && kind == "T" && !IsHolidayToken(token) && LastIndex(employees, token) == j
  {
  }

  /** One of the three lists of an employee. */
  datatype ListKind = PtoList | TravelList | HolidayList

  function Pick(b: Buckets, which: ListKind): seq<int>
  {
    match which
    case PtoList => b.pto
    case TravelList => b.travel
    case HolidayList => b.holiday
  }

  /** Tagged event `t` puts day `d` on list `which` of employee `j`: it covers
      `d`, and either has a holiday token reaching them (Holiday list) or is of
      the PTO (Travel) calendar and has a token naming them (PTO, Travel list). */
  ghost predicate Hit(employees: seq<FlatEmployee>, j: nat, t: Tagged, d: int, which: ListKind)
    requires j < |employees|
  {
    && t.event.start <= d < t.event.end
    && match which
       case HolidayList => Reached(employees, j, t.targets)
       case PtoList => t.event.kind == "P" && Routed(employees, j, t.targets)
       case TravelList => t.event.kind == "T" && Routed(employees, j, t.targets)
  }

  /** What one tagged event adds, list by list. */
  lemma {:induction false} EventDays(employees: seq<FlatEmployee>, j: nat, t: Tagged, d: int, which: ListKind)
    requires j < |employees|
    ensures d in Pick(EventBuckets(employees, j, t), which) <==> Hit(employees, j, t, d, which)
  {
    EventDatesExactly(t.event);
    TokensDays(employees, j, t.event.kind, t.targets, EventDates(t.event), d);
  }

  /** The days the fan-out gives employee `j`: a day is on their Holiday list
      iff some tagged event covers it and has a holiday token reaching them; on
      their PTO (Travel) list iff some tagged event of the PTO (Travel) calendar
      covers it and has a token naming them. Nothing else is added. */
  lemma {:induction false} ExpectedDays(employees: seq<FlatEmployee>, j: nat, tagged: seq<Tagged>, d: int, which: ListKind)
    requires j < |employees|
    ensures d in Pick(Expected(employees, j, tagged), which)
        <==> exists i :: 0 <= i < |tagged| && Hit(employees, j, tagged[i], d, which)
  {
    if tagged != [] {
      var n := |tagged| - 1;
      var init := tagged[..n];
      ExpectedDays(employees, j, init, d, which);
      EventDays(employees, j, tagged[n], d, which);
      assert Pick(Expected(employees, j, tagged), which)
          == Pick(Expected(employees, j, init), which) + Pick(EventBuckets(employees, j, tagged[n]), which);
      assert forall i :: 0 <= i < n ==> tagged[i] == init[i];
    }
  }

  /** Extending the tagged list extends every employee's lists. */
  lemma {:induction false} ExpectedAppend(employees: seq<FlatEmployee>, j: nat, a: seq<Tagged>, b: seq<Tagged>)
    requires j < |employees|
    ensures Expected(employees, j, a + b) == Join(Expected(employees, j, a), Expected(employees, j, b))
  {
    if b == [] {
      assert a + b == a;
      JoinNone(Expected(employees, j, a));
    } else {
      var n := |b| - 1;
      assert (a + b)[..|a + b| - 1] == a + b[..n];
      assert (a + b)[|a + b| - 1] == b[n];
      ExpectedAppend(employees, j, a, b[..n]);
      JoinAssoc(Expected(employees, j, a), Expected(employees, j, b[..n]), EventBuckets(employees, j, b[n]));
    }
  }

  // ---------------------------------------------------------- the matrix

  /** Writing `code` for each day of `days` in turn (`m[d] = code`). */
  function Paint(m: map<int, string>, days: seq<int>, code: string): map<int, string>
  {
    if days == [] then m else Paint(m, days[..|days| - 1], code)[days[|days| - 1] := code]
  }

  /** After painting, a day has an entry iff it had one or was painted, and a
      painted day holds `code`, whatever the order and repetitions of `days`. */
  lemma {:induction false} PaintAt(m: map<int, string>, days: seq<int>, code: string, d: int)
    ensures d in Paint(m, days, code) <==> d in m || d in days
    ensures d in Paint(m, days, code) ==> Paint(m, days, code)[d] == if d in days then code else m[d]
  {
    if days != [] {
      var init := days[..|days| - 1];
      PaintAt(m, init, code, d);
      assert days == init + [days[|days| - 1]];
    }
  }

  /** The inner loops of lines 304-306: one write per listed day. */
  method PaintDays(m: map<int, string>, days: seq<int>, code: string) returns (m': map<int, string>)
    ensures m' == Paint(m, days, code)
  {
    m' := m;
    for i := 0 to |days|
      invariant m' == Paint(m, days[..i], code)
    {
      m' := m'[days[i] := code];
      assert days[..i + 1][..i] == days[..i];
    }
    assert days[..|days|] == days;
  }

  /** An employee's entry after their PTO, Travel and Holiday days are written in that order. */
  function Codes(m: map<int, string>, b: Buckets): map<int, string>
  {
    Paint(Paint(Paint(m, b.pto, "P"), b.travel, "T"), b.holiday, "H")
  }

  /** Last write wins: a day is "H" if it is on the Holiday list, else "T" if on
      the Travel list, else "P" if on the PTO list, else what it was before. */
  lemma {:induction false} CodesAt(m: map<int, string>, b: Buckets, d: int)
    ensures d in Codes(m, b) <==> d in m || d in b.pto || d in b.travel || d in b.holiday
    ensures d in Codes(m, b) ==>
              Codes(m, b)[d] == if d in b.holiday then "H" else if d in b.travel then "T" else if d in b.pto then "P" else m[d]
  {
    PaintAt(m, b.pto, "P", d);
    PaintAt(Paint(m, b.pto, "P"), b.travel, "T", d);
    PaintAt(Paint(Paint(m, b.pto, "P"), b.travel, "T"), b.holiday, "H", d);
  }

  /** The names of the flat roster. */
  function Names(employees: seq<FlatEmployee>): set<string>
  {
    set j | 0 <= j < |employees| :: employees[j].name
  }

  /** `processed_data` after the first `k` employees of the loop of lines 303-306,
      starting from an empty entry per name (line 302). */
  function Matrix(employees: seq<FlatEmployee>, lists: seq<Buckets>, k: nat): (pd: map<string, map<int, string>>)
    requires |lists| == |employees| && k <= |employees|
    ensures forall j :: 0 <= j < |employees| ==> employees[j].name in pd
  {
    if k == 0 then
      assert forall j :: 0 <= j < |employees| ==> employees[j].name in Names(employees);
      map name | name in Names(employees) :: map[]
    else
      var pd := Matrix(employees, lists, k - 1);
      var name := employees[k - 1].name;
      pd[name := Codes(pd[name], lists[k - 1])]
  }

  /** The matrix has an entry for every name of the flat roster and for nothing else. */
  lemma {:induction false} MatrixKeys(employees: seq<FlatEmployee>, lists: seq<Buckets>, k: nat)
    requires |lists| == |employees| && k <= |employees|
    ensures Matrix(employees, lists, k).Keys == Names(employees)
  {
    if k > 0 {
      MatrixKeys(employees, lists, k - 1);
      var name := employees[k - 1].name;
      assert name in Names(employees);
    }
  }

  /** The matrix loop (lines 302-306). Every flat employee has an entry. */
  method BuildMatrix(employees: seq<FlatEmployee>, lists: seq<Buckets>) returns (data: map<string, map<int, string>>)
    requires |lists| == |employees|
    ensures data == Matrix(employees, lists, |employees|)
    ensures data.Keys == Names(employees)
  {
    data := map name | name in Names(employees) :: map[];
    for k := 0 to |employees|
      invariant data == Matrix(employees, lists, k)
    {
      var emp := employees[k];
      var entry := data[emp.name];
      entry := PaintDays(entry, lists[k].pto, "P");
      entry := PaintDays(entry, lists[k].travel, "T");
      entry := PaintDays(entry, lists[k].holiday, "H");
      data := data[emp.name := entry];
    }
    MatrixKeys(employees, lists, |employees|);
  }

  /** No two flat employees share a name. */
  predicate DistinctNames(employees: seq<FlatEmployee>)
  {
    forall a, b :: 0 <= a < b < |employees| ==> employees[a].name != employees[b].name
  }

  /** With distinct names, an employee's entry holds exactly their own codes:
      empty before their turn, their painted lists after it. */
  lemma {:induction false} MatrixEntry(employees: seq<FlatEmployee>, lists: seq<Buckets>, k: nat, j: nat)
    requires |lists| == |employees| && k <= |employees| && j < |employees|
    requires DistinctNames(employees)
    ensures employees[j].name in Matrix(employees, lists, k)
    ensures Matrix(employees, lists, k)[employees[j].name] == if j < k then Codes(map[], lists[j]) else map[]
  {
    if k > 0 {
      MatrixEntry(employees, lists, k - 1, j);
    }
  }

  /** Whatever the names, a day is in a name's entry iff some flat employee of
      that name has it on one of their lists: entries of employees sharing a
      name are merged. */
  lemma {:induction false} MatrixDays(employees: seq<FlatEmployee>, lists: seq<Buckets>, k: nat, i: nat, d: int)
    requires |lists| == |employees| && k <= |employees| && i < |employees|
    ensures var name := employees[i].name;
            d in Matrix(employees, lists, k)[name]
            <==> exists j :: 0 <= j < k && employees[j].name == name
                          && (d in lists[j].pto || d in lists[j].travel || d in lists[j].holiday)
  {
    var name := employees[i].name;
    if k > 0 {
      MatrixDays(employees, lists, k - 1, i, d);
      var pd := Matrix(employees, lists, k - 1);
      if employees[k - 1].name == name {
        CodesAt(pd[name], lists[k - 1], d);
      }
    }
  }

  /** Lists with the same days, list by list. */
  ghost predicate SameDays(a: Buckets, b: Buckets)
  {
    && (forall d :: d in a.pto <==> d in b.pto)
    && (forall d :: d in a.travel <==> d in b.travel)
    && (forall d :: d in a.holiday <==> d in b.holiday)
  }

  /** Painting depends only on which days are listed. */
  lemma {:induction false} PaintSameDays(m: map<int, string>, x: seq<int>, y: seq<int>, code: string)
    requires forall d :: d in x <==> d in y
    ensures Paint(m, x, code) == Paint(m, y, code)
  {
    forall d ensures (d in Paint(m, x, code) <==> d in Paint(m, y, code))
      && (d in Paint(m, x, code) ==> Paint(m, x, code)[d] == Paint(m, y, code)[d])
    {
      PaintAt(m, x, code, d);
      PaintAt(m, y, code, d);
    }
  }

  lemma {:induction false} CodesSameDays(m: map<int, string>, a: Buckets, b: Buckets)
    requires SameDays(a, b)
    ensures Codes(m, a) == Codes(m, b)
  {
    PaintSameDays(m, a.pto, b.pto, "P");
    PaintSameDays(Paint(m, a.pto, "P"), a.travel, b.travel, "T");
    PaintSameDays(Paint(Paint(m, a.pto, "P"), a.travel, "T"), a.holiday, b.holiday, "H");
  }

  /** Duplicate days are harmless: lists with the same days give the same matrix. */
  lemma {:induction false} MatrixSameDays(employees: seq<FlatEmployee>, a: seq<Buckets>, b: seq<Buckets>, k: nat)
    requires |a| == |employees| && |b| == |employees| && k <= |employees|
    requires forall j :: 0 <= j < |employees| ==> SameDays(a[j], b[j])
    ensures Matrix(employees, a, k) == Matrix(employees, b, k)
  {
    if k > 0 {
      MatrixSameDays(employees, a, b, k - 1);
      var pd := Matrix(employees, a, k - 1);
      var name := employees[k - 1].name;
      assert SameDays(a[k - 1], b[k - 1]);
      CodesSameDays(pd[name], a[k - 1], b[k - 1]);
      assert Matrix(employees, a, k) == pd[name := Codes(pd[name], a[k - 1])];
      assert Matrix(employees, b, k) == pd[name := Codes(pd[name], b[k - 1])];
    }
  }

  // ------------------------------------------------------------ the whole step

  /** What the resolution step yields: nothing when no event overlaps the
      window (the script then stops without a workbook), else the status matrix
      and the names the resolver did not map. */
  datatype Outcome = NoEvents | Resolved(data: map<string, map<int, string>>, unmatched: set<string>)

  /** The resolution step as a value. */
  function Resolve(events: seq<Event>, mapping: map<string, seq<string>>, employees: seq<FlatEmployee>,
                   startDate: int, endDate: int): Outcome
  {
    var inRange := FilterToWindow(events, startDate, endDate);
    if inRange == [] then NoEvents
    else Resolved(Matrix(employees, ExpectedAll(employees, TagAll(inRange, mapping)), |employees|),
                  Unmatched(inRange, mapping))
  }

  /** Lines 246-306 of `main`: filter, associate, fan out and fold. */
  method ResolveEvents(events: seq<Event>, mapping: map<string, seq<string>>, employees: seq<FlatEmployee>,
                       startDate: int, endDate: int) returns (outcome: Outcome)
    ensures outcome == Resolve(events, mapping, employees, startDate, endDate)
  {
    var eventsInRange := FilterToWindow(events, startDate, endDate);
    if eventsInRange == [] {
      return NoEvents;
    }
    var tagged, unmatched := AssociateEvents(eventsInRange, mapping);
    assert tagged == TagAll(eventsInRange, mapping);
    assert unmatched == Unmatched(eventsInRange, mapping);
    var lists := FanOut(employees, tagged);
    var data := BuildMatrix(employees, lists);
    outcome := Resolved(data, unmatched);
  }

  /** No workbook iff no event overlaps the window. */
  lemma {:induction false} NoEventsExactly(events: seq<Event>, mapping: map<string, seq<string>>, employees: seq<FlatEmployee>,
                        startDate: int, endDate: int)
    ensures Resolve(events, mapping, employees, startDate, endDate).NoEvents?
        <==> forall e :: e in events ==> !InWindow(e, startDate, endDate)
  {
    var inRange := FilterToWindow(events, startDate, endDate);
    assert inRange != [] ==> inRange[0] in inRange;
  }

  /** The unmatched names are exactly the names of overlapping events that have
      no key in the mapping. */
  lemma {:induction false} UnmatchedExactly(events: seq<Event>, mapping: map<string, seq<string>>, employees: seq<FlatEmployee>,
                         startDate: int, endDate: int, name: string)
    requires Resolve(events, mapping, employees, startDate, endDate).Resolved?
    ensures name in Resolve(events, mapping, employees, startDate, endDate).unmatched
        <==> name !in mapping && exists e :: e in events && InWindow(e, startDate, endDate) && e.name == name
  {
    var inRange := FilterToWindow(events, startDate, endDate);
    if name !in mapping && exists e :: e in events && InWindow(e, startDate, endDate) && e.name == name {
      var e :| e in events && InWindow(e, startDate, endDate) && e.name == name;
      assert e in inRange;
      var i :| 0 <= i < |inRange| && inRange[i] == e;
    }
  }

  /** Tagging is pointwise, so it distributes over concatenation. */
  lemma {:induction false} TagAllAppend(a: seq<Event>, b: seq<Event>, mapping: map<string, seq<string>>)
    ensures TagAll(a + b, mapping) == TagAll(a, mapping) + TagAll(b, mapping)
  {
  }

  /** Repeating the events reports the same unmatched names. */
  lemma {:induction false} UnmatchedTwice(events: seq<Event>, mapping: map<string, seq<string>>)
    ensures Unmatched(events + events, mapping) == Unmatched(events, mapping)
  {
    forall name | name in Unmatched(events + events, mapping) ensures name in Unmatched(events, mapping) {
      var i :| 0 <= i < |events + events| && (events + events)[i].name !in mapping && (events + events)[i].name == name;
      var k := if i < |events| then i else i - |events|;
      assert (events + events)[i] == events[k];
    }
    forall name | name in Unmatched(events, mapping) ensures name in Unmatched(events + events, mapping) {
      var i :| 0 <= i < |events| && events[i].name !in mapping && events[i].name == name;
      assert (events + events)[i] == events[i];
    }
  }

  /** Fanning out the same tagged events twice gives the same matrix. */
  lemma {:induction false} MatrixTwice(employees: seq<FlatEmployee>, tagged: seq<Tagged>)
    ensures Matrix(employees, ExpectedAll(employees, tagged + tagged), |employees|)
         == Matrix(employees, ExpectedAll(employees, tagged), |employees|)
  {
    var a := ExpectedAll(employees, tagged + tagged);
    var b := ExpectedAll(employees, tagged);
    forall j | 0 <= j < |employees| ensures SameDays(a[j], b[j]) {
      ExpectedAppend(employees, j, tagged, tagged);
    }
    MatrixSameDays(employees, a, b, |employees|);
  }

  /** Processing the same events twice yields the same outcome: the same
      matrix and the same unmatched names. */
  lemma {:induction false} ResolveTwice(events: seq<Event>, mapping: map<string, seq<string>>, employees: seq<FlatEmployee>,
                     startDate: int, endDate: int)
    ensures Resolve(events + events, mapping, employees, startDate, endDate)
         == Resolve(events, mapping, employees, startDate, endDate)
  {
    var inRange := FilterToWindow(events, startDate, endDate);
    FilterAppend(events, events, startDate, endDate);
    TagAllAppend(inRange, inRange, mapping);
    MatrixTwice(employees, TagAll(inRange, mapping));
    UnmatchedTwice(inRange, mapping);
  }

  /** Some event overlapping the window covers day `d` and puts it on list
      `which` of employee `j`, with the targets the mapping gives its name. */
  ghost predicate Scheduled(events: seq<Event>, mapping: map<string, seq<string>>, employees: seq<FlatEmployee>,
                            startDate: int, endDate: int, j: nat, d: int, which: ListKind)
    requires j < |employees|
  {
    exists e :: e in events && InWindow(e, startDate, endDate)
             && Hit(employees, j, Tagged(e, Targets(mapping, e.name)), d, which)
  }

  /** `Scheduled` read on the tagged list of the overlapping events. */
  lemma {:induction false} ScheduledTagged(events: seq<Event>, mapping: map<string, seq<string>>, employees: seq<FlatEmployee>,
                        startDate: int, endDate: int, j: nat, d: int, which: ListKind)
    requires j < |employees|
    ensures var tagged := TagAll(FilterToWindow(events, startDate, endDate), mapping);
            Scheduled(events, mapping, employees, startDate, endDate, j, d, which)
            <==> exists i :: 0 <= i < |tagged| && Hit(employees, j, tagged[i], d, which)
  {
    var tagged := TagAll(FilterToWindow(events, startDate, endDate), mapping);
    if Scheduled(events, mapping, employees, startDate, endDate, j, d, which) {
      var i := ScheduledToTagged(events, mapping, employees, startDate, endDate, j, d, which);
      assert 0 <= i < |tagged| && Hit(employees, j, tagged[i], d, which);
    }
    if exists i :: 0 <= i < |tagged| && Hit(employees, j, tagged[i], d, which) {
      var i :| 0 <= i < |tagged| && Hit(employees, j, tagged[i], d, which);
      TaggedToScheduled(events, mapping, employees, startDate, endDate, j, d, which, i);
    }
  }

  /** An overlapping event that schedules the day sits in the tagged list, at `i`. */
  lemma {:induction false} ScheduledToTagged(events: seq<Event>, mapping: map<string, seq<string>>, employees: seq<FlatEmployee>,
                          startDate: int, endDate: int, j: nat, d: int, which: ListKind)
    returns (i: nat)
    requires j < |employees|
    requires Scheduled(events, mapping, employees, startDate, endDate, j, d, which)
    ensures i < |TagAll(FilterToWindow(events, startDate, endDate), mapping)|
    ensures Hit(employees, j, TagAll(FilterToWindow(events, startDate, endDate), mapping)[i], d, which)
  {
    var inRange := FilterToWindow(events, startDate, endDate);
    var e :| e in events && InWindow(e, startDate, endDate)
          && Hit(employees, j, Tagged(e, Targets(mapping, e.name)), d, which);
    assert e in inRange;
    i :| 0 <= i < |inRange| && inRange[i] == e;
    assert TagAll(inRange, mapping)[i] == Tagged(e, Targets(mapping, e.name));
  }

  /** A tagged event that schedules the day is an overlapping event. */
  lemma {:induction false} TaggedToScheduled(events: seq<Event>, mapping: map<string, seq<string>>, employees: seq<FlatEmployee>,
                          startDate: int, endDate: int, j: nat, d: int, which: ListKind, i: nat)
    requires j < |employees|
    requires i < |TagAll(FilterToWindow(events, startDate, endDate), mapping)|
    requires Hit(employees, j, TagAll(FilterToWindow(events, startDate, endDate), mapping)[i], d, which)
    ensures Scheduled(events, mapping, employees, startDate, endDate, j, d, which)
  {
    var inRange := FilterToWindow(events, startDate, endDate);
    var e := inRange[i];
    assert e in inRange;
    assert TagAll(inRange, mapping)[i] == Tagged(e, Targets(mapping, e.name));
  }

  /** The status matrix, end to end, for a roster without repeated names: every
      employee has an entry; day `d` is in it iff some overlapping event puts
      it on one of their lists, and then it reads "H" if some event puts it on
      the Holiday list, else "T" if some event puts it on the Travel list,
      else "P". Days outside the window can occur: events are not clipped. */
  lemma {:induction false} StatusOfDay(events: seq<Event>, mapping: map<string, seq<string>>, employees: seq<FlatEmployee>,
                    startDate: int, endDate: int, j: nat, d: int)
    requires DistinctNames(employees) && j < |employees|
    requires Resolve(events, mapping, employees, startDate, endDate).Resolved?
    ensures employees[j].name in Resolve(events, mapping, employees, startDate, endDate).data
    ensures var entry := Resolve(events, mapping, employees, startDate, endDate).data[employees[j].name];
            var holiday := Scheduled(events, mapping, employees, startDate, endDate, j, d, HolidayList);
            var travel := Scheduled(events, mapping, employees, startDate, endDate, j, d, TravelList);
            var pto := Scheduled(events, mapping, employees, startDate, endDate, j, d, PtoList);
            && (d in entry <==> holiday || travel || pto)
            && (d in entry ==> entry[d] == if holiday then "H" else if travel then "T" else "P")
  {
    var lists := ExpectedAll(employees, TagAll(FilterToWindow(events, startDate, endDate), mapping));
    MatrixEntry(employees, lists, |employees|, j);
    CodesAt(map[], lists[j], d);
    ListedIffScheduled(events, mapping, employees, startDate, endDate, j, d, HolidayList);
    ListedIffScheduled(events, mapping, employees, startDate, endDate, j, d, TravelList);
    ListedIffScheduled(events, mapping, employees, startDate, endDate, j, d, PtoList);
  }

  /** A day is on list `which` of employee `j` after the fan-out iff some event
      overlapping the window schedules it there. */
  lemma {:induction false} ListedIffScheduled(events: seq<Event>, mapping: map<string, seq<string>>, employees: seq<FlatEmployee>,
                           startDate: int, endDate: int, j: nat, d: int, which: ListKind)
    requires j < |employees|
    ensures var lists := ExpectedAll(employees, TagAll(FilterToWindow(events, startDate, endDate), mapping));
            d in Pick(lists[j], which) <==> Scheduled(events, mapping, employees, startDate, endDate, j, d, which)
  {
    var tagged := TagAll(FilterToWindow(events, startDate, endDate), mapping);
    ExpectedDays(employees, j, tagged, d, which);
    ScheduledTagged(events, mapping, employees, startDate, endDate, j, d, which);
  }
}
