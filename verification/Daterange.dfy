/** The search for the next valid instant of `shinken/daterange.py`, for weekly and for
    fixed-calendar date ranges. An instant of local time is a day, counted from 1 January
    1970, which was a Thursday, and a second of that day; every day has 86400 seconds. */
module Dateranges {
  import opened Options

  const DAY := 86400

  datatype Stamp = At(day: nat, sec: nat) {
    predicate NotAfter(u: Stamp) {
      day < u.day || (day == u.day && sec <= u.sec)
    }

    predicate Before(u: Stamp) {
      day < u.day || (day == u.day && sec < u.sec)
    }
  }

  type Instant = t: Stamp | t.sec < DAY witness At(0, 0)

  /** `00:00-24:00`, in seconds from the morning; both ends belong to the range. */
  datatype Timerange = Timerange(start: nat, end: nat) {
    predicate Covers(sec: nat) {
      start <= sec <= end
    }
  }

  datatype Daterange =
    | Calendar(startDay: nat, endDay: nat, timeranges: seq<Timerange>)
    | Weekly(weekday: nat, timeranges: seq<Timerange>)
  {
    /** At least one time range, none of which starts at midnight of the next day or later,
        and a known weekday. */
    predicate Correct() {
      && timeranges != [] && (forall i :: 0 <= i < |timeranges| ==> timeranges[i].start < DAY)
      && (Weekly? ==> weekday < 7)
    }
  }

  // ----- Days -----

  function DayOf(t: Instant): Instant {
    At(t.day, 0)
  }

  function Tomorrow(t: Instant): Instant {
    At(t.day + 1, 0)
  }

  /** Monday is 0. */
  function Weekday(day: nat): nat {
    (day + 3) % 7
  }

  lemma WeekdayShift(day: nat, k: nat)
    requires k < 7
    ensures Weekday(day + k) == if Weekday(day) + k < 7 then Weekday(day) + k else Weekday(day) + k - 7
  {
    var q, w := (day + 3) / 7, (day + 3) % 7;
    assert day + k + 3 == if w + k < 7 then 7 * q + (w + k) else 7 * (q + 1) + (w + k - 7);
  }

  lemma WeekdayLeast(weekday: nat, day: nat, k: nat)
    requires weekday < 7 && k == if weekday >= Weekday(day) then weekday - Weekday(day) else weekday + 7 - Weekday(day)
    ensures k == (weekday - Weekday(day)) % 7 < 7 && Weekday(day + k) == weekday
    ensures forall d :: day <= d < day + k ==> Weekday(d) != weekday
  {
    WeekdayShift(day, k);
    forall d | day <= d < day + k ensures Weekday(d) != weekday {
      WeekdayShift(day, d - day);
    }
  }

  /** The first day from `day` on that falls on the weekday. */
  function WeekdayFrom(weekday: nat, day: nat): (e: nat)
    requires weekday < 7
    ensures day <= e < day + 7 && Weekday(e) == weekday
    ensures forall d :: day <= d < e ==> Weekday(d) != weekday
  {
    WeekdayLeast(weekday, day, if weekday >= Weekday(day) then weekday - Weekday(day) else weekday + 7 - Weekday(day));
    day + (weekday - Weekday(day)) % 7
  }

  /** The first and last second of the days that the range admits, seen from `ref`. */
  function StartAndEnd(dr: Daterange, ref: Instant): (Instant, Instant)
    requires dr.Correct()
  {
    match dr
    case Calendar(startDay, endDay, _) => (At(startDay, 0), At(endDay, DAY - 1))
    case Weekly(weekday, _) => (At(WeekdayFrom(weekday, ref.day), 0), At(WeekdayFrom(weekday, ref.day), DAY - 1))
  }

  predicate DayValid(dr: Daterange, t: Instant)
    requires dr.Correct()
  {
    var (start, end) := StartAndEnd(dr, t);
    start.NotAfter(t) && t.NotAfter(end)
  }

  // ----- What is asked for -----

  /** Some time range covers this second of the day. */
  predicate Covered(trs: seq<Timerange>, sec: nat) {
    exists i :: 0 <= i < |trs| && trs[i].Covers(sec)
  }

  /** The date range contains this day, read off the calendar without any search. */
  predicate OnDay(dr: Daterange, day: nat) {
    match dr
    case Calendar(startDay, endDay, _) => startDay <= day <= endDay
    case Weekly(weekday, _) => Weekday(day) == weekday
  }

  predicate Admits(dr: Daterange, t: Instant) {
    OnDay(dr, t.day) && Covered(dr.timeranges, t.sec)
  }

  /** `r` is the least admitted instant from `t` on, or `None` if there is none. */
  ghost predicate IsNext(dr: Daterange, t: Instant, r: Option<Instant>) {
    && (r.Some? ==> t.NotAfter(r.value) && Admits(dr, r.value))
    && forall u: Instant :: t.NotAfter(u) && (r.Some? ==> u.Before(r.value)) ==> !Admits(dr, u)
  }

  /** Every range starts at a covered second. Well-formed ranges do so. */
  predicate StartsCovered(trs: seq<Timerange>) {
    forall i :: 0 <= i < |trs| ==> Covered(trs, trs[i].start)
  }

  /** A calendar range that ends before it starts must lie behind `t`. */
  predicate Searchable(dr: Daterange, t: Instant) {
    StartsCovered(dr.timeranges) && (dr.Calendar? ==> dr.startDay <= dr.endDay || At(dr.startDay, 0).Before(t))
  }

  /** The day is in the range, and some time range has the second between its ends. */
  lemma AdmitsIs(dr: Daterange, t: Instant)
    ensures Admits(dr, t) <==>
            && (match dr
                case Calendar(startDay, endDay, _) => startDay <= t.day <= endDay
                case Weekly(weekday, _) => (t.day + 3) % 7 == weekday)
            && exists i :: 0 <= i < |dr.timeranges| && dr.timeranges[i].start <= t.sec <= dr.timeranges[i].end
  {
    if i :| 0 <= i < |dr.timeranges| && dr.timeranges[i].start <= t.sec <= dr.timeranges[i].end {
      assert dr.timeranges[i].Covers(t.sec);
    }
  }

  /** 1 January 1970 was a Thursday, 1 January 2024 a Monday, and weekdays follow one another. */
  lemma KnownWeekdays(day: nat)
    ensures Weekday(0) == 3 && Weekday(19723) == 0
    ensures Weekday(day + 1) == (Weekday(day) + 1) % 7
  {
    WeekdayShift(day, 1);
  }

  // ----- The search as the source runs it -----

  method IsTimeValid(dr: Daterange, t: Instant) returns (valid: bool)
    requires dr.Correct()
    ensures valid <==> Admits(dr, t)
  {
    DayValidity(dr, t);
    valid := false;
    if DayValid(dr, t) {
      for i := 0 to |dr.timeranges|
        invariant forall k :: 0 <= k < i ==> !dr.timeranges[k].Covers(t.sec)
      {
        if dr.timeranges[i].Covers(t.sec) {
          return true;
        }
      }
    }
  }

  function Min(s: seq<nat>): (m: nat)
    requires s != []
    ensures m in s && forall i :: 0 <= i < |s| ==> m <= s[i]
  {
    var last := s[|s| - 1];
    if |s| == 1 then last
    else
      var m := Min(s[..|s| - 1]);
      if m <= last then m else last
  }

  lemma MinAppend(s: seq<nat>, x: nat)
    ensures Min(s + [x]) == if s == [] || x < Min(s) then x else Min(s)
  {
    assert (s + [x])[..|s|] == s;
  }

  /** The least start from `sec` on. */
  function Earliest(trs: seq<Timerange>, sec: nat): (r: Option<nat>)
    ensures r.Some? ==> sec <= r.value && exists k :: 0 <= k < |trs| && trs[k].start == r.value
    ensures forall k :: 0 <= k < |trs| && trs[k].start >= sec ==> r.Some? && r.value <= trs[k].start
  {
    if trs == [] then None
    else
      var last := trs[|trs| - 1].start;
      var r := Earliest(trs[..|trs| - 1], sec);
      if last >= sec && (r.None? || last < r.value) then Some(last) else r
  }

  lemma EarliestNext(trs: seq<Timerange>, i: nat, sec: nat)
    requires i < |trs|
    ensures var last, r := trs[i].start, Earliest(trs[..i], sec);
            Earliest(trs[..i + 1], sec) == if last >= sec && (r.None? || last < r.value) then Some(last) else r
  {
    assert trs[..i + 1][..i] == trs[..i] && trs[..i + 1][i] == trs[i];
  }

  function Upcoming(dr: Daterange, sec: nat): (r: Option<nat>)
    requires dr.Correct()
    ensures r.Some? ==> sec <= r.value < DAY
    ensures sec == 0 ==> r.Some?
  {
    assert dr.timeranges[0].start >= 0;
    Earliest(dr.timeranges, sec)
  }

  method GetNextFutureTimerangeValid(dr: Daterange, t: Instant) returns (r: Option<nat>)
    requires dr.Correct()
    ensures r == Upcoming(dr, t.sec)
  {
    var trs := dr.timeranges;
    var starts: seq<nat> := [];
    for i := 0 to |trs|
      invariant Earliest(trs[..i], t.sec) == if starts != [] then Some(Min(starts)) else None
    {
      EarliestNext(trs, i, t.sec);
      if trs[i].start >= t.sec {
        MinAppend(starts, trs[i].start);
        starts := starts + [trs[i].start];
      }
    }
    assert trs[..|trs|] == trs;
    r := if starts != [] then Some(Min(starts)) else None;
  }

  function NextDay(dr: Daterange, t: Instant): Option<Instant>
    requires dr.Correct()
  {
    var start := StartAndEnd(dr, if Upcoming(dr, t.sec).None? then Tomorrow(t) else t).0;
    if t.NotAfter(start) then Some(DayOf(start)) else if DayValid(dr, t) then Some(DayOf(t)) else None
  }

  /** `r` is the morning of the first admitted day from `day` on, or `None` if there is none. */
  ghost predicate IsFirstDay(dr: Daterange, day: nat, r: Option<Instant>) {
    && (r.Some? ==> r.value.sec == 0 && day <= r.value.day && OnDay(dr, r.value.day))
    && forall d :: day <= d && (r.Some? ==> d < r.value.day) ==> !OnDay(dr, d)
  }

  /** A weekly range gives the first of its days, today only if a time range still starts
      today. A calendar range gives the first of its days even if nothing starts any more,
      and one that ends before it starts gives its start as long as that is to come. */
  ghost predicate IsNextDay(dr: Daterange, t: Instant, r: Option<Instant>) {
    match dr
    case Weekly(_, trs) =>
      IsFirstDay(dr, if exists i :: 0 <= i < |trs| && trs[i].start >= t.sec then t.day else t.day + 1, r)
    case Calendar(startDay, endDay, _) =>
      if startDay <= endDay then IsFirstDay(dr, t.day, r)
      else r == if t.NotAfter(At(startDay, 0)) then Some(At(startDay, 0)) else None
  }

  lemma NextDayMeaning(dr: Daterange, t: Instant)
    requires dr.Correct()
    ensures IsNextDay(dr, t, NextDay(dr, t))
  {
    if dr.Weekly? {
      WeeklyNextDay(dr, t);
    } else {
      CalendarNextDay(dr, t);
    }
  }

  method GetNextValidDay(dr: Daterange, t: Instant) returns (r: Option<Instant>)
    requires dr.Correct()
    ensures IsNextDay(dr, t, r)
    ensures r == NextDay(dr, t)
  {
    NextDayMeaning(dr, t);
    r := FindValidDay(dr, t);
  }

  method FindValidDay(dr: Daterange, t: Instant) returns (r: Option<Instant>)
    requires dr.Correct()
    ensures r == NextDay(dr, t)
  {
    var startTime, endTime;
    var future := GetNextFutureTimerangeValid(dr, t);
    if future.None? {
      var (s, e) := StartAndEnd(dr, Tomorrow(t));
      startTime, endTime := s, e;
    } else {
      var (s, e) := StartAndEnd(dr, t);
      startTime, endTime := s, e;
    }
    if t.NotAfter(startTime) {
      return Some(DayOf(startTime));
    }
    if DayValid(dr, t) {
      return Some(DayOf(t));
    }
    return None;
  }

  function FromMorning(dr: Daterange, t: Instant): Option<Instant>
    requires dr.Correct()
  {
    var day := NextDay(dr, t);
    if day.None? then None
    else
      var sec := Upcoming(dr, day.value.sec);
      if sec.Some? then Some(At(day.value.day, sec.value)) else None
  }

  /** get_next_valid_time_from_t */
  function NextValid(dr: Daterange, t: Instant): Option<Instant>
    requires dr.Correct()
  {
    if Admits(dr, t) then Some(t)
    else
      var day := NextDay(dr, t);
      var from := if day.Some? && day.value != At(0, 0) && t.Before(day.value) then day.value else t;
      var sec := Upcoming(dr, from.sec);
      if sec.Some? && day.Some? then Some(At(day.value.day, sec.value)) else FromMorning(dr, Tomorrow(t))
  }

  /** Where the day search fails, the source asks for the time ranges of the current
      instant, `now`, and does not use the answer. */
  method GetNextValidTimeFromT(dr: Daterange, t: Instant, now: Instant) returns (r: Option<Instant>)
    requires dr.Correct()
    ensures r == NextValid(dr, t)
    ensures Searchable(dr, t) ==> IsNext(dr, t, r)
  {
    var valid := IsTimeValid(dr, t);
    if valid {
      r := Some(t);
    } else {
      r := SearchFrom(dr, t, now);
    }
    NextIsLeast(dr, t);
  }

  method SearchFrom(dr: Daterange, t: Instant, now: Instant) returns (r: Option<Instant>)
    requires dr.Correct() && !Admits(dr, t)
    ensures r == NextValid(dr, t)
  {
    var day := FindValidDay(dr, t);
    var sec;
    if day.Some? && day.value != At(0, 0) && t.Before(day.value) {
      sec := GetNextFutureTimerangeValid(dr, day.value);
    } else {
      sec := GetNextFutureTimerangeValid(dr, t);
    }
    if sec.Some? {
      if day.Some? && sec.Some? {
        return Some(At(day.value.day, sec.value));
      }
    }
    r := SearchFromMorning(dr, Tomorrow(t), now);
  }

  method SearchFromMorning(dr: Daterange, t: Instant, now: Instant) returns (r: Option<Instant>)
    requires dr.Correct()
    ensures r == FromMorning(dr, t)
  {
    var day := FindValidDay(dr, t);
    var sec := GetNextFutureTimerangeValid(dr, if day.Some? then day.value else now);
    if day.Some? && sec.Some? {
      return Some(At(day.value.day, sec.value));
    } else {
      return None;
    }
  }

  // ----- Correctness -----

  lemma DayValidity(dr: Daterange, t: Instant)
    requires dr.Correct()
    ensures DayValid(dr, t) <==> OnDay(dr, t.day)
  {
  }

  /** Within a day, the search from an uncovered second finds the least covered one. */
  lemma LeastOfDay(dr: Daterange, s: nat)
    requires dr.Correct() && StartsCovered(dr.timeranges)
    requires s == 0 || !Covered(dr.timeranges, s)
    ensures match Upcoming(dr, s)
            case None => forall u :: u >= s ==> !Covered(dr.timeranges, u)
            case Some(m) => Covered(dr.timeranges, m) && forall u :: s <= u < m ==> !Covered(dr.timeranges, u)
  {
    var trs := dr.timeranges;
    var r := Upcoming(dr, s);
    forall u | u >= s && Covered(trs, u)
      ensures r.Some? && r.value <= u
    {
      CoveredFrom(trs, s, u);
    }
  }

  lemma CoveredFrom(trs: seq<Timerange>, s: nat, u: nat)
    requires (s == 0 || !Covered(trs, s)) && s <= u && Covered(trs, u)
    ensures Earliest(trs, s).Some? && Earliest(trs, s).value <= u
  {
    var i :| 0 <= i < |trs| && trs[i].Covers(u);
    assert s == 0 || !trs[i].Covers(s);
  }

  /** The search on an admitted day. */
  lemma NextOnDay(dr: Daterange, t: Instant)
    requires dr.Correct() && StartsCovered(dr.timeranges) && OnDay(dr, t.day)
    requires t.sec == 0 || !Admits(dr, t)
    ensures match Upcoming(dr, t.sec)
            case None => NoneLeft(dr, t)
            case Some(m) => IsNext(dr, t, Some(At(t.day, m)))
  {
    LeastOfDay(dr, t.sec);
  }

  /** Nothing is admitted in the rest of the day. */
  ghost predicate NoneLeft(dr: Daterange, t: Instant) {
    forall u: Instant :: t.NotAfter(u) && u.day == t.day ==> !Admits(dr, u)
  }

  lemma NextLater(dr: Daterange, t: Instant, e: nat, r: Option<Instant>)
    requires t.day < e && NoneLeft(dr, t) && IsNext(dr, At(e, 0), r)
    requires forall d :: t.day < d < e ==> !OnDay(dr, d)
    ensures IsNext(dr, t, r)
  {
    forall u: Instant | t.NotAfter(u) && (r.Some? ==> u.Before(r.value)) ensures !Admits(dr, u) {
      assert u.day == t.day || (t.day < u.day < e) || At(e, 0).NotAfter(u);
    }
  }

  // the three ways the search goes

  lemma OnLaterDay(dr: Daterange, t: Instant, e: nat)
    requires dr.Correct() && !Admits(dr, t) && NextDay(dr, t) == Some(At(e, 0)) && t.day < e
    ensures NextValid(dr, t) == Some(At(e, Upcoming(dr, 0).value))
  {
  }

  lemma OnSameDay(dr: Daterange, t: Instant)
    requires dr.Correct() && !Admits(dr, t) && NextDay(dr, t) == Some(At(t.day, 0)) && Upcoming(dr, t.sec).Some?
    ensures NextValid(dr, t) == Some(At(t.day, Upcoming(dr, t.sec).value))
  {
  }

  lemma OnNextDay(dr: Daterange, t: Instant)
    requires dr.Correct() && !Admits(dr, t)
    requires NextDay(dr, t).None? || (Upcoming(dr, t.sec).None? && NextDay(dr, t) == Some(At(t.day, 0)))
    ensures NextValid(dr, t) == FromMorning(dr, Tomorrow(t))
  {
  }

  /** The first admitted day after an uneventful rest of today. */
  lemma NextMorning(dr: Daterange, t: Instant, e: nat)
    requires dr.Correct() && StartsCovered(dr.timeranges) && !Admits(dr, t)
    requires t.day < e && OnDay(dr, e) && NoneLeft(dr, t) && forall d :: t.day < d < e ==> !OnDay(dr, d)
    ensures IsNext(dr, t, Some(At(e, Upcoming(dr, 0).value)))
  {
    NextOnDay(dr, At(e, 0));
    NextLater(dr, t, e, Some(At(e, Upcoming(dr, 0).value)));
  }

  lemma WeeklyNextDay(dr: Daterange, t: Instant)
    requires dr.Weekly? && dr.Correct()
    ensures var d := if Upcoming(dr, t.sec).None? then t.day + 1 else t.day;
            NextDay(dr, t) == Some(At(WeekdayFrom(dr.weekday, d), 0))
  {
  }

  lemma WeeklyNext(dr: Daterange, t: Instant)
    requires dr.Weekly? && dr.Correct() && StartsCovered(dr.timeranges) && !Admits(dr, t)
    ensures IsNext(dr, t, NextValid(dr, t))
  {
    WeeklyNextDay(dr, t);
    var e := NextDay(dr, t).value.day;
    if OnDay(dr, t.day) {
      NextOnDay(dr, t);
    }
    if e > t.day {
      OnLaterDay(dr, t, e);
      NextMorning(dr, t, e);
    } else {
      OnSameDay(dr, t);
    }
  }

  lemma CalendarNextDay(dr: Daterange, t: Instant)
    requires dr.Calendar? && dr.Correct()
    ensures NextDay(dr, t) == if t.NotAfter(At(dr.startDay, 0)) then Some(At(dr.startDay, 0))
                              else if t.day <= dr.endDay then Some(At(t.day, 0)) else None
  {
  }

  lemma CalendarNext(dr: Daterange, t: Instant)
    requires dr.Calendar? && dr.Correct() && StartsCovered(dr.timeranges) && !Admits(dr, t)
    requires dr.startDay <= dr.endDay || At(dr.startDay, 0).Before(t)
    ensures IsNext(dr, t, NextValid(dr, t))
  {
    CalendarNextDay(dr, t);
    if t.day < dr.startDay {
      OnLaterDay(dr, t, dr.startDay);
      NextMorning(dr, t, dr.startDay);
    } else if t.day <= dr.endDay {
      NextOnDay(dr, t);
      if Upcoming(dr, t.sec).Some? {
        OnSameDay(dr, t);
      } else {
        CalendarOver(dr, t);
      }
    } else {
      CalendarOver(dr, t);
    }
  }

  lemma CalendarOver(dr: Daterange, t: Instant)
    requires dr.Calendar? && dr.Correct() && StartsCovered(dr.timeranges) && !Admits(dr, t)
    requires At(dr.startDay, 0).Before(t) && NoneLeft(dr, t) && (t.day <= dr.endDay ==> Upcoming(dr, t.sec).None?)
    ensures IsNext(dr, t, NextValid(dr, t))
  {
    CalendarNextDay(dr, t);
    CalendarNextDay(dr, Tomorrow(t));
    OnNextDay(dr, t);
    if t.day < dr.endDay {
      NextMorning(dr, t, t.day + 1);
    }
  }

  /** The search is right at `t`. */
  lemma NextIsLeast(dr: Daterange, t: Instant)
    requires dr.Correct()
    ensures Searchable(dr, t) ==> IsNext(dr, t, NextValid(dr, t))
  {
    if Searchable(dr, t) && !Admits(dr, t) {
      if dr.Weekly? {
        WeeklyNext(dr, t);
      } else {
        CalendarNext(dr, t);
      }
    }
  }

  // ----- Exactly when -----

  /** A calendar range that ends before it starts yields an instant although it admits none. */
  lemma BackwardsCalendar(dr: Daterange, t: Instant)
    requires dr.Correct() && dr.Calendar? && dr.startDay > dr.endDay && t.NotAfter(At(dr.startDay, 0))
    ensures NextValid(dr, t).Some? && !IsNext(dr, t, NextValid(dr, t))
  {
    assert NextDay(dr, t) == Some(At(dr.startDay, 0));
  }

  /** A start that no range covers is returned as if it were valid. */
  lemma UncoveredStart(dr: Daterange, t: Instant, i: nat)
    requires dr.Correct() && OnDay(dr, t.day) && !Covered(dr.timeranges, t.sec)
    requires i < |dr.timeranges| && dr.timeranges[i].start == t.sec
    ensures NextValid(dr, t) == Some(t) && !IsNext(dr, t, NextValid(dr, t))
  {
    assert Upcoming(dr, t.sec) == Some(t.sec);
    if dr.Weekly? {
      WeeklyNextDay(dr, t);
      FromToday(dr.weekday, t.day);
    } else {
      CalendarNextDay(dr, t);
    }
    OnSameDay(dr, t);
  }

  lemma FromToday(weekday: nat, day: nat)
    requires weekday < 7 && Weekday(day) == weekday
    ensures WeekdayFrom(weekday, day) == day
  {
  }

  /** Where every start is covered, a calendar range is searched rightly from `t` exactly if
      it is not backwards or starts before `t`. */
  lemma CalendarRightIff(dr: Daterange, t: Instant)
    requires dr.Correct() && dr.Calendar? && StartsCovered(dr.timeranges)
    ensures IsNext(dr, t, NextValid(dr, t)) <==> dr.startDay <= dr.endDay || At(dr.startDay, 0).Before(t)
  {
    NextIsLeast(dr, t);
    if dr.startDay > dr.endDay && t.NotAfter(At(dr.startDay, 0)) {
      BackwardsCalendar(dr, t);
    }
  }

  /** The search is right at every instant exactly if every range starts at a covered
      second and the calendar is not backwards. */
  lemma RightEverywhereIff(dr: Daterange)
    requires dr.Correct()
    ensures (forall t: Instant :: IsNext(dr, t, NextValid(dr, t))) <==>
            StartsCovered(dr.timeranges) && (dr.Calendar? ==> dr.startDay <= dr.endDay)
  {
    if StartsCovered(dr.timeranges) && (dr.Calendar? ==> dr.startDay <= dr.endDay) {
      forall t: Instant ensures IsNext(dr, t, NextValid(dr, t)) {
        NextIsLeast(dr, t);
      }
    } else if dr.Calendar? && dr.startDay > dr.endDay {
      BackwardsCalendar(dr, At(0, 0));
    } else {
      var i :| 0 <= i < |dr.timeranges| && !Covered(dr.timeranges, dr.timeranges[i].start);
      var d := if dr.Calendar? then dr.startDay else WeekdayFrom(dr.weekday, 0);
      UncoveredStart(dr, At(d, dr.timeranges[i].start), i);
    }
  }

  /** Well-formed ranges start at covered seconds. */
  lemma WellFormedCovered(trs: seq<Timerange>)
    requires forall i :: 0 <= i < |trs| ==> trs[i].start <= trs[i].end
    ensures StartsCovered(trs)
  {
    forall i | 0 <= i < |trs| ensures Covered(trs, trs[i].start) {
      assert trs[i].Covers(trs[i].start);
    }
  }

  // ----- Instants as seconds -----

  function Seconds(t: Instant): nat {
    t.day * DAY + t.sec
  }

  function FromSeconds(n: nat): Instant {
    At(n / DAY, n % DAY)
  }

  /** Instants are the seconds since the epoch, in the same order. */
  lemma SecondsOrder(t: Instant, u: Instant)
    ensures FromSeconds(Seconds(t)) == t
    ensures t.NotAfter(u) <==> Seconds(t) <= Seconds(u)
    ensures Seconds(t) == 86400 * t.day + t.sec
  {
  }

  lemma SecondsBack(n: nat)
    ensures Seconds(FromSeconds(n)) == n
  {
  }

  /** The theorem on plain seconds: the least valid second from `n` on, and `None` exactly
      if there is none. */
  lemma LeastSecond(dr: Daterange, n: nat)
    requires dr.Correct() && StartsCovered(dr.timeranges) && (dr.Calendar? ==> dr.startDay <= dr.endDay)
    ensures match NextValid(dr, FromSeconds(n))
            case None => forall k: nat :: n <= k ==> !Admits(dr, FromSeconds(k))
            case Some(v) => && n <= Seconds(v) && Admits(dr, v)
                            && forall k: nat :: n <= k < Seconds(v) ==> !Admits(dr, FromSeconds(k))
  {
    var t := FromSeconds(n);
    NextIsLeast(dr, t);
    SecondsBack(n);
    if NextValid(dr, t).Some? {
      SecondsOrder(t, NextValid(dr, t).value);
    }
    forall k: nat | n <= k && (NextValid(dr, t).Some? ==> k < Seconds(NextValid(dr, t).value))
      ensures !Admits(dr, FromSeconds(k))
    {
      SecondsBack(k);
      SecondsOrder(t, FromSeconds(k));
      if NextValid(dr, t).Some? {
        SecondsOrder(NextValid(dr, t).value, FromSeconds(k));
      }
    }
  }
}
