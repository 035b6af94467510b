/** The proleptic Gregorian calendar in UTC, as far as a subscription month needs it. */
module Calendar {
  const DAY: int := 86_400_000_000_000  // nanoseconds

  datatype Date = Date(year: int, month: int, day: int)
  {
    predicate Valid() {
      1 <= month <= 12 && 1 <= day <= DaysIn(year, month)
    }
  }

  datatype Moment = Moment(date: Date, clock: int)
  {
    predicate Valid() {
      date.Valid() && 0 <= clock < DAY
    }
  }

  predicate Leap(year: int) {
    year % 4 == 0 && (year % 100 != 0 || year % 400 == 0)
  }

  function DaysIn(year: int, month: int): (r: int)
    requires 1 <= month <= 12
    ensures 28 <= r <= 31
  {
    if month == 2 then (if Leap(year) then 29 else 28)
    else if month == 4 || month == 6 || month == 9 || month == 11 then 30
    else 31
  }

  /** The days of the months of `year` before `month`. */
  function DaysBefore(year: int, month: int): int
    requires 1 <= month <= 13
  {
    if month <= 2 then 31 * (month - 1)
    else 59 + (153 * (month - 3) + 2) / 5 + if Leap(year) then 1 else 0
  }

  /** The days from 1970 to the start of `year`. */
  function YearStart(year: int): int
    decreases if year < 1970 then 1970 - year else year - 1970
  {
    if year == 1970 then 0
    else if year > 1970 then YearStart(year - 1) + DaysBefore(year - 1, 13)
    else YearStart(year + 1) - DaysBefore(year, 13)
  }

  /** The days up to the first of a month. */
  function MonthOffset(year: int, month: int): int
    requires 1 <= month <= 12
  {
    YearStart(year) + DaysBefore(year, month)
  }

  /** A count of days that grows by one from each date to the next. */
  function DayNumber(d: Date): int
    requires 1 <= d.month <= 12
  {
    MonthOffset(d.year, d.month) + d.day
  }

  function At(m: Moment): int
    requires m.Valid()
  {
    DayNumber(m.date) * DAY + m.clock
  }

  lemma MonthLength(year: int, month: int)
    requires 1 <= month <= 12
    ensures DaysBefore(year, month + 1) == DaysBefore(year, month) + DaysIn(year, month)
  {
  }

  // ---------------------------------------------------------------- time.Date

  function NextMonth(year: int, month: int): (int, int) {
    if month == 12 then (year + 1, 1) else (year, month + 1)
  }

  function PreviousMonth(year: int, month: int): (int, int) {
    if month == 1 then (year - 1, 12) else (year, month - 1)
  }

  lemma OffsetOfNextMonth(year: int, month: int)
    requires 1 <= month <= 12
    ensures var (y, m) := NextMonth(year, month); MonthOffset(y, m) == MonthOffset(year, month) + DaysIn(year, month)
  {
    MonthLength(year, month);
  }

  /** Day `day` counted from the first of a month, where days outside the month carry over. */
  function Carried(year: int, month: int, day: int): (r: Date)
    requires 1 <= month <= 12
    ensures r.Valid()
    ensures DayNumber(r) == MonthOffset(year, month) + day
    decreases if day < 1 then 1 else 0, if day < 1 then 1 - day else day
  {
    var length := DaysIn(year, month);
    if day < 1 then
      var (y, m) := PreviousMonth(year, month);
      OffsetOfNextMonth(y, m);
      Carried(y, m, day + DaysIn(y, m))
    else if day <= length then Date(year, month, day)
    else
      var (y, m) := NextMonth(year, month);
      OffsetOfNextMonth(year, month);
      Carried(y, m, day - length)
  }

  /** time.Date and AddDate: months outside 1..12 carry into the year, then days into the month. */
  function Normalized(year: int, month: int, day: int): Date {
    var (y, m) := NormalMonth(year, month);
    Carried(y, m, day)
  }

  function NormalMonth(year: int, month: int): (r: (int, int))
    ensures 1 <= r.1 <= 12
    ensures 1 <= r.1 <= 12 && 12 * r.0 + r.1 == 12 * year + month
    decreases if month < 1 then 13 - month else month
  {
    if month < 1 then NormalMonth(year - 1, month + 12)
    else if month > 12 then NormalMonth(year + 1, month - 12)
    else (year, month)
  }

  // ---------------------------------------------------------------- addCalendarMonth

  /** The same clock time a calendar month later, on the last day when the month is shorter. */
  function AddCalendarMonth(value: Moment): Moment {
    var next := Normalized(value.date.year, value.date.month + 1, 1);
    var lastDay := Normalized(next.year, next.month + 1, 0).day;
    var day := if value.date.day > lastDay then lastDay else value.date.day;
    Moment(Normalized(next.year, next.month, day), value.clock)
  }

  lemma FirstOfNextMonth(year: int, month: int)
    requires 1 <= month <= 12
    ensures var (y, m) := NextMonth(year, month); Normalized(year, month + 1, 1) == Date(y, m, 1)
  {
  }

  /** Day zero of the following month is the last day of this one. */
  lemma DayZero(year: int, month: int)
    requires 1 <= month <= 12
    ensures Normalized(year, month + 1, 0) == Date(year, month, DaysIn(year, month))
  {
    var (y, m) := NextMonth(year, month);
    assert PreviousMonth(y, m) == (year, month);
    assert Carried(y, m, 0) == Carried(year, month, DaysIn(year, month));
  }

  lemma ValidDateStays(d: Date)
    requires d.Valid()
    ensures Normalized(d.year, d.month, d.day) == d
  {
  }

  function MonthLater(value: Moment): Moment
    requires value.Valid()
  {
    var (y, m) := NextMonth(value.date.year, value.date.month);
    Moment(Date(y, m, Clamp(value.date.day, DaysIn(y, m))), value.clock)
  }

  lemma AddCalendarMonthIs(value: Moment)
    requires value.Valid()
    ensures AddCalendarMonth(value) == MonthLater(value) && MonthLater(value).Valid()
  {
    var (y, m) := NextMonth(value.date.year, value.date.month);
    FirstOfNextMonth(value.date.year, value.date.month);
    DayZero(y, m);
    ValidDateStays(MonthLater(value).date);
  }

  function Clamp(a: int, b: int): int {
    if a > b then b else a
  }

  /** A service month spans 28 to 31 whole days, across leap days and year ends. */
  lemma AddCalendarMonthSpan(value: Moment)
    requires value.Valid()
    ensures AddCalendarMonth(value).Valid()
    ensures exists days :: 28 <= days <= 31 && At(AddCalendarMonth(value)) == At(value) + days * DAY
  {
    AddCalendarMonthIs(value);
    var r := AddCalendarMonth(value);
    OffsetOfNextMonth(value.date.year, value.date.month);
    var days := DaysIn(value.date.year, value.date.month) + r.date.day - value.date.day;
    assert DayNumber(r.date) == DayNumber(value.date) + days;
    assert At(r) == At(value) + days * DAY;
  }

  // ---------------------------------------------------------------- instants

  /** The moment `t` nanoseconds into the calendar. */
  function Civil(t: int): (r: Moment)
    ensures r.Valid() && At(r) == t
  {
    Moment(Carried(1970, 1, t / DAY), t % DAY)
  }

  predicate EarlierMonth(y1: int, m1: int, y2: int, m2: int) {
    y1 < y2 || (y1 == y2 && m1 < m2)
  }

  lemma {:induction false} EarlierMonthEnds(y1: int, m1: int, y2: int, m2: int)
    requires 1 <= m1 <= 12 && 1 <= m2 <= 12 && EarlierMonth(y1, m1, y2, m2)
    ensures MonthOffset(y1, m1) + DaysIn(y1, m1) <= MonthOffset(y2, m2)
    decreases 12 * (y2 - y1) + m2 - m1
  {
    OffsetOfNextMonth(y1, m1);
    var (y, m) := NextMonth(y1, m1);
    if EarlierMonth(y, m, y2, m2) { EarlierMonthEnds(y, m, y2, m2); }
  }

  /** Different moments are different instants. */
  lemma AtIsInjective(a: Moment, b: Moment)
    requires a.Valid() && b.Valid() && At(a) == At(b)
    ensures a == b
  {
    var d, e := a.date, b.date;
    if EarlierMonth(d.year, d.month, e.year, e.month) { EarlierMonthEnds(d.year, d.month, e.year, e.month); }
    if EarlierMonth(e.year, e.month, d.year, d.month) { EarlierMonthEnds(e.year, e.month, d.year, d.month); }
  }

  /** `r` is addCalendarMonth of the instant `t`, whichever moment stands for it. */
  ghost predicate IsMonthAfter(t: int, r: int) {
    forall m: Moment :: m.Valid() && At(m) == t ==> AddCalendarMonth(m).Valid() && r == At(AddCalendarMonth(m))
  }

  ghost function AddMonth(t: int): (r: int)
    ensures t < r && IsMonthAfter(t, r)
  {
    OneMonthAfter(t);
    AddCalendarMonthSpan(Civil(t));
    var r :| IsMonthAfter(t, r);
    r
  }

  lemma OneMonthAfter(t: int)
    ensures AddCalendarMonth(Civil(t)).Valid() && IsMonthAfter(t, At(AddCalendarMonth(Civil(t))))
  {
    AddCalendarMonthIs(Civil(t));
    forall m: Moment | m.Valid() && At(m) == t ensures m == Civil(t) {
      AtIsInjective(m, Civil(t));
    }
  }

  method MonthAfter(t: int) returns (r: int)
    ensures r == AddMonth(t)
  {
    AddCalendarMonthIs(Civil(t));
    r := At(AddCalendarMonth(Civil(t)));
  }

  /** The civil time a month on, and how many whole days it takes. */
  lemma AddMonthIs(t: int)
    ensures Civil(AddMonth(t)) == MonthLater(Civil(t))
    ensures exists days :: 28 <= days <= 31 && AddMonth(t) == t + days * DAY
  {
    AddCalendarMonthIs(Civil(t));
    AddCalendarMonthSpan(Civil(t));
    AtIsInjective(Civil(AddMonth(t)), AddCalendarMonth(Civil(t)));
  }

  /** `r` is the calendar month the instant `t` falls in. */
  ghost predicate IsMonthOf(t: int, r: (int, int)) {
    forall m: Moment :: m.Valid() && At(m) == t ==> r == (m.date.year, m.date.month)
  }

  /** The billing month of an instant. */
  ghost function MonthOf(t: int): (r: (int, int))
    ensures IsMonthOf(t, r)
  {
    assert IsMonthOf(t, (Civil(t).date.year, Civil(t).date.month)) by {
      forall m: Moment | m.Valid() && At(m) == t ensures m == Civil(t) { AtIsInjective(m, Civil(t)); }
    }
    var r :| IsMonthOf(t, r);
    r
  }

  method BillingMonth(t: int) returns (r: (int, int))
    ensures r == MonthOf(t)
  {
    var m := Civil(t);
    r := (m.date.year, m.date.month);
  }
}
