/** Rolling a session day forward to the next exchange trading day. */
module TradingCalendar {

  /** A civil date with its weekday, Monday being 0. */
  datatype Date = Date(year: int, month: int, day: int, weekday: int) {
    predicate Sound() {
      1 <= month <= 12 && 1 <= day <= DaysIn(year, month) && 0 <= weekday < 7
    }
  }

  predicate Leap(year: int) {
    year % 4 == 0 && (year % 100 != 0 || year % 400 == 0)
  }

  function DaysIn(year: int, month: int): int {
    if month == 2 then if Leap(year) then 29 else 28
    else if month == 4 || month == 6 || month == 9 || month == 11 then 30
    else 31
  }

  function NextDay(d: Date): (r: Date)
    requires d.Sound()
    ensures r.Sound() && r.weekday == (d.weekday + 1) % 7
  {
    var weekday := (d.weekday + 1) % 7;
    if d.day < DaysIn(d.year, d.month) then Date(d.year, d.month, d.day + 1, weekday)
    else if d.month < 12 then Date(d.year, d.month + 1, 1, weekday)
    else Date(d.year + 1, 1, 1, weekday)
  }

  /** The date n days after d. */
  function AddDays(d: Date, n: nat): (r: Date)
    requires d.Sound()
    ensures r.Sound()
  {
    if n == 0 then d else NextDay(AddDays(d, n - 1))
  }

  /** The full-closure dates that recur on the same month and day. */
  predicate FixedClosure(month: int, day: int) {
    (month == 1 && day == 1) || (month == 6 && day == 19) || (month == 7 && day == 4) || (month == 12 && day == 25)
  }

  /** Full exchange closures.  `goodFriday` stands for the Easter computation. */
  predicate IsHoliday(d: Date, goodFriday: Date -> bool) {
    || FixedClosure(d.month, d.day)
    || (d.month == 1 && d.weekday == 0 && 15 <= d.day <= 21)
    || (d.month == 2 && d.weekday == 0 && 15 <= d.day <= 21)
    || (d.month == 5 && d.weekday == 0 && d.day >= 25)
    || (d.month == 9 && d.weekday == 0 && d.day <= 7)
    || (d.month == 11 && d.weekday == 3 && 22 <= d.day <= 28)
    || goodFriday(d)
  }

  predicate IsTradingDay(d: Date, goodFriday: Date -> bool) {
    d.weekday < 5 && !IsHoliday(d, goodFriday)
  }

  /** Good Friday is some Friday. */
  ghost predicate OnFridays(goodFriday: Date -> bool) {
    forall d :: goodFriday(d) ==> d.weekday == 4
  }

  /** Two days running are never both fixed closures. */
  lemma {:induction false} FixedClosuresIsolated(d: Date)
    requires d.Sound() && FixedClosure(d.month, d.day)
    ensures !FixedClosure(NextDay(d).month, NextDay(d).day)
  {
  }

  /** A moveable Monday is never followed by a fixed closure. */
  lemma {:induction false} TuesdayHolidayHasOpenMonday(d: Date, goodFriday: Date -> bool)
    requires d.Sound() && d.weekday == 0 && OnFridays(goodFriday)
    requires IsHoliday(NextDay(d), goodFriday)
    ensures IsTradingDay(d, goodFriday)
  {
  }

  /** A Wednesday closure is never followed by a Thursday one. */
  lemma {:induction false} WednesdayHolidayHasOpenThursday(d: Date, goodFriday: Date -> bool)
    requires d.Sound() && d.weekday == 2 && OnFridays(goodFriday) && IsHoliday(d, goodFriday)
    ensures IsTradingDay(NextDay(d), goodFriday)
  {
  }

  /** A Tuesday closure is never followed by a Wednesday one. */
  lemma {:induction false} TuesdayHolidayHasOpenWednesday(d: Date, goodFriday: Date -> bool)
    requires d.Sound() && d.weekday == 1 && OnFridays(goodFriday) && IsHoliday(d, goodFriday)
    ensures IsTradingDay(NextDay(d), goodFriday)
  {
  }

  /** The Monday four days after a Thursday closure is a trading day. */
  lemma {:induction false} ThursdayHolidayHasOpenMonday(d: Date, goodFriday: Date -> bool)
    requires d.Sound() && d.weekday == 3 && OnFridays(goodFriday) && IsHoliday(d, goodFriday)
    ensures IsTradingDay(NextDay(NextDay(NextDay(NextDay(d)))), goodFriday)
  {
    var e := NextDay(NextDay(d));
    var f := NextDay(NextDay(e));
    assert FixedClosure(d.month, d.day) || d.month == 11;
    assert e.month == d.month && e.day == d.day + 2;
    assert f.weekday == 0;
  }

  lemma {:induction false} OneOfFive(d: Date, d1: Date, d2: Date, d3: Date, d4: Date, goodFriday: Date -> bool)
    requires d.Sound() && OnFridays(goodFriday)
    requires d1 == NextDay(d) && d2 == NextDay(d1) && d3 == NextDay(d2) && d4 == NextDay(d3)
    requires !IsTradingDay(d, goodFriday) && !IsTradingDay(d1, goodFriday)
    requires !IsTradingDay(d2, goodFriday) && !IsTradingDay(d3, goodFriday)
    ensures IsTradingDay(d4, goodFriday)
  {
    hide IsHoliday, NextDay, OnFridays;
    if d.weekday == 3 {
      ThursdayHolidayHasOpenMonday(d, goodFriday);
    } else if d.weekday == 2 {
      WednesdayHolidayHasOpenThursday(d, goodFriday);
    } else if d.weekday == 1 {
      TuesdayHolidayHasOpenWednesday(d, goodFriday);
    } else if d.weekday == 0 {
      TuesdayHolidayHasOpenWednesday(d1, goodFriday);
    } else if d.weekday == 6 {
      TuesdayHolidayHasOpenWednesday(d2, goodFriday);
    } else if d.weekday == 5 {
      TuesdayHolidayHasOpenWednesday(d3, goodFriday);
    } else if IsHoliday(d4, goodFriday) {
      TuesdayHolidayHasOpenMonday(d3, goodFriday);
    }
  }

  /** Any five days running include a trading day. */
  lemma {:induction false} FiveDaysIncludeTrading(d: Date, goodFriday: Date -> bool)
    requires d.Sound() && OnFridays(goodFriday)
    ensures exists n: nat :: n < 5 && IsTradingDay(AddDays(d, n), goodFriday)
  {
    var d1, d2, d3, d4 := AddDays(d, 1), AddDays(d, 2), AddDays(d, 3), AddDays(d, 4);
    assert AddDays(d, 0) == d && d1 == NextDay(d) && d2 == NextDay(d1) && d3 == NextDay(d2) && d4 == NextDay(d3);
    hide AddDays, IsTradingDay, NextDay, OnFridays;
    if !IsTradingDay(d, goodFriday) && !IsTradingDay(d1, goodFriday) && !IsTradingDay(d2, goodFriday)
        && !IsTradingDay(d3, goodFriday) {
      OneOfFive(d, d1, d2, d3, d4, goodFriday);
    }
  }

  /** d is n days after start, trades, and no day between them does. */
  ghost predicate FirstTradingAfter(start: Date, d: Date, n: nat, goodFriday: Date -> bool)
    requires start.Sound()
  {
    && d == AddDays(start, n) && IsTradingDay(d, goodFriday)
    && forall m: nat :: m < n ==> !IsTradingDay(AddDays(start, m), goodFriday)
  }

  /** The least trading day at or after d, never more than four days away. */
  method NextTradingDay(start: Date, goodFriday: Date -> bool) returns (d: Date)
    requires start.Sound() && OnFridays(goodFriday)
    ensures exists n: nat :: n < 5 && FirstTradingAfter(start, d, n, goodFriday)
  {
    hide IsTradingDay, NextDay, OnFridays, AddDays;
    d := start;
    ghost var n: nat := 0;
    AddDaysStep(start, 0);
    FiveDaysIncludeTrading(start, goodFriday);
    ghost var k: nat :| k < 5 && IsTradingDay(AddDays(start, k), goodFriday);
    while !IsTradingDay(d, goodFriday)
      invariant d == AddDays(start, n) && n <= k
      invariant forall m: nat :: m < n ==> !IsTradingDay(AddDays(start, m), goodFriday)
      decreases 5 - n
    {
      AddDaysStep(start, n);
      d := NextDay(d);
      n := n + 1;
    }
    assert FirstTradingAfter(start, d, n, goodFriday);
  }

  lemma {:induction false} AddDaysStep(d: Date, n: nat)
    requires d.Sound()
    ensures AddDays(d, 0) == d && AddDays(d, n + 1) == NextDay(AddDays(d, n))
  {
    hide NextDay;
  }

  /** The session day is kept when it trades, and rolled forward when it does not. */
  method RolledSessionDay(base: Date, goodFriday: Date -> bool) returns (d: Date)
    requires base.Sound() && OnFridays(goodFriday)
    ensures IsTradingDay(base, goodFriday) ==> d == base
    ensures exists n: nat :: n < 5 && FirstTradingAfter(base, d, n, goodFriday)
  {
    if IsTradingDay(base, goodFriday) {
      assert FirstTradingAfter(base, base, 0, goodFriday);
      return base;
    }
    hide IsHoliday;
    d := NextTradingDay(base, goodFriday);
  }

  // ---------------------------------------------------------------- the list of closures

  /** How many days of its weekday the month has had, the date included. */
  function CountInMonth(d: Date): int { (d.day + 6) / 7 }

  /** The days of the date's own month up to the date that fall on its weekday. */
  ghost function SameWeekday(d: Date): set<int> {
    set day: int | 1 <= day <= d.day && WeeksBefore(d, day)
  }

  predicate WeeksBefore(d: Date, day: int) { (d.day - day) % 7 == 0 }

  lemma {:induction false} CountIsSize(d: Date)
    requires d.day >= 1
    ensures |SameWeekday(d)| == CountInMonth(d)
    decreases d.day
  {
    if d.day > 7 {
      var e := d.(day := d.day - 7);
      CountIsSize(e);
      SevenMore(d, e);
      hide SameWeekday;
    } else {
      FirstOfItsKind(d);
    }
  }

  lemma {:induction false} SevenMore(d: Date, e: Date)
    requires d.day > 7 && e.day == d.day - 7
    ensures |SameWeekday(d)| == |SameWeekday(e)| + 1
  {
    forall day: int ensures day in SameWeekday(d) <==> day in SameWeekday(e) + {d.day} {
      SevenApart(d.day, day);
    }
    assert d.day !in SameWeekday(e);
    assert SameWeekday(d) == SameWeekday(e) + {d.day};
  }

  lemma {:induction false} SevenApart(last: int, day: int)
    ensures (last - day) % 7 == 0 <==> (last - 7 - day) % 7 == 0
    ensures last - 7 < day <= last ==> ((last - day) % 7 == 0 <==> day == last)
  {
  }

  lemma {:induction false} FirstOfItsKind(d: Date)
    requires 1 <= d.day <= 7
    ensures |SameWeekday(d)| == 1
  {
    forall day: int ensures day in SameWeekday(d) <==> day == d.day {
      SevenApart(d.day, day);
    }
    assert SameWeekday(d) == {d.day};
  }

  /** The closures are New Year's Day, Juneteenth, Independence Day and Christmas Day, the third
      Mondays of January and February, the last of May, the first of September, the fourth
      Thursday of November, and Good Friday. */
  lemma {:induction false} HolidayIff(d: Date, goodFriday: Date -> bool)
    requires d.Sound()
    ensures var count, last := |SameWeekday(d)|, d.day + 7 > DaysIn(d.year, d.month);
            IsHoliday(d, goodFriday) <==>
              || (d.month, d.day) in {(1, 1), (6, 19), (7, 4), (12, 25)}
              || (d.weekday == 0 && ((d.month in {1, 2} && count == 3) || (d.month == 5 && last)
                                     || (d.month == 9 && count == 1)))
              || (d.weekday == 3 && d.month == 11 && count == 4)
              || goodFriday(d)
  {
    CountIsSize(d);
  }
}
