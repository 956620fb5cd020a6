// Instants as milliseconds since 1 January 1970 UTC, in the proleptic Gregorian calendar that
// JavaScript dates use (section 15.9.1 of ECMA-262 edition 5.1).
module Calendar {

  // A day of 86400000 milliseconds (section 15.9.1.2).
  function Day(t: int): int {
    t / 86400000
  }

  function TimeWithinDay(t: int): int {
    t % 86400000
  }

  function Instant(day: int, time: int): int {
    day * 86400000 + time
  }

  predicate IsLeap(y: int) {
    y % 4 == 0 && (y % 100 != 0 || y % 400 == 0)
  }

  function DaysInYear(y: int): int {
    if IsLeap(y) then 366 else 365
  }

  // The number of the first day of a year.
  function DayFromYear(y: int): int
    decreases if y < 1970 then 1970 - y else y - 1970
  {
    if y == 1970 then 0
    else if y > 1970 then DayFromYear(y - 1) + DaysInYear(y - 1)
    else DayFromYear(y + 1) - DaysInYear(y)
  }

  // Months count from 0 for January (section 15.9.1.4).
  function DaysInMonth(y: int, m: nat): nat
    requires m < 12
  {
    if m == 1 then (if IsLeap(y) then 29 else 28)
    else if m == 3 || m == 5 || m == 8 || m == 10 then 30
    else 31
  }

  // How many days of the year lie before a month; 12 stands for the end of the year.
  function DaysBeforeMonth(y: int, m: nat): nat
    requires m <= 12
  {
    (if m == 0 then 0 else if m == 1 then 31 else if m == 2 then 59 else if m == 3 then 90
     else if m == 4 then 120 else if m == 5 then 151 else if m == 6 then 181 else if m == 7 then 212
     else if m == 8 then 243 else if m == 9 then 273 else if m == 10 then 304 else if m == 11 then 334 else 365)
    + if m >= 2 && IsLeap(y) then 1 else 0
  }

  // The number of the first day of a month.
  function FirstDay(y: int, m: nat): int
    requires m <= 12
  {
    DayFromYear(y) + DaysBeforeMonth(y, m)
  }

  lemma YearLength(y: int)
    ensures DayFromYear(y + 1) == DayFromYear(y) + DaysInYear(y)
  {
  }

  function Quotients(y: int): int {
    (y - 1969) / 4 - (y - 1901) / 100 + (y - 1601) / 400
  }

  // A quotient grows by one just when its dividend reaches a multiple of the divisor.
  lemma QuotientsStep(y: int)
    ensures Quotients(y + 1) == Quotients(y) + if IsLeap(y) then 1 else 0
  {
    FourthsStep(y);
    HundredthsStep(y);
    FourHundredthsStep(y);
  }

  lemma FourthsStep(y: int)
    ensures (y + 1 - 1969) / 4 == (y - 1969) / 4 + if y % 4 == 0 then 1 else 0
  {
  }

  lemma HundredthsStep(y: int)
    ensures (y + 1 - 1901) / 100 == (y - 1901) / 100 + if y % 100 == 0 then 1 else 0
    ensures y % 100 == 0 ==> y % 4 == 0
  {
    var q, r := y / 100, y % 100;
    assert y - 1900 == 100 * (q - 19) + r;
    assert y - 1901 == if r == 0 then 100 * (q - 20) + 99 else 100 * (q - 19) + (r - 1);
    assert r == 0 ==> y == 4 * (25 * q);
  }

  lemma FourHundredthsStep(y: int)
    ensures (y + 1 - 1601) / 400 == (y - 1601) / 400 + if y % 400 == 0 then 1 else 0
    ensures y % 400 == 0 ==> y % 100 == 0
  {
    var q, r := y / 400, y % 400;
    assert y - 1600 == 400 * (q - 4) + r;
    assert y - 1601 == if r == 0 then 400 * (q - 5) + 399 else 400 * (q - 4) + (r - 1);
    assert r == 0 ==> y == 100 * (4 * q);
  }

  // The closed form that the standard gives (section 15.9.1.3).
  lemma {:induction false} DayFromYearClosed(y: int)
    ensures DayFromYear(y) == 365 * (y - 1970) + Quotients(y)
    decreases if y < 1970 then 1970 - y else y - 1970
  {
    if y > 1970 {
      DayFromYearClosed(y - 1);
      QuotientsStep(y - 1);
    } else if y < 1970 {
      DayFromYearClosed(y + 1);
      QuotientsStep(y);
    }
  }

  lemma MonthLength(y: int, m: nat)
    requires m < 12
    ensures FirstDay(y, m + 1) == FirstDay(y, m) + DaysInMonth(y, m)
  {
  }

  lemma MonthsFillTheYear(y: int)
    ensures FirstDay(y, 12) == FirstDay(y + 1, 0) == DayFromYear(y + 1)
  {
    YearLength(y);
  }

  // ---------- Reading the fields of a day ----------

  function YearFrom(day: int, y: int): (year: int)
    requires DayFromYear(y) <= day
    ensures DayFromYear(year) <= day < DayFromYear(year + 1)
    decreases day - DayFromYear(y)
  {
    YearLength(y);
    if day < DayFromYear(y + 1) then y else YearFrom(day, y + 1)
  }

  lemma {:induction false} EarlyYear(day: int)
    requires day <= 0
    ensures DayFromYear(1970 + day) <= day
    decreases -day
  {
    if day < 0 {
      EarlyYear(day + 1);
    }
  }

  function Year(day: int): (year: int)
    ensures DayFromYear(year) <= day < DayFromYear(year + 1)
  {
    if day < 0 then
      EarlyYear(day);
      YearFrom(day, 1970 + day)
    else
      YearFrom(day, 1970)
  }

  function MonthFrom(y: int, dayInYear: nat, m: nat): (month: nat)
    requires m < 12 && DaysBeforeMonth(y, m) <= dayInYear < DaysBeforeMonth(y, 12)
    ensures month < 12 && DaysBeforeMonth(y, month) <= dayInYear < DaysBeforeMonth(y, month + 1)
    decreases 12 - m
  {
    if dayInYear < DaysBeforeMonth(y, m + 1) then m else MonthFrom(y, dayInYear, m + 1)
  }

  function Month(day: int): (month: nat)
    ensures month < 12 && FirstDay(Year(day), month) <= day < FirstDay(Year(day), month + 1)
  {
    var y := Year(day);
    MonthsFillTheYear(y);
    MonthFrom(y, day - DayFromYear(y), 0)
  }

  // The day of the month, from 1.
  function Date(day: int): (date: int)
    ensures 1 <= date <= DaysInMonth(Year(day), Month(day))
    ensures day == FirstDay(Year(day), Month(day)) + date - 1
  {
    MonthLength(Year(day), Month(day));
    day - FirstDay(Year(day), Month(day)) + 1
  }

  // The day with the given fields; months beyond 11 carry into the year, and a date beyond the end of its
  // month runs into the next one (section 15.9.1.12).
  function MakeDay(y: int, m: int, date: int): int {
    FirstDay(y + m / 12, m % 12) + date - 1
  }

  lemma MakeDayInYear(y: int, m: nat, date: int)
    requires m <= 12
    ensures MakeDay(y, m, date) == FirstDay(y, m) + date - 1
  {
    MonthsFillTheYear(y);
    if m == 12 {
      assert m / 12 == 1 && m % 12 == 0;
    } else {
      assert m / 12 == 0 && m % 12 == m;
    }
  }

  function SetDate(t: int, date: int): int {
    Instant(MakeDay(Year(Day(t)), Month(Day(t)), date), TimeWithinDay(t))
  }

  function SetMonth(t: int, month: int): int {
    Instant(MakeDay(Year(Day(t)), month, Date(Day(t))), TimeWithinDay(t))
  }

  // Putting the fields of a day together again gives that day.
  lemma FieldsMakeTheDay(day: int)
    ensures MakeDay(Year(day), Month(day), Date(day)) == day
  {
    MakeDayInYear(Year(day), Month(day), Date(day));
  }

  // And reading back the fields of any date within any month gives those fields.
  lemma DayHasItsFields(y: int, m: nat, date: int)
    requires m < 12 && 1 <= date <= DaysInMonth(y, m)
    ensures var day := MakeDay(y, m, date);
      Year(day) == y && Month(day) == m && Date(day) == date
  {
    var day := MakeDay(y, m, date);
    MakeDayInYear(y, m, date);
    MonthLength(y, m);
    MonthsFillTheYear(y);
    YearIsUnique(day, y);
    MonthIsUnique(y, day - DayFromYear(y), Month(day), m);
  }

  lemma MonthIsUnique(y: int, dayInYear: int, m: nat, n: nat)
    requires m < 12 && DaysBeforeMonth(y, m) <= dayInYear < DaysBeforeMonth(y, m + 1)
    requires n < 12 && DaysBeforeMonth(y, n) <= dayInYear < DaysBeforeMonth(y, n + 1)
    ensures m == n
  {
  }

  lemma {:induction false} YearsIncrease(y: int, z: int)
    requires y <= z
    ensures DayFromYear(y) <= DayFromYear(z)
    decreases z - y
  {
    if y < z {
      YearLength(z - 1);
      YearsIncrease(y, z - 1);
    }
  }

  lemma YearIsUnique(day: int, y: int)
    requires DayFromYear(y) <= day < DayFromYear(y + 1)
    ensures Year(day) == y
  {
    if Year(day) < y {
      YearsIncrease(Year(day) + 1, y);
    } else if y < Year(day) {
      YearsIncrease(y + 1, Year(day));
    }
  }

  // ---------- Steps ----------

  lemma DayOf(day: int, time: int)
    requires 0 <= time < 86400000
    ensures Day(Instant(day, time)) == day
  {
  }

  // n days after t, at the same time of day.
  function DaysLater(t: int, n: int): int {
    t + n * 86400000
  }

  lemma LaterDay(t: int, day: int, n: int)
    requires day == Day(t) + n
    ensures Instant(day, TimeWithinDay(t)) == DaysLater(t, n)
  {
  }

  lemma StepDays(t: int, n: int)
    ensures SetDate(t, Date(Day(t)) + n) == DaysLater(t, n)
  {
    var date := Date(Day(t)) + n;
    MakeDayInYear(Year(Day(t)), Month(Day(t)), date);
    LaterDay(t, MakeDay(Year(Day(t)), Month(Day(t)), date), n);
  }

  // The month after the one of a day, with its year.
  function NextMonth(y: int, m: nat): (int, nat)
    requires m < 12
  {
    if m == 11 then (y + 1, 0) else (y, m + 1)
  }

  lemma NextMonthDay(y: int, m: nat, date: int)
    requires m < 12
    ensures var (y', m') := NextMonth(y, m);
      m' < 12 && MakeDay(y, m + 1, date) == FirstDay(y', m') + date - 1 == FirstDay(y, m + 1) + date - 1
  {
    MakeDayInYear(y, m + 1, date);
    MonthsFillTheYear(y);
  }

  lemma NextMonthSameDate(y: int, m: nat, date: int)
    requires m < 12
    ensures MakeDay(y, m + 1, date) == FirstDay(y, m) + date - 1 + DaysInMonth(y, m)
  {
    MakeDayInYear(y, m + 1, date);
    MonthLength(y, m);
  }

  // Setting the next month moves by the length of the current one, whatever the date and the year.
  lemma StepMonth(t: int)
    ensures SetMonth(t, Month(Day(t)) + 1) == DaysLater(t, DaysInMonth(Year(Day(t)), Month(Day(t))))
  {
    var y, m, date := Year(Day(t)), Month(Day(t)), Date(Day(t));
    NextMonthSameDate(y, m, date);
    LaterDay(t, MakeDay(y, m + 1, date), DaysInMonth(y, m));
  }

  // Where a date that is carried into a month lands, when the month is long enough and when it is not.
  lemma DateFits(y: int, m: nat, date: int)
    requires m < 12 && 1 <= date <= DaysInMonth(y, m)
    ensures var day := FirstDay(y, m) + date - 1; Year(day) == y && Month(day) == m && Date(day) == date
  {
    MakeDayInYear(y, m, date);
    DayHasItsFields(y, m, date);
  }

  lemma DateOverflows(y: int, m: nat, date: int)
    requires m < 12 && DaysInMonth(y, m) < date <= 31
    ensures var day, over := FirstDay(y, m) + date - 1, date - DaysInMonth(y, m);
      m < 11 && Year(day) == y && Month(day) == m + 1 && Date(day) == over
  {
    MonthLength(y, m);
    DateFits(y, m + 1, date - DaysInMonth(y, m));
  }

  lemma DayAfterMonthStep(t: int)
    ensures var (y', m') := NextMonth(Year(Day(t)), Month(Day(t)));
      m' < 12 && Day(SetMonth(t, Month(Day(t)) + 1)) == FirstDay(y', m') + Date(Day(t)) - 1
  {
    var y, m, date := Year(Day(t)), Month(Day(t)), Date(Day(t));
    DayOf(MakeDay(y, m + 1, date), TimeWithinDay(t));
    NextMonthDay(y, m, date);
  }

  // The step keeps the day of the month and lands in the following month exactly when that month is long
  // enough; otherwise it runs over into the month after that.
  lemma StepMonthLands(t: int)
    ensures var (y', m') := NextMonth(Year(Day(t)), Month(Day(t)));
      var date, next := Date(Day(t)), Day(SetMonth(t, Month(Day(t)) + 1));
      && (date <= DaysInMonth(y', m') ==> Year(next) == y' && Month(next) == m' && Date(next) == date)
      && (date > DaysInMonth(y', m') ==>
            m' < 11 && Year(next) == y' && Month(next) == m' + 1 && Date(next) == date - DaysInMonth(y', m'))
  {
    hide FirstDay;
    DayAfterMonthStep(t);
    var (y', m') := NextMonth(Year(Day(t)), Month(Day(t)));
    if Date(Day(t)) <= DaysInMonth(y', m') {
      DateFits(y', m', Date(Day(t)));
    } else {
      DateOverflows(y', m', Date(Day(t)));
    }
  }
}
