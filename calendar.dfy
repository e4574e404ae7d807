/** Proleptic Gregorian calendar arithmetic behind the time dimension
    (Dim_Tiempo): consecutive days, the integer key YYYYMMDD, the day of the
    week with Monday = 0 (pandas' dayofweek) and the quarter. */
module Calendar {

  datatype Date = Date(year: int, month: int, day: int)

  predicate IsLeapYear(y: int) {
    y % 4 == 0 && (y % 100 != 0 || y % 400 == 0)
  }

  function DaysInMonth(y: int, m: int): (n: int)
    ensures 28 <= n <= 31
  {
    if m == 2 then (if IsLeapYear(y) then 29 else 28)
    else if m == 4 || m == 6 || m == 9 || m == 11 then 30
    else 31
  }

  function YearLength(y: int): int {
    if IsLeapYear(y) then 366 else 365
  }

  predicate ValidDate(d: Date) {
    1 <= d.year && 1 <= d.month <= 12 && 1 <= d.day <= DaysInMonth(d.year, d.month)
  }

  /** The calendar day after d. */
  function NextDay(d: Date): (n: Date)
    requires ValidDate(d)
    ensures ValidDate(n)
  {
    if d.day < DaysInMonth(d.year, d.month) then Date(d.year, d.month, d.day + 1)
    else if d.month < 12 then Date(d.year, d.month + 1, 1)
    else Date(d.year + 1, 1, 1)
  }

  /** d + timedelta(days = k). */
  function AddDays(d: Date, k: nat): (r: Date)
    requires ValidDate(d)
    ensures ValidDate(r)
    decreases k
  {
    if k == 0 then d else AddDays(NextDay(d), k - 1)
  }

  /** int(date.strftime('%Y%m%d')), the column id_tiempo. */
  function DateKey(d: Date): int {
    d.year * 10000 + d.month * 100 + d.day
  }

  /** Reads the year, month and day back out of a YYYYMMDD key. */
  function DecodeKey(k: int): Date {
    Date(k / 10000, k / 100 % 100, k % 100)
  }

  /** Days in year y before the first day of month m (m = 13 gives the year length). */
  function DaysBeforeMonth(y: int, m: int): (n: int)
    requires 1 <= m <= 13
    ensures 0 <= n <= 366
  {
    var cumulative := [0, 31, 59, 90, 120, 151, 181, 212, 243, 273, 304, 334, 365];
    cumulative[m - 1] + (if m > 2 && IsLeapYear(y) then 1 else 0)
  }

  /** Days from 0001-01-01 to the first day of year y. */
  function DaysBeforeYear(y: int): (n: int)
    requires 1 <= y
    ensures 0 <= n
  {
    var p := y - 1;
    365 * p + p / 4 - p / 100 + p / 400
  }

  /** Days elapsed since 0001-01-01, a Monday. */
  function DayNumber(d: Date): (n: int)
    requires ValidDate(d)
    ensures 0 <= n
  {
    DaysBeforeYear(d.year) + DaysBeforeMonth(d.year, d.month) + d.day - 1
  }

  /** pandas' dayofweek: Monday = 0, ..., Saturday = 5, Sunday = 6. */
  function DayOfWeek(d: Date): (w: int)
    requires ValidDate(d)
    ensures 0 <= w < 7
  {
    DayNumber(d) % 7
  }

  /** dt.quarter, written as (month - 1) / 3 + 1. */
  function Quarter(month: int): int {
    (month - 1) / 3 + 1
  }

  /** The quarter is 1..4 and the month lies in that quarter's three months. */
  lemma QuarterOfMonth(month: int)
    requires 1 <= month <= 12
    ensures 1 <= Quarter(month) <= 4
    ensures 3 * Quarter(month) - 2 <= month <= 3 * Quarter(month)
  {
  }

  /** Distinct valid dates have distinct keys: the key decodes back to its date. */
  lemma DateKeyRoundTrip(d: Date)
    requires ValidDate(d)
    ensures DecodeKey(DateKey(d)) == d
  {
    var k := DateKey(d);
    assert k == (d.year * 100 + d.month) * 100 + d.day;
    DivMod100(d.year * 100 + d.month, d.day);
    DivMod100(d.year, d.month);
    assert k == d.year * 10000 + (d.month * 100 + d.day);
    DivMod10000(d.year, d.month * 100 + d.day);
  }

  lemma DivMod100(q: int, r: int)
    requires 0 <= r < 100
    ensures (q * 100 + r) / 100 == q && (q * 100 + r) % 100 == r
  {
  }

  lemma DivMod10000(q: int, r: int)
    requires 0 <= r < 10000
    ensures (q * 10000 + r) / 10000 == q
  {
  }

  lemma KeyIncreasesByOneDay(d: Date)
    requires ValidDate(d)
    ensures DateKey(d) < DateKey(NextDay(d))
  {
  }

  lemma DayNumberOfNextDay(d: Date)
    requires ValidDate(d)
    ensures DayNumber(NextDay(d)) == DayNumber(d) + 1
  {
    if d.day == DaysInMonth(d.year, d.month) && d.month == 12 {
      YearLengthFromDays(d.year);
    }
  }

  lemma YearLengthFromDays(y: int)
    requires 1 <= y
    ensures DaysBeforeYear(y + 1) == DaysBeforeYear(y) + YearLength(y)
  {
    var p := y - 1;
    SuccDiv4(p);
    SuccDiv100(p);
    SuccDiv400(p);
    DivisibilityChain(y);
  }

  lemma DivisibilityChain(y: int)
    ensures y % 400 == 0 ==> y % 100 == 0
    ensures y % 100 == 0 ==> y % 4 == 0
  {
    if y % 400 == 0 {
      var k := 4 * (y / 400);
      assert y == 100 * k;
      MultipleOf100(k);
    }
    if y % 100 == 0 {
      var k := 25 * (y / 100);
      assert y == 4 * k;
      MultipleOf4(k);
    }
  }

  lemma MultipleOf100(k: int)
    ensures (100 * k) % 100 == 0
  {
  }

  lemma MultipleOf4(k: int)
    ensures (4 * k) % 4 == 0
  {
  }

  lemma SuccDiv4(p: int)
    ensures (p + 1) / 4 == p / 4 + (if (p + 1) % 4 == 0 then 1 else 0)
  {
    var q, r := p / 4, p % 4;
    assert p == 4 * q + r && 0 <= r < 4;
    if r == 3 {
      assert p + 1 == 4 * (q + 1);
    } else {
      assert p + 1 == 4 * q + (r + 1);
    }
  }

  lemma SuccDiv100(p: int)
    ensures (p + 1) / 100 == p / 100 + (if (p + 1) % 100 == 0 then 1 else 0)
  {
    var q, r := p / 100, p % 100;
    assert p == 100 * q + r && 0 <= r < 100;
    if r == 99 {
      assert p + 1 == 100 * (q + 1);
    } else {
      assert p + 1 == 100 * q + (r + 1);
    }
  }

  lemma SuccDiv400(p: int)
    ensures (p + 1) / 400 == p / 400 + (if (p + 1) % 400 == 0 then 1 else 0)
  {
    var q, r := p / 400, p % 400;
    assert p == 400 * q + r && 0 <= r < 400;
    if r == 399 {
      assert p + 1 == 400 * (q + 1);
    } else {
      assert p + 1 == 400 * q + (r + 1);
    }
  }

  lemma {:induction false} AddDaysCompose(d: Date, a: nat, b: nat)
    requires ValidDate(d)
    ensures AddDays(d, a + b) == AddDays(AddDays(d, a), b)
    decreases a
  {
    if a > 0 {
      AddDaysCompose(NextDay(d), a - 1, b);
    }
  }

  /** Adding k days moves the day number forward by exactly k. */
  lemma {:induction false} DayNumberOfAddDays(d: Date, k: nat)
    requires ValidDate(d)
    ensures DayNumber(AddDays(d, k)) == DayNumber(d) + k
    decreases k
  {
    if k > 0 {
      DayNumberOfNextDay(d);
      DayNumberOfAddDays(NextDay(d), k - 1);
    }
  }

  /** Keys are strictly increasing along consecutive days. */
  lemma {:induction false} AddDaysKeyIncreasing(d: Date, a: nat, b: nat)
    requires ValidDate(d)
    requires a < b
    ensures DateKey(AddDays(d, a)) < DateKey(AddDays(d, b))
    decreases b - a
  {
    AddDaysCompose(d, a, 1);
    KeyIncreasesByOneDay(AddDays(d, a));
    if a + 1 < b {
      AddDaysKeyIncreasing(d, a + 1, b);
    }
  }

  lemma {:induction false} AddDaysWithinMonth(d: Date, k: nat)
    requires ValidDate(d)
    requires d.day + k <= DaysInMonth(d.year, d.month)
    ensures AddDays(d, k) == Date(d.year, d.month, d.day + k)
    decreases k
  {
    if k > 0 {
      AddDaysWithinMonth(NextDay(d), k - 1);
    }
  }

  lemma AddDaysWholeMonth(y: int, m: int)
    requires 1 <= y && 1 <= m <= 12
    ensures AddDays(Date(y, m, 1), DaysInMonth(y, m)) ==
            if m < 12 then Date(y, m + 1, 1) else Date(y + 1, 1, 1)
  {
    var n := DaysInMonth(y, m);
    AddDaysWithinMonth(Date(y, m, 1), n - 1);
    AddDaysCompose(Date(y, m, 1), n - 1, 1);
  }

  lemma {:induction false} AddDaysToMonthStart(y: int, m: int)
    requires 1 <= y && 1 <= m <= 12
    ensures AddDays(Date(y, 1, 1), DaysBeforeMonth(y, m)) == Date(y, m, 1)
    decreases m
  {
    if m > 1 {
      var before, len := DaysBeforeMonth(y, m - 1), DaysInMonth(y, m - 1);
      DaysBeforeNextMonth(y, m - 1);
      AddDaysToMonthStart(y, m - 1);
      AddDaysCompose(Date(y, 1, 1), before, len);
      AddDaysWholeMonth(y, m - 1);
    }
  }

  lemma DaysBeforeNextMonth(y: int, m: int)
    requires 1 <= m <= 12
    ensures DaysBeforeMonth(y, m + 1) == DaysBeforeMonth(y, m) + DaysInMonth(y, m)
  {
  }

  lemma AddDaysWholeYear(y: int)
    requires 1 <= y
    ensures AddDays(Date(y, 1, 1), YearLength(y)) == Date(y + 1, 1, 1)
  {
    AddDaysToMonthStart(y, 12);
    AddDaysCompose(Date(y, 1, 1), DaysBeforeMonth(y, 12), 31);
    AddDaysWholeMonth(y, 12);
  }

  // ---------------------------------------------------------------------
  // The simulation horizon: consecutive days from 2024-01-01, a Monday.

  const SIMULATION_START := Date(2024, 1, 1)

  /** The i-th day of the horizon (pd.date_range with freq='D'). */
  function HorizonDate(i: nat): (d: Date)
    ensures ValidDate(d)
  {
    AddDays(SIMULATION_START, i)
  }

  function HorizonKey(i: nat): int {
    DateKey(HorizonDate(i))
  }

  lemma HorizonKeysIncreasing(i: nat, j: nat)
    requires i < j
    ensures HorizonKey(i) < HorizonKey(j)
  {
    AddDaysKeyIncreasing(SIMULATION_START, i, j);
  }

  /** Day i of the horizon falls on weekday i mod 7 (Monday = 0). */
  lemma HorizonWeekday(i: nat)
    ensures DayOfWeek(HorizonDate(i)) == i % 7
  {
    DayNumberOfAddDays(SIMULATION_START, i);
    assert DayNumber(SIMULATION_START) == 7 * 105555;
    WeekShift(105555, i);
  }

  lemma WeekShift(weeks: nat, i: nat)
    ensures (7 * weeks + i) % 7 == i % 7
  {
    var q, r := i / 7, i % 7;
    assert i == 7 * q + r;
    assert 7 * weeks + i == 7 * (weeks + q) + r;
  }

  /** Moving k days on from horizon day i lands on horizon day i + k. */
  lemma HorizonShift(i: nat, k: nat)
    ensures AddDays(HorizonDate(i), k) == HorizonDate(i + k)
    ensures DayNumber(HorizonDate(i + k)) == DayNumber(HorizonDate(i)) + k
  {
    AddDaysCompose(SIMULATION_START, i, k);
    DayNumberOfAddDays(HorizonDate(i), k);
  }

  /** The dates at the landmark offsets of the horizon. */
  lemma HorizonLandmarks()
    ensures HorizonDate(365) == Date(2024, 12, 31)
    ensures HorizonDate(366) == Date(2025, 1, 1)
    ensures HorizonDate(374) == Date(2025, 1, 9)
    ensures HorizonDate(424) == Date(2025, 2, 28)
  {
    AddDaysToMonthStart(2024, 12);
    assert DaysBeforeMonth(2024, 12) == 335;
    AddDaysWithinMonth(Date(2024, 12, 1), 30);
    AddDaysCompose(SIMULATION_START, 335, 30);

    AddDaysWholeYear(2024);
    assert YearLength(2024) == 366;

    AddDaysWithinMonth(Date(2025, 1, 1), 8);
    AddDaysCompose(SIMULATION_START, 366, 8);

    AddDaysWholeMonth(2025, 1);
    AddDaysCompose(SIMULATION_START, 366, 31);
    AddDaysWithinMonth(Date(2025, 2, 1), 27);
    AddDaysCompose(SIMULATION_START, 397, 27);
  }

  /** The first 366 days of the horizon are the days of 2024. */
  lemma HorizonYear2024(i: nat)
    requires i < 366
    ensures 20240101 <= HorizonKey(i) <= 20241231
    ensures HorizonDate(i).year == 2024
  {
    HorizonLandmarks();
    if i > 0 {
      HorizonKeysIncreasing(0, i);
    }
    if i < 365 {
      HorizonKeysIncreasing(i, 365);
    }
    var d := HorizonDate(i);
    assert 101 <= d.month * 100 + d.day <= 1231;
  }
}
