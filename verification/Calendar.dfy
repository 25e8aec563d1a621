/** The calendar arithmetic of Date (internal/engine/builtin_date.go, makeTime to dayOfFirstOfMonth, timeClip and
  * dateFromComponents) against section 21.4.1 of ECMA-262.  Numbers are exact: rounding is not modelled, and the
  * last lemma gives the magnitudes within which there is none.
  */
module Calendar {
  import opened Arithmetic

  datatype Number = NaN | Infinite(negative: bool) | Finite(value: real)

  const MS_PER_SECOND := 1000
  const MS_PER_MINUTE := 60 * MS_PER_SECOND
  const MS_PER_HOUR := 60 * MS_PER_MINUTE
  const MS_PER_DAY := 24 * MS_PER_HOUR
  const MAX_TIME := 8_640_000_000_000_000

  // ----- the code -----

  /** math.Trunc: toward zero. */
  function Trunc(x: real): int {
    if x >= 0.0 then x.Floor else -((-x).Floor)
  }

  /** math.Mod: the remainder takes the sign of the dividend. */
  function TruncMod(a: int, b: int): int
    requires b > 0
  {
    if a >= 0 then a % b else -((-a) % b)
  }

  /** dayOfFirstOfMonth; the divisions floor, as math.Floor does. */
  function DayOfFirstOfMonth(year: int, mn: int): int {
    var mm := mn + 1;
    var y := if mm <= 2 then year - 1 else year;
    var era := y / 400;
    var yoe := y - era * 400;
    var mp := if mm <= 2 then mm + 9 else mm - 3;
    var doy := (153 * mp + 2) / 5;
    var doe := yoe * 365 + yoe / 4 - yoe / 100 + doy;
    era * 146097 + doe - 719468
  }

  function MakeTime(h: Number, m: Number, s: Number, milli: Number): Number {
    if !h.Finite? || !m.Finite? || !s.Finite? || !milli.Finite? then NaN
    else
      var t := Trunc(h.value) * MS_PER_HOUR + Trunc(m.value) * MS_PER_MINUTE + Trunc(s.value) * MS_PER_SECOND
               + Trunc(milli.value);
      Finite(t as real)
  }

  function MakeDay(year: Number, month: Number, date: Number): Number {
    if !year.Finite? || !month.Finite? || !date.Finite? then NaN
    else Finite(DayOf(Trunc(year.value), Trunc(month.value), Trunc(date.value)) as real)
  }

  /** makeDay after truncation. */
  function DayOf(y: int, m: int, dt: int): int {
    var ym := y + m / 12;
    var rem := TruncMod(m, 12);
    var mn := if rem < 0 then rem + 12 else rem;
    DayOfFirstOfMonth(ym, mn) + dt - 1
  }

  function MakeDate(day: Number, time: Number): Number {
    if !day.Finite? || !time.Finite? then NaN else Finite(day.value * MS_PER_DAY as real + time.value)
  }

  function TimeClip(ms: Number): Number {
    if !ms.Finite? || ms.value > MAX_TIME as real || ms.value < -(MAX_TIME as real) then NaN
    else Finite(Trunc(ms.value) as real)
  }

  // ----- the calendar, as the standard states it -----

  predicate IsLeap(y: int) {
    y % 4 == 0 && (y % 100 != 0 || y % 400 == 0)
  }

  function DaysInMonth(y: int, m: int): int {
    if m == 1 then (if IsLeap(y) then 29 else 28)
    else if m == 3 || m == 5 || m == 8 || m == 10 then 30
    else 31
  }

  function DaysBeforeMonth(y: int, m: int): int
    decreases m
  {
    if m <= 0 then 0 else DaysBeforeMonth(y, m - 1) + DaysInMonth(y, m - 1)
  }

  /** DayFromYear of section 21.4.1.3. */
  function DayFromYear(y: int): int {
    365 * (y - 1970) + (y - 1969) / 4 - (y - 1901) / 100 + (y - 1601) / 400
  }

  lemma YearLength(y: int)
    ensures DayFromYear(y + 1) == DayFromYear(y) + if IsLeap(y) then 366 else 365
  {
    LeapDays(y);
    LeapDays(y + 1);
    hide DayFromYear;
    NextQuotient(y, 4);
    NextQuotient(y, 100);
    NextQuotient(y, 400);
    Centuries(y);
  }

  lemma NextQuotient(y: int, d: int)
    requires d > 0
    ensures y / d - (y - 1) / d == if y % d == 0 then 1 else 0
  {
    if y % d == 0 {
      Cut(y / d - 1, d - 1, d);
      assert (y / d - 1) * d + (d - 1) == y - 1;
    } else {
      Cut(y / d, y % d - 1, d);
      assert y / d * d + (y % d - 1) == y - 1;
    }
  }

  lemma Centuries(y: int)
    ensures y % 400 == 0 ==> y % 100 == 0
    ensures y % 100 == 0 ==> y % 4 == 0
  {
  }

  /** Cutting a year number into eras of 400 years keeps the count of leap days. */
  lemma Eras(y: int)
    ensures var era := y / 400; var yoe := y - era * 400;
            && 0 <= yoe < 400
            && era * 146097 + yoe * 365 + yoe / 4 - yoe / 100 == 365 * y + y / 4 - y / 100 + y / 400
  {
    var era := y / 400;
    var yoe := y - era * 400;
    assert y / 4 == 100 * era + yoe / 4;
    assert y / 100 == 4 * era + yoe / 100;
  }

  lemma LeapDays(y: int)
    ensures DayFromYear(y) == 365 * (y - 1) + (y - 1) / 4 - (y - 1) / 100 + (y - 1) / 400 - 719162
  {
    assert (y - 1969) / 4 == (y - 1) / 4 - 492;
    assert (y - 1901) / 100 == (y - 1) / 100 - 19;
    assert (y - 1601) / 400 == (y - 1) / 400 - 4;
  }

  lemma EarlierMonths(y: int, m: int)
    requires 0 <= m < 12
    ensures DaysBeforeMonth(y, m) ==
            if m <= 1 then 31 * m
            else (153 * (m - 2) + 2) / 5 + 59 + if IsLeap(y) then 1 else 0
  {
    assert DaysBeforeMonth(y, 1) == 31;
    assert DaysBeforeMonth(y, 2) == 31 + DaysInMonth(y, 1);
    assert DaysBeforeMonth(y, 4) == DaysBeforeMonth(y, 2) + 61;
    assert DaysBeforeMonth(y, 6) == DaysBeforeMonth(y, 4) + 61;
    assert DaysBeforeMonth(y, 8) == DaysBeforeMonth(y, 6) + 62;
    assert DaysBeforeMonth(y, 10) == DaysBeforeMonth(y, 8) + 61;
  }

  /** The era formula is the standard's year start plus the earlier months, for every year. */
  lemma FirstOfMonth(y: int, m: int)
    requires 0 <= m < 12
    ensures DayOfFirstOfMonth(y, m) == DayFromYear(y) + DaysBeforeMonth(y, m)
  {
    EarlierMonths(y, m);
    if m <= 1 {
      FirstOfEarlyMonth(y, m);
    } else {
      FirstOfLateMonth(y, m);
    }
    hide *;
  }

  lemma FirstOfEarlyMonth(y: int, m: int)
    requires 0 <= m <= 1
    ensures DayOfFirstOfMonth(y, m) == DayFromYear(y) + 31 * m
  {
    LeapDays(y);
    hide DayFromYear;
    Eras(y - 1);
    assert (153 * (m + 10) + 2) / 5 == 306 + 31 * m;
  }

  lemma FirstOfLateMonth(y: int, m: int)
    requires 2 <= m < 12
    ensures DayOfFirstOfMonth(y, m) == DayFromYear(y) + (153 * (m - 2) + 2) / 5 + 59 + if IsLeap(y) then 1 else 0
  {
    YearLength(y);
    LeapDays(y + 1);
    hide DayFromYear, IsLeap;
    Eras(y);
  }

  // ----- dates and day numbers -----

  datatype Date = Date(year: int, month: int, day: int)

  predicate IsDate(d: Date) {
    0 <= d.month < 12 && 1 <= d.day <= DaysInMonth(d.year, d.month)
  }

  function DayNumber(d: Date): int {
    DayOfFirstOfMonth(d.year, d.month) + d.day - 1
  }

  function Tomorrow(d: Date): Date {
    if d.day < DaysInMonth(d.year, d.month) then d.(day := d.day + 1)
    else if d.month < 11 then Date(d.year, d.month + 1, 1)
    else Date(d.year + 1, 0, 1)
  }

  function Yesterday(d: Date): Date {
    if d.day > 1 then d.(day := d.day - 1)
    else if d.month > 0 then Date(d.year, d.month - 1, DaysInMonth(d.year, d.month - 1))
    else Date(d.year - 1, 11, 31)
  }

  /** The next month starts where this one ends. */
  lemma NextMonth(y: int, m: int)
    requires 0 <= m < 12
    ensures DayOfFirstOfMonth(y, m) + DaysInMonth(y, m)
            == if m < 11 then DayOfFirstOfMonth(y, m + 1) else DayOfFirstOfMonth(y + 1, 0)
  {
    FirstOfMonth(y, m);
    if m < 11 {
      FirstOfMonth(y, m + 1);
    } else {
      FirstOfMonth(y + 1, 0);
      YearLength(y);
      EarlierMonths(y, 11);
    }
  }

  /** The next calendar date has the next number. */
  lemma NextDay(d: Date)
    requires IsDate(d)
    ensures IsDate(Tomorrow(d)) && DayNumber(Tomorrow(d)) == DayNumber(d) + 1
  {
    NextMonth(d.year, d.month);
    hide DayOfFirstOfMonth, IsLeap;
  }

  /** The calendar can be walked backward too. */
  lemma DayBefore(d: Date)
    requires IsDate(d)
    ensures IsDate(Yesterday(d)) && DayNumber(Yesterday(d)) == DayNumber(d) - 1
  {
    if d.month > 0 {
      NextMonth(d.year, d.month - 1);
    } else {
      NextMonth(d.year - 1, 11);
    }
    hide DayOfFirstOfMonth, IsLeap;
  }

  /** Every integer is the number of a calendar date. */
  lemma {:induction false} DateExists(n: int) returns (d: Date)
    ensures IsDate(d) && DayNumber(d) == n
    decreases if n < 0 then -n else n
  {
    if n == 0 {
      d := Date(1970, 0, 1);
    } else if n > 0 {
      var e := DateExists(n - 1);
      NextDay(e);
      d := Tomorrow(e);
    } else {
      var e := DateExists(n + 1);
      DayBefore(e);
      d := Yesterday(e);
    }
  }

  /** Months counted from year zero. */
  function MonthStart(k: int): int {
    DayOfFirstOfMonth(k / 12, k % 12)
  }

  lemma MonthStartStep(k: int)
    ensures 28 <= MonthStart(k + 1) - MonthStart(k) <= 31
    ensures MonthStart(k + 1) - MonthStart(k) == DaysInMonth(k / 12, k % 12)
  {
    NextMonth(k / 12, k % 12);
    if k % 12 < 11 {
      assert (k + 1) / 12 == k / 12 && (k + 1) % 12 == k % 12 + 1;
    } else {
      assert (k + 1) / 12 == k / 12 + 1 && (k + 1) % 12 == 0;
    }
  }

  lemma {:induction false} MonthStartIncreases(j: int, k: int)
    requires j < k
    ensures MonthStart(j) + DaysInMonth(j / 12, j % 12) <= MonthStart(k)
    decreases k - j
  {
    MonthStartStep(k - 1);
    if j + 1 < k {
      MonthStartIncreases(j, k - 1);
    } else {
      MonthStartStep(j);
    }
  }

  /** No two calendar dates share a number: with DateExists, day numbering is a bijection. */
  lemma DayNumberInjective(d: Date, e: Date)
    requires IsDate(d) && IsDate(e) && DayNumber(d) == DayNumber(e)
    ensures d == e
  {
    var j, k := 12 * d.year + d.month, 12 * e.year + e.month;
    assert j / 12 == d.year && j % 12 == d.month && k / 12 == e.year && k % 12 == e.month;
    if j < k {
      MonthStartIncreases(j, k);
    } else if k < j {
      MonthStartIncreases(k, j);
    }
  }

  // ----- months past the end of the year -----

  lemma TruncModIs(a: int, b: int)
    requires b > 0
    ensures a >= 0 ==> 0 <= TruncMod(a, b) < b
    ensures a <= 0 ==> 0 - b < TruncMod(a, b) <= 0
    ensures exists q: int :: a == q * b + TruncMod(a, b)
  {
    if a >= 0 {
      assert a == a / b * b + TruncMod(a, b);
    } else {
      assert -a == -a / b * b + (-a) % b;
      assert a == (0 - (-a / b)) * b + TruncMod(a, b);
    }
  }

  lemma ModIsEuclidean(m: int)
    ensures var rem := TruncMod(m, 12); (if rem < 0 then rem + 12 else rem) == m % 12
  {
  }

  /** makeDay only looks at the number of months since year zero. */
  lemma DayOfIsMonthStart(y: int, m: int, dt: int)
    ensures DayOf(y, m, dt) == MonthStart(12 * y + m) + dt - 1
  {
    ModIsEuclidean(m);
    assert (12 * y + m) / 12 == y + m / 12 && (12 * y + m) % 12 == m % 12;
  }

  lemma TruncShift(x: real, k: nat)
    ensures Trunc(x + k as real) == Trunc(x) + k - if -(k as real) < x < 0.0 && x.Floor as real != x then 1 else 0
  {
    FloorShift(x, k);
    FloorNegate(x);
    FloorNegate(x + k as real);
    FloorBounds(x);
    FloorBounds(x + k as real);
    FloorBounds(-x);
  }

  lemma FloorBounds(x: real)
    ensures x.Floor as real <= x < x.Floor as real + 1.0
  {
  }

  lemma FloorShift(x: real, k: int)
    ensures (x + k as real).Floor == x.Floor + k
  {
  }

  lemma FloorNegate(x: real)
    ensures (-x).Floor == -x.Floor - if x.Floor as real == x then 0 else 1
  {
  }

  /** Twelve months are one year exactly when truncating the month and the year does not cross zero. */
  lemma TwelveMonthsAreAYear(y: real, m: real, d: real)
    ensures MakeDay(Finite(y), Finite(m + 12.0), Finite(d)) == MakeDay(Finite(y + 1.0), Finite(m), Finite(d)) <==>
            !(-12.0 < m < 0.0 && m.Floor as real != m) && !(-1.0 < y < 0.0)
  {
    SameMonth(Trunc(y), Trunc(m + 12.0), Trunc(y + 1.0), Trunc(m), Trunc(d));
    MonthsShift(y, m);
    hide Trunc, DayOf;
  }

  lemma MonthsShift(y: real, m: real)
    ensures 12 * Trunc(y) + Trunc(m + 12.0) == 12 * Trunc(y + 1.0) + Trunc(m) <==>
            !(-12.0 < m < 0.0 && m.Floor as real != m) && !(-1.0 < y < 0.0)
  {
    FloorBounds(y);
    assert -1.0 < y < 0.0 ==> y.Floor == -1;
    TruncShift(m, 12);
    TruncShift(y, 1);
    hide Trunc;
  }

  lemma SameMonth(y: int, m: int, y': int, m': int, dt: int)
    ensures DayOf(y, m, dt) == DayOf(y', m', dt) <==> 12 * y + m == 12 * y' + m'
  {
    DayOfIsMonthStart(y, m, dt);
    DayOfIsMonthStart(y', m', dt);
    hide DayOf, MonthStart;
    var a, b := 12 * y + m, 12 * y' + m';
    if a < b {
      MonthStartIncreases(a, b);
    } else if b < a {
      MonthStartIncreases(b, a);
    }
  }

  // ----- whole times -----

  datatype Clock = Clock(hour: int, minute: int, second: int, milli: int)

  predicate IsClock(c: Clock) {
    0 <= c.hour < 24 && 0 <= c.minute < 60 && 0 <= c.second < 60 && 0 <= c.milli < 1000
  }

  function Whole(n: int): Number {
    Finite(n as real)
  }

  /** The time value of a date and a clock reading, as the setters and Date.UTC build it. */
  function TimeValue(d: Date, c: Clock): Number {
    MakeDate(MakeDay(Whole(d.year), Whole(d.month), Whole(d.day)),
             MakeTime(Whole(c.hour), Whole(c.minute), Whole(c.second), Whole(c.milli)))
  }

  /** The standard's Day, HourFromTime and so on read back exactly what went in. */
  lemma TimeRoundTrip(d: Date, c: Clock)
    requires IsDate(d) && IsClock(c)
    ensures TimeValue(d, c).Finite?
    ensures var t := Trunc(TimeValue(d, c).value);
            && TimeValue(d, c) == Whole(t)
            && t / MS_PER_DAY == DayNumber(d)
            && Clock((t / MS_PER_HOUR) % 24, (t / MS_PER_MINUTE) % 60, (t / MS_PER_SECOND) % 60, t % 1000) == c
  {
    TimeValueIs(d, c);
    WholeTruncates(DayNumber(d) * MS_PER_DAY + (((c.hour * 60 + c.minute) * 60 + c.second) * 1000 + c.milli));
    Digits(DayNumber(d), c);
  }

  /** Every whole number of milliseconds is the time value of a date and a clock reading. */
  lemma EveryTimeValue(t: int) returns (d: Date, c: Clock)
    ensures IsDate(d) && IsClock(c) && TimeValue(d, c) == Whole(t)
  {
    d := DateExists(t / 86_400_000);
    var ms := t % 86_400_000;
    c := Clock(ms / 3_600_000, ms / 60_000 % 60, ms / 1000 % 60, ms % 1000);
    ClockReads(ms);
    TimeValueIs(d, c);
    hide TimeValue, DayNumber;
    assert t == t / 86_400_000 * 86_400_000 + ms;
  }

  lemma ClockReads(ms: int)
    requires 0 <= ms < 86_400_000
    ensures var c := Clock(ms / 3_600_000, ms / 60_000 % 60, ms / 1000 % 60, ms % 1000);
            IsClock(c) && ((c.hour * 60 + c.minute) * 60 + c.second) * 1000 + c.milli == ms
  {
    var s := ms / 1000;
    var m := s / 60;
    assert ms == s * 1000 + ms % 1000 && s == m * 60 + s % 60 && m == m / 60 * 60 + m % 60;
    assert ms / 60_000 == m && ms / 3_600_000 == m / 60;
  }

  lemma TimeValueIs(d: Date, c: Clock)
    requires 0 <= d.month < 12 && IsClock(c)
    ensures TimeValue(d, c) == Whole(DayNumber(d) * MS_PER_DAY + (((c.hour * 60 + c.minute) * 60 + c.second) * 1000 + c.milli))
  {
    DayOfIsDayNumber(d);
    WholeTruncates(d.year);
    WholeTruncates(d.month);
    WholeTruncates(d.day);
    WholeTruncates(c.hour);
    WholeTruncates(c.minute);
    WholeTruncates(c.second);
    WholeTruncates(c.milli);
    hide DayOf, DayNumber, Trunc;
  }

  lemma WholeTruncates(n: int)
    ensures Trunc(n as real) == n
  {
  }

  lemma DayOfIsDayNumber(d: Date)
    requires 0 <= d.month < 12
    ensures DayOf(d.year, d.month, d.day) == DayNumber(d)
  {
    ModIsEuclidean(d.month);
  }

  lemma Digits(day: int, c: Clock)
    requires IsClock(c)
    ensures var t := day * MS_PER_DAY + (((c.hour * 60 + c.minute) * 60 + c.second) * 1000 + c.milli);
            && t / MS_PER_DAY == day
            && (t / MS_PER_HOUR) % 24 == c.hour
            && (t / MS_PER_MINUTE) % 60 == c.minute
            && (t / MS_PER_SECOND) % 60 == c.second
            && t % 1000 == c.milli
  {
    DayAndHour(day, c);
    MinuteAndSecond(day, c);
  }

  lemma DayAndHour(day: int, c: Clock)
    requires IsClock(c)
    ensures var t := day * MS_PER_DAY + (((c.hour * 60 + c.minute) * 60 + c.second) * 1000 + c.milli);
            t / MS_PER_DAY == day && (t / MS_PER_HOUR) % 24 == c.hour
  {
    var h := day * 24 + c.hour;
    Cut(h, 60_000 * c.minute + 1000 * c.second + c.milli, MS_PER_HOUR);
    Cut(day, 3_600_000 * c.hour + 60_000 * c.minute + 1000 * c.second + c.milli, MS_PER_DAY);
    Cut(day, c.hour, 24);
  }

  lemma MinuteAndSecond(day: int, c: Clock)
    requires IsClock(c)
    ensures var t := day * MS_PER_DAY + (((c.hour * 60 + c.minute) * 60 + c.second) * 1000 + c.milli);
            (t / MS_PER_MINUTE) % 60 == c.minute && (t / MS_PER_SECOND) % 60 == c.second && t % 1000 == c.milli
  {
    var h := day * 24 + c.hour;
    var m := h * 60 + c.minute;
    Cut(m * 60 + c.second, c.milli, MS_PER_SECOND);
    Cut(m, 1000 * c.second + c.milli, MS_PER_MINUTE);
    Cut(h, c.minute, 60);
    Cut(m, c.second, 60);
  }

  /** Within 400000 years no value that dayOfFirstOfMonth computes leaves the integers that a double holds exactly;
    * within 280000 neither does the product that makeDate forms.
    */
  lemma Magnitudes(year: int, mn: int)
    requires -400_000 <= year <= 400_000 && 0 <= mn < 12
    ensures var y := if mn <= 1 then year - 1 else year;
            var era := y / 400; var yoe := y - era * 400;
            && -0x20_0000_0000_0000 < era * 146097 < 0x20_0000_0000_0000
            && 0 <= yoe * 365 + yoe / 4 - yoe / 100 + (153 * (if mn <= 1 then mn + 10 else mn - 2) + 2) / 5 <= 146096
            && (-280_000 <= year <= 280_000 ==>
                  -0x20_0000_0000_0000 < DayOfFirstOfMonth(year, mn) * MS_PER_DAY < 0x20_0000_0000_0000)
  {
    Eras(if mn <= 1 then year - 1 else year);
  }

  // ----- new Date(y, m, ...) and Date.UTC -----

  /** The i-th component: what was passed, else its default; the year is always read. */
  function Component(args: seq<Number>, i: nat): Number
    requires i < 7
  {
    if i < |args| then args[i]
    else if i == 0 then NaN
    else if i == 2 then Whole(1)
    else Whole(0)
  }

  /** MakeFullYear. */
  function FullYear(y: Number): Number {
    if y.Finite? && 0 <= Trunc(y.value) <= 99 then Whole(1900 + Trunc(y.value)) else y
  }

  function UtcTime(args: seq<Number>): Number {
    TimeClip(MakeDate(MakeDay(FullYear(Component(args, 0)), Component(args, 1), Component(args, 2)),
                      MakeTime(Component(args, 3), Component(args, 4), Component(args, 5), Component(args, 6))))
  }

  method DateFromComponents(args: seq<Number>) returns (r: Number)
    ensures r == UtcTime(args)
    ensures r.Finite? ==> forall i: nat :: i < 7 ==> Component(args, i).Finite?
  {
    var count := if |args| < 7 then |args| else 7;
    if count < 1 {
      count := 1;
    }
    var vals: seq<Number> := [];
    for i := 0 to count
      invariant |vals| == i && forall j :: 0 <= j < i ==> vals[j] == if j < |args| then args[j] else NaN
    {
      vals := vals + [if i < |args| then args[i] else NaN];
    }
    var year := vals[0];
    if year.Finite? {
      var iy := Trunc(year.value);
      if 0 <= iy <= 99 {
        year := Finite((1900 + iy) as real);
      }
    }
    var comps := [year];
    for i := 1 to 7
      invariant |comps| == i && comps[0] == year
      invariant forall j {:trigger comps[j]} :: 1 <= j < i ==> comps[j] == Component(args, j)
    {
      comps := comps + [if i < |vals| then vals[i] else if i == 2 then Finite(1.0) else Finite(0.0)];
    }
    for i := 0 to 7
      invariant forall j :: 0 <= j < i ==> comps[j].Finite?
    {
      if !comps[i].Finite? {
        return NaN;
      }
    }
    var tv := MakeDate(MakeDay(comps[0], comps[1], comps[2]), MakeTime(comps[3], comps[4], comps[5], comps[6]));
    r := TimeClip(tv);
  }

  /** A date given by its components is the date of the calendar, with the years 0 to 99 read as 1900 to 1999, whenever its
    * time value is in range.  (29 February of the year 0 is then the day after 28 February 1900.)
    */
  lemma ComponentsAreTheDate(d: Date, c: Clock)
    requires IsDate(d) && IsClock(c)
    ensures var e := if 0 <= d.year <= 99 then d.(year := 1900 + d.year) else d;
            var t := DayNumber(e) * MS_PER_DAY + (((c.hour * 60 + c.minute) * 60 + c.second) * 1000 + c.milli);
            UtcTime([Whole(d.year), Whole(d.month), Whole(d.day),
                     Whole(c.hour), Whole(c.minute), Whole(c.second), Whole(c.milli)])
            == if -MAX_TIME <= t <= MAX_TIME then Whole(t) else NaN
  {
    var e := if 0 <= d.year <= 99 then d.(year := 1900 + d.year) else d;
    var t := DayNumber(e) * MS_PER_DAY + (((c.hour * 60 + c.minute) * 60 + c.second) * 1000 + c.milli);
    TimeValueIs(e, c);
    WholeTruncates(d.year);
    WholeTruncates(t);
    var args := [Whole(d.year), Whole(d.month), Whole(d.day),
                 Whole(c.hour), Whole(c.minute), Whole(c.second), Whole(c.milli)];
    assert FullYear(args[0]) == Whole(e.year);
    assert UtcTime(args) == TimeClip(TimeValue(e, c));
    hide TimeValue, UtcTime, DayNumber;
  }

  // ----- components in general -----

  /** Toward zero. */
  lemma TruncIs(x: real)
    ensures x >= 0.0 ==> 0.0 <= Trunc(x) as real <= x < Trunc(x) as real + 1.0
    ensures x <= 0.0 ==> Trunc(x) as real - 1.0 < x <= Trunc(x) as real <= 0.0
  {
    FloorBounds(x);
    FloorBounds(-x);
  }

  lemma EpochStartsAtZero()
    ensures MonthStart(12 * 1970) == 0
  {
  }

  /** Seven finite components, whatever their size and sign: fractions are dropped, months past the end of the year or before
    * its start count on, and the rest is a sum.
    */
  lemma SevenComponents(y: real, m: real, d: real, h: real, n: real, s: real, ms: real)
    ensures var year := if 0 <= Trunc(y) <= 99 then 1900 + Trunc(y) else Trunc(y);
            var t := (MonthStart(12 * year + Trunc(m)) + Trunc(d) - 1) * 86_400_000
                     + Trunc(h) * 3_600_000 + Trunc(n) * 60_000 + Trunc(s) * 1000 + Trunc(ms);
            UtcTime([Finite(y), Finite(m), Finite(d), Finite(h), Finite(n), Finite(s), Finite(ms)])
            == if -8_640_000_000_000_000 <= t <= 8_640_000_000_000_000 then Finite(t as real) else NaN
  {
    var year := if 0 <= Trunc(y) <= 99 then 1900 + Trunc(y) else Trunc(y);
    var args := [Finite(y), Finite(m), Finite(d), Finite(h), Finite(n), Finite(s), Finite(ms)];
    var t := (MonthStart(12 * year + Trunc(m)) + Trunc(d) - 1) * 86_400_000
             + Trunc(h) * 3_600_000 + Trunc(n) * 60_000 + Trunc(s) * 1000 + Trunc(ms);
    var day, time := DayOf(year, Trunc(m), Trunc(d)),
                     Trunc(h) * 3_600_000 + Trunc(n) * 60_000 + Trunc(s) * 1000 + Trunc(ms);
    WholeTruncates(1900 + Trunc(y));
    DayOfIsMonthStart(year, Trunc(m), Trunc(d));
    hide Trunc, MonthStart, DayOf;
    assert MakeDay(FullYear(args[0]), args[1], args[2]) == Finite(day as real);
    assert MakeTime(args[3], args[4], args[5], args[6]) == Finite(time as real);
    WholeDayAndTime(day, time);
    assert t == day * 86_400_000 + time;
    assert UtcTime(args) == TimeClip(MakeDate(Finite(day as real), Finite(time as real)));
  }

  lemma WholeDayAndTime(day: int, time: int)
    ensures var t := day * 86_400_000 + time;
            TimeClip(MakeDate(Finite(day as real), Finite(time as real)))
            == if -8_640_000_000_000_000 <= t <= 8_640_000_000_000_000 then Finite(t as real) else NaN
  {
    var t := day * 86_400_000 + time;
    WholeTruncates(t);
    assert MakeDate(Finite(day as real), Finite(time as real)) == Finite(t as real);
    hide Trunc;
  }

  /** Any number of components: an infinity or NaN among the first seven makes the result NaN, so does leaving out the year,
    * what is missing is the first month, the first day or zero, and what is past the seventh is ignored.
    */
  lemma AnyComponents(args: seq<Number>)
    ensures args == [] ==> UtcTime(args) == NaN
    ensures (exists i | 0 <= i < |args| && i < 7 :: !args[i].Finite?) ==> UtcTime(args) == NaN
    ensures |args| == 1 || 3 <= |args| < 7 ==> UtcTime(args) == UtcTime(args + [Finite(0.0)])
    ensures |args| == 2 ==> UtcTime(args) == UtcTime(args + [Finite(1.0)])
    ensures |args| > 7 ==> UtcTime(args) == UtcTime(args[..7])
  {
    hide Trunc, DayOf;
    if |args| < 7 {
      var next := args + [if |args| == 2 then Finite(1.0) else Finite(0.0)];
      assert forall i: nat | i < 7 && args != [] :: Component(args, i) == Component(next, i);
    } else {
      assert forall i: nat | i < 7 :: Component(args, i) == Component(args[..7], i);
    }
    if i :| 0 <= i < |args| && i < 7 && !args[i].Finite? {
      assert Component(args, i) == args[i];
    }
  }
}
