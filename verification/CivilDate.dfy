/**
 `ymd_from_unix_secs` (src/audit_sink.rs): Gregorian dates from unix seconds, against a
 day count that adds up years and months one by one.
 */
module CivilDate {

  datatype Date = Date(year: int, month: int, day: int)

  // ---- the calendar (section 5.7 and Appendix C of RFC 3339, proleptic) ----

  predicate Leap(y: int) { y % 4 == 0 && (y % 100 != 0 || y % 400 == 0) }

  function YearLength(y: int): int { if Leap(y) then 366 else 365 }

  function MonthLength(y: int, m: int): int
  {
    if m == 2 then (if Leap(y) then 29 else 28) else if m in {4, 6, 9, 11} then 30 else 31
  }

  predicate Valid(x: Date) { 1 <= x.month <= 12 && 1 <= x.day <= MonthLength(x.year, x.month) }

  /** Days from 1970-01-01 to the first of January of `y`. */
  function DaysToYear(y: int): int
    decreases if y < 1970 then 1970 - y else y - 1970
  {
    if y == 1970 then 0
    else if y > 1970 then DaysToYear(y - 1) + YearLength(y - 1)
    else DaysToYear(y + 1) - YearLength(y)
  }

  function DaysToMonth(y: int, m: int): int
    requires 1 <= m <= 13
    decreases m
  {
    if m == 1 then 0 else DaysToMonth(y, m - 1) + MonthLength(y, m - 1)
  }

  function DayNumber(x: Date): int
    requires Valid(x)
  {
    DaysToYear(x.year) + DaysToMonth(x.year, x.month) + x.day - 1
  }

  function Tomorrow(x: Date): Date
  {
    if x.day < MonthLength(x.year, x.month) then Date(x.year, x.month, x.day + 1)
    else if x.month < 12 then Date(x.year, x.month + 1, 1)
    else Date(x.year + 1, 1, 1)
  }

  // ---- the code ----

  /** Rust's `/` on `i64`: truncates towards zero. */
  function TruncDiv(a: int, b: int): int
    requires b > 0
  {
    if a >= 0 then a / b else -((-a) / b)
  }

  function Era(z: int): int { if z >= 0 then TruncDiv(z, 146_097) else TruncDiv(z - 146_096, 146_097) }

  function YearOfEra(doe: int): int { (doe - doe / 1460 + doe / 36_524 - doe / 146_096) / 365 }

  function DayOfYear(doe: int): int
  {
    var yoe := YearOfEra(doe);
    doe - (365 * yoe + yoe / 4 - yoe / 100)
  }

  /** The date before the year is narrowed to `i32`. */
  function Civil(days: int): Date
  {
    var z := days + 719_468;
    var era := Era(z);
    var doe := z - era * 146_097;
    FromMarch(YearOfEra(doe) + era * 400, DayOfYear(doe))
  }

  /** Month and day of day `doy` of the year that starts on the first of March of `y`. */
  function FromMarch(y: int, doy: int): Date
  {
    var mp := (5 * doy + 2) / 153;
    var d := doy - (153 * mp + 2) / 5 + 1;
    var m := if mp < 10 then mp + 3 else mp - 9;
    Date(if m <= 2 then y + 1 else y, m, d)
  }

  const TWO_32: int := 0x1_0000_0000

  predicate FitsI32(y: int) { -0x8000_0000 <= y < 0x8000_0000 }

  /** `as i32`: wraps. */
  function AsI32(y: int): int
  {
    var low := y % TWO_32;
    if low < 0x8000_0000 then low else low - TWO_32
  }

  function YmdFromUnixSecs(secs: int): Date
  {
    var x := Civil(secs / 86_400);
    x.(year := AsI32(x.year))
  }

  // ---- the Euclidean split of days into eras and years ----

  lemma EraIsFloor(z: int)
    ensures Era(z) == z / 146_097
  {
    if z < 0 {
      var n := 146_096 - z;
      assert n == 146_097 * (n / 146_097) + n % 146_097;
      assert z == 146_097 * -(n / 146_097) + (146_096 - n % 146_097);
    }
  }

  /** March-based years of an era: centuries, four-year cycles, years. */
  lemma YearSplit(doe: int) returns (b: int, q: int, u: int, v: int)
    requires 0 <= doe < 146_096
    ensures 0 <= b <= 3 && 0 <= q <= 24 && 0 <= u < 1461 && 0 <= v <= 3
    ensures doe == 36_524 * b + 1461 * q + u && (q == 24 ==> u < 1460)
    ensures YearOfEra(doe) == 100 * b + 4 * q + v
    ensures 365 * v <= u && (u < 365 * v + 365 || (v == 3 && u == 1460))
  {
    b := doe / 36_524;
    var t := doe - 36_524 * b;
    q := t / 1461;
    u := t - 1461 * q;
    v := if u == 1460 then 3 else u / 365;
    var a := 25 * b + q;
    var f := if 24 * b + q + u >= 1460 then 1 else 0;
    assert doe == 1460 * a + (24 * b + q + u);
    assert doe / 1460 == a + f;
    assert doe / 146_096 == 0;
    var x := doe - doe / 1460 + doe / 36_524 - doe / 146_096;
    assert x == 365 * (100 * b + 4 * q) + (u - f);
    assert 365 * v <= u - f < 365 * v + 365;
    assert x / 365 == 100 * b + 4 * q + v;
  }

  predicate LeapMarch(yoe: int) { Leap(yoe + 1) }

  /** `YearOfEra` finds the March-based year: its day is in range, 365 only in leap years. */
  lemma DayOfYearRange(doe: int)
    requires 0 <= doe < 146_097
    ensures 0 <= YearOfEra(doe) <= 399
    ensures 0 <= DayOfYear(doe) <= 365
    ensures DayOfYear(doe) == 365 ==> LeapMarch(YearOfEra(doe))
  {
    if doe == 146_096 {
      assert YearOfEra(doe) == 399;
    } else {
      var b, q, u, v := YearSplit(doe);
      var yoe := 100 * b + 4 * q + v;
      assert yoe / 4 == 25 * b + q && yoe / 100 == b;
      assert DayOfYear(doe) == u - 365 * v;
      if u == 1460 {
        assert yoe + 1 == 4 * (25 * b + q + 1) && (yoe + 1) % 100 == 4 * (q + 1);
      }
    }
  }

  /** Days before March-based month `mp`. */
  function MarchOffset(mp: int): int { (153 * mp + 2) / 5 }

  lemma MonthSplit(doy: int)
    requires 0 <= doy <= 365
    ensures var mp := (5 * doy + 2) / 153;
      0 <= mp <= 11 && MarchOffset(mp) <= doy && (mp < 11 ==> doy < MarchOffset(mp + 1))
  {
  }

  // ---- closed form of the year count ----

  lemma {:induction false} DaysToYearClosed(y: int)
    ensures DaysToYear(y) == 365 * (y - 1970) + (y - 1) / 4 - (y - 1) / 100 + (y - 1) / 400 - 477
    decreases if y < 1970 then 1970 - y else y - 1970
  {
    if y > 1970 {
      DaysToYearClosed(y - 1);
      LeapCount(y - 1);
    } else if y < 1970 {
      DaysToYearClosed(y + 1);
      LeapCount(y);
    }
  }

  lemma FloorStep(y: int, n: int)
    requires n in {4, 100, 400}
    ensures y / n - (y - 1) / n == if y % n == 0 then 1 else 0
  {
  }

  lemma LeapCount(y: int)
    ensures (y / 4 - y / 100 + y / 400) - ((y - 1) / 4 - (y - 1) / 100 + (y - 1) / 400) == if Leap(y) then 1 else 0
  {
    FloorStep(y, 4);
    FloorStep(y, 100);
    FloorStep(y, 400);
    CenturiesAreFourths(y);
    Quadricentennial(y);
  }

  lemma CenturiesAreFourths(y: int)
    ensures y % 100 == 0 ==> y % 4 == 0
  {
    if y % 100 == 0 {
      var k := y / 100;
      assert y == 4 * (25 * k);
    }
  }

  lemma Quadricentennial(y: int)
    ensures y % 400 == 0 ==> y % 100 == 0
  {
    if y % 400 == 0 {
      var k := y / 400;
      assert y == 100 * (4 * k);
    }
  }

  lemma DaysToMonthTable(y: int, m: int)
    requires 1 <= m <= 12
    ensures DaysToMonth(y, m) == if m <= 2 then 31 * (m - 1) else (if Leap(y) then 60 else 59) + MarchOffset(m - 3)
  {
    if m > 1 {
      DaysToMonthTable(y, m - 1);
    }
  }

  // ---- the code inverts the count ----

  /** Whole eras shift the leap rule and the floors by multiples. */
  lemma EraShift(era: int, yoe: int)
    requires 0 <= yoe <= 399
    ensures var y := yoe + 400 * era;
      && y / 4 == yoe / 4 + 100 * era && y / 100 == yoe / 100 + 4 * era && y / 400 == era
      && (Leap(y + 1) <==> LeapMarch(yoe))
  {
    FloorShift(yoe, 4, 100 * era);
    FloorShift(yoe, 100, 4 * era);
    FloorShift(yoe, 400, era);
    FloorShift(yoe + 1, 4, 100 * era);
    FloorShift(yoe + 1, 100, 4 * era);
    FloorShift(yoe + 1, 400, era);
  }

  lemma FloorShift(x: int, n: int, k: int)
    requires n in {4, 100, 400}
    ensures (x + n * k) / n == x / n + k && (x + n * k) % n == x % n
  {
    assert x + n * k == n * (x / n + k) + x % n;
  }

  lemma FromMarchValid(y: int, doy: int)
    requires 0 <= doy <= 365 && (doy == 365 ==> Leap(y + 1))
    ensures Valid(FromMarch(y, doy))
  {
    MonthSplit(doy);
  }

  lemma FromMarchNumber(y: int, doy: int)
    requires 0 <= doy <= 365 && (doy == 365 ==> Leap(y + 1))
    ensures Valid(FromMarch(y, doy))
    ensures DayNumber(FromMarch(y, doy)) == 365 * y + y / 4 - y / 100 + y / 400 + doy - 719_468
  {
    FromMarchValid(y, doy);
    MonthSplit(doy);
    var x := FromMarch(y, doy);
    DaysToYearClosed(x.year);
    DaysToMonthTable(x.year, x.month);
    LeapCount(y);
  }

  /** The date of day `days` is valid and has day number `days`, for every integer. */
  lemma CivilCorrect(days: int)
    ensures Valid(Civil(days)) && DayNumber(Civil(days)) == days
  {
    hide YearOfEra, Era, FromMarch, DayNumber, Valid, Leap;
    var z := days + 719_468;
    EraIsFloor(z);
    var era, doe := z / 146_097, z % 146_097;
    DayOfYearRange(doe);
    var yoe, doy := YearOfEra(doe), DayOfYear(doe);
    var y := yoe + 400 * era;
    EraShift(era, yoe);
    assert Civil(days) == FromMarch(y, doy);
    FromMarchNumber(y, doy);
  }

  // ---- the count is strictly monotone, so the inverse is unique ----

  lemma {:induction false} MonthsFit(y: int, m: int, n: int)
    requires 1 <= m < n <= 13
    ensures DaysToMonth(y, m) + MonthLength(y, m) <= DaysToMonth(y, n) && DaysToMonth(y, 13) == YearLength(y)
    decreases n
  {
    assert DaysToMonth(y, 13) == DaysToMonth(y, 12) + 31;
    DaysToMonthTable(y, 12);
    if n > m + 1 {
      MonthsFit(y, m, n - 1);
    }
  }

  lemma {:induction false} YearsFit(y: int, n: int)
    requires y < n
    ensures DaysToYear(y) + YearLength(y) <= DaysToYear(n)
    decreases n - y
  {
    if n > y + 1 {
      YearsFit(y, n - 1);
    }
  }

  lemma DayOfYearBound(x: Date)
    requires Valid(x)
    ensures DaysToYear(x.year) <= DayNumber(x) < DaysToYear(x.year) + YearLength(x.year)
  {
    DaysToMonthTable(x.year, x.month);
    MonthsFit(x.year, x.month, 13);
  }

  predicate Before(x: Date, y: Date)
  {
    x.year < y.year || (x.year == y.year && (x.month < y.month || (x.month == y.month && x.day < y.day)))
  }

  lemma CountIsMonotone(x: Date, y: Date)
    requires Valid(x) && Valid(y)
    ensures DayNumber(x) < DayNumber(y) <==> Before(x, y)
  {
    if Before(x, y) {
      CountGrows(x, y);
    } else if x != y {
      CountGrows(y, x);
    }
  }

  lemma CountGrows(x: Date, y: Date)
    requires Valid(x) && Valid(y) && Before(x, y)
    ensures DayNumber(x) < DayNumber(y)
  {
    if x.year < y.year {
      DayOfYearBound(x);
      DayOfYearBound(y);
      YearsFit(x.year, y.year);
    } else if x.month < y.month {
      MonthsFit(x.year, x.month, y.month);
    }
  }

  /** `Civil` and `DayNumber` are inverse to each other. */
  lemma CivilInverts(x: Date)
    requires Valid(x)
    ensures Civil(DayNumber(x)) == x
  {
    hide Civil, DayNumber, Valid;
    CivilCorrect(DayNumber(x));
    CountIsMonotone(x, Civil(DayNumber(x)));
    CountIsMonotone(Civil(DayNumber(x)), x);
  }

  lemma TomorrowCounts(x: Date)
    requires Valid(x)
    ensures Valid(Tomorrow(x)) && DayNumber(Tomorrow(x)) == DayNumber(x) + 1
  {
    if x.day == MonthLength(x.year, x.month) && x.month == 12 {
      MonthsFit(x.year, 12, 13);
      assert DaysToYear(x.year + 1) == DaysToYear(x.year) + YearLength(x.year);
    }
  }

  /** Consecutive days get consecutive dates. */
  lemma ConsecutiveDays(days: int)
    ensures Civil(days + 1) == Tomorrow(Civil(days))
  {
    hide Civil, DayNumber, Tomorrow, Valid;
    CivilCorrect(days);
    TomorrowCounts(Civil(days));
    CivilInverts(Tomorrow(Civil(days)));
  }

  /**
   `ymd_from_unix_secs`: whenever the Gregorian date of day floor(secs / 86400) has a
   year that fits in `i32`, that date is the answer, before 1970 as well as after.
   */
  lemma YmdCorrect(secs: int, x: Date)
    requires Valid(x) && DayNumber(x) == secs / 86_400
    ensures YmdFromUnixSecs(secs) == x <==> FitsI32(x.year)
  {
    hide Civil, DayNumber, Valid, AsI32, FitsI32;
    CivilInverts(x);
    AsI32Exact(x.year);
  }

  lemma AsI32Exact(y: int)
    ensures AsI32(y) == y <==> FitsI32(y)
  {
  }
}
