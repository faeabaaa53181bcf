/** Calendar arithmetic: a day count since 1970-01-01 turned into a date, and back. */
module CivilDate {
  datatype Date = Date(year: int, month: int, day: int)

  const U32: int := 0x1_0000_0000

  // ---- the calendar itself: month lengths, the leap rule, the day after ----

  predicate Leap(y: int) {
    y % 4 == 0 && (y % 100 != 0 || y % 400 == 0)
  }

  function MonthLength(y: int, m: int): int {
    if m == 2 then (if Leap(y) then 29 else 28)
    else if m in {4, 6, 9, 11} then 30
    else 31
  }

  predicate IsDate(t: Date) {
    1 <= t.month <= 12 && 1 <= t.day <= MonthLength(t.year, t.month)
  }

  function DayAfter(t: Date): Date {
    if t.day < MonthLength(t.year, t.month) then t.(day := t.day + 1)
    else if t.month < 12 then Date(t.year, t.month + 1, 1)
    else Date(t.year + 1, 1, 1)
  }

  predicate Earlier(a: Date, b: Date) {
    || a.year < b.year
    || (a.year == b.year && (a.month < b.month || (a.month == b.month && a.day < b.day)))
  }

  // ---- the code's two conversions ----

  /** Integer division as the machine does it: towards zero. */
  function Truncated(a: int, b: int): int
    requires b > 0
  {
    if a >= 0 then a / b else -(-a / b)
  }

  /** Years are counted from March, so that the leap day comes last. */
  function MarchYear(t: Date): int {
    t.year - if t.month <= 2 then 1 else 0
  }

  function MarchMonth(t: Date): int {
    if t.month > 2 then t.month - 3 else t.month + 9
  }

  function MonthStart(mp: int): int {
    (153 * mp + 2) / 5
  }

  function DayOfYear(t: Date): int {
    MonthStart(MarchMonth(t)) + t.day - 1
  }

  function ToDays(t: Date): int {
    var y := MarchYear(t);
    var era := y / 400;
    var yoe := y - era * 400;
    var doe := yoe * 365 + yoe / 4 - yoe / 100 + DayOfYear(t);
    era * 146097 + doe - 719468
  }

  function YearOfEra(doe: int): int {
    (doe - doe / 1460 + doe / 36524 - doe / 146096) / 365
  }

  function FromMarch(y: int, doy: int): Date {
    var mp := (5 * doy + 2) / 153;
    var d := doy - MonthStart(mp) + 1;
    var m := if mp < 10 then mp + 3 else mp - 9;
    Date(y + if m <= 2 then 1 else 0, m, d)
  }

  function Civil(days: int): Date {
    var z := days + 719468;
    var era := if z >= 0 then Truncated(z, 146097) else Truncated(z - 146096, 146097);
    var doe := z - era * 146097;
    var yoe := YearOfEra(doe);
    FromMarch(yoe + era * 400, doe - (365 * yoe + yoe / 4 - yoe / 100))
  }

  /** Today's date from a clock reading in seconds; the year is cut to 32 bits. */
  function CurrentYmd(secs: nat): Date {
    var t := Civil(secs / 86400);
    t.(year := t.year % U32)
  }

  function DaysBetween(older: Date, newer: Date): int {
    var n := ToDays(newer) - ToDays(older);
    (if n > 0 then n else 0) % U32
  }

  // ---- years ----

  function YearStart(y: int): int {
    365 * y + y / 4 - y / 100 + y / 400
  }

  function YearLength(y: int): int {
    if Leap(y + 1) then 366 else 365
  }

  lemma NextYearStart(y: int)
    ensures YearStart(y + 1) == YearStart(y) + YearLength(y)
  {
    assert (y + 1) / 4 == y / 4 + if (y + 1) % 4 == 0 then 1 else 0;
    assert (y + 1) / 100 == y / 100 + if (y + 1) % 100 == 0 then 1 else 0;
    assert (y + 1) / 400 == y / 400 + if (y + 1) % 400 == 0 then 1 else 0;
    assert (y + 1) % 100 == 0 ==> (y + 1) % 4 == 0;
    assert (y + 1) % 400 == 0 ==> (y + 1) % 100 == 0;
  }

  lemma {:induction false} LaterYearStart(a: int, b: int)
    requires a < b
    ensures YearStart(a) + YearLength(a) <= YearStart(b)
    decreases b - a
  {
    NextYearStart(a);
    if a + 1 < b {
      LaterYearStart(a + 1, b);
    }
  }

  lemma EraOfYear(y: int)
    ensures var era := y / 400; var yoe := y - era * 400;
            && 0 <= yoe < 400
            && era * 146097 + yoe * 365 + yoe / 4 - yoe / 100 == YearStart(y)
  {
    var era := y / 400;
    var yoe := y - era * 400;
    assert y == yoe + era * 400;
    assert y / 4 == yoe / 4 + era * 100;
    assert y / 100 == yoe / 100 + era * 4;
  }

  lemma ToDaysByYear(t: Date)
    ensures ToDays(t) == YearStart(MarchYear(t)) + DayOfYear(t) - 719468
  {
    EraOfYear(MarchYear(t));
  }

  // ---- days within a year ----

  lemma MonthOfDay(t: Date)
    requires IsDate(t)
    ensures 0 <= DayOfYear(t) < YearLength(MarchYear(t))
    ensures FromMarch(MarchYear(t), DayOfYear(t)) == t
  {
    var mp := MarchMonth(t);
    assert mp == 0 || mp == 1 || mp == 2 || mp == 3 || mp == 4 || mp == 5
           || mp == 6 || mp == 7 || mp == 8 || mp == 9 || mp == 10 || mp == 11;
  }

  lemma DayOfMonth(y: int, doy: int)
    requires 0 <= doy < YearLength(y)
    ensures var t := FromMarch(y, doy); IsDate(t) && MarchYear(t) == y && DayOfYear(t) == doy
  {
    var mp := (5 * doy + 2) / 153;
    assert mp == 0 || mp == 1 || mp == 2 || mp == 3 || mp == 4 || mp == 5
           || mp == 6 || mp == 7 || mp == 8 || mp == 9 || mp == 10 || mp == 11;
  }

  lemma DayAfterInYear(t: Date)
    requires IsDate(t)
    ensures IsDate(DayAfter(t))
    ensures DayOfYear(t) + 1 < YearLength(MarchYear(t)) ==>
              MarchYear(DayAfter(t)) == MarchYear(t) && DayOfYear(DayAfter(t)) == DayOfYear(t) + 1
    ensures DayOfYear(t) + 1 == YearLength(MarchYear(t)) ==>
              MarchYear(DayAfter(t)) == MarchYear(t) + 1 && DayOfYear(DayAfter(t)) == 0
  {
    var m := t.month;
    assert m == 1 || m == 2 || m == 3 || m == 4 || m == 5 || m == 6
           || m == 7 || m == 8 || m == 9 || m == 10 || m == 11 || m == 12;
  }

  // ---- the year of a day within a 400-year era ----

  /** Day `s` of the four-year block `k` of the century `c`. */
  lemma YearOfEraByBlock(c: int, k: int, s: int)
    requires 0 <= c < 4 && 0 <= k < 25 && 0 <= s < 1461 && 1461 * k + s < 36524
    ensures var j := if s == 1460 then 3 else s / 365;
            YearOfEra(36524 * c + 1461 * k + s) == 100 * c + 4 * k + j
  {
    var doe := 36524 * c + 1461 * k + s;
    var spill := if k + s + 24 * c >= 1460 then 1 else 0;
    assert doe / 36524 == c;
    assert doe / 146096 == 0;
    assert doe / 1460 == 25 * c + k + spill;
  }

  lemma LastDayOfEra()
    ensures YearOfEra(146096) == 399 && YearLength(399) == 366
  {
  }

  lemma YearOfEraFits(doe: int)
    requires 0 <= doe < 146097
    ensures var y := YearOfEra(doe);
            0 <= y < 400 && 0 <= doe - (365 * y + y / 4 - y / 100) < YearLength(y)
  {
    hide YearOfEra, YearLength;
    if doe < 146096 {
      var c, r := doe / 36524, doe % 36524;
      var k, s := r / 1461, r % 1461;
      YearOfEraByBlock(c, k, s);
      var j := if s == 1460 then 3 else s / 365;
      BlockLength(c, k, j, s);
    } else {
      LastDayOfEra();
    }
  }

  lemma BlockLength(c: int, k: int, j: int, s: int)
    requires 0 <= c < 4 && 0 <= k < 25 && 0 <= s < 1461 && 1461 * k + s < 36524
    requires j == if s == 1460 then 3 else s / 365
    ensures var y := 100 * c + 4 * k + j;
            && 0 <= y < 400
            && 365 * y + y / 4 - y / 100 == 36524 * c + 1461 * k + 365 * j
            && 0 <= s - 365 * j < YearLength(y)
  {
    var y := 100 * c + 4 * k + j;
    assert y / 4 == 25 * c + k;
    assert y / 100 == c;
    if s == 1460 {
      assert y + 1 == 4 * (25 * c + k + 1);
      assert (y + 1) % 100 != 0;
    }
  }

  // ---- what the two conversions promise ----

  /** Converting a day number to a date gives a real date, and counting its days gives the number back. */
  lemma ToDaysOfCivil(days: int)
    ensures IsDate(Civil(days))
    ensures ToDays(Civil(days)) == days
  {
    hide *;
    var y, doy := CivilInYear(days);
    DayOfMonth(y, doy);
    ToDaysByYear(Civil(days));
  }

  lemma CivilInYear(days: int) returns (y: int, doy: int)
    ensures 0 <= doy < YearLength(y) && YearStart(y) + doy == days + 719468
    ensures Civil(days) == FromMarch(y, doy)
  {
    hide *;
    var era := (days + 719468) / 146097;
    var doe := days + 719468 - era * 146097;
    assert 0 <= doe < 146097;
    YearOfEraFits(doe);
    var yoe := YearOfEra(doe);
    y, doy := yoe + era * 400, doe - (365 * yoe + yoe / 4 - yoe / 100);
    LeapPeriod(yoe, era);
    EraOfYear(y);
    assert y / 400 == era;
    CivilByEra(days);
  }

  lemma CivilByEra(days: int)
    ensures var z := days + 719468; var era := z / 146097; var doe := z - era * 146097; var yoe := YearOfEra(doe);
            Civil(days) == FromMarch(yoe + era * 400, doe - (365 * yoe + yoe / 4 - yoe / 100))
  {
    hide YearOfEra, FromMarch;
    var z := days + 719468;
    assert z < 0 ==> Truncated(z - 146096, 146097) == z / 146097;
  }

  lemma LeapPeriod(y: int, era: int)
    ensures YearLength(y + era * 400) == YearLength(y)
  {
    hide *;
    EveryFourth(y + 1, era * 100);
    EveryHundredth(y + 1, era * 4);
    EveryFourHundredth(y + 1, era);
    LengthByRemainder(y, y + era * 400);
  }

  lemma EveryFourth(a: int, q: int)
    ensures (a + 4 * q) % 4 == a % 4
  {
  }

  lemma EveryHundredth(a: int, q: int)
    ensures (a + 100 * q) % 100 == a % 100
  {
  }

  lemma EveryFourHundredth(a: int, q: int)
    ensures (a + 400 * q) % 400 == a % 400
  {
  }

  lemma LengthByRemainder(y: int, x: int)
    requires (y + 1) % 4 == (x + 1) % 4 && (y + 1) % 100 == (x + 1) % 100 && (y + 1) % 400 == (x + 1) % 400
    ensures YearLength(y) == YearLength(x)
  {
  }

  /** The day count keeps the order of dates. */
  lemma ToDaysIsMonotone(a: Date, b: Date)
    requires IsDate(a) && IsDate(b)
    ensures Earlier(a, b) <==> ToDays(a) < ToDays(b)
  {
    if Earlier(a, b) {
      EarlierIsLess(a, b);
    } else if a != b {
      EarlierIsLess(b, a);
    }
  }

  lemma EarlierIsLess(a: Date, b: Date)
    requires IsDate(a) && IsDate(b) && Earlier(a, b)
    ensures ToDays(a) < ToDays(b)
  {
    ToDaysByYear(a);
    ToDaysByYear(b);
    MonthOfDay(a);
    MonthOfDay(b);
    if MarchYear(a) < MarchYear(b) {
      LaterYearStart(MarchYear(a), MarchYear(b));
    } else {
      EarlierInYear(a, b);
    }
  }

  lemma EarlierInYear(a: Date, b: Date)
    requires IsDate(a) && IsDate(b) && Earlier(a, b) && MarchYear(a) >= MarchYear(b)
    ensures MarchYear(a) == MarchYear(b) && DayOfYear(a) < DayOfYear(b)
  {
    if MarchMonth(a) < MarchMonth(b) {
      MonthIsShort(a);
      assert MonthStart(MarchMonth(a) + 1) <= MonthStart(MarchMonth(b));
    }
  }

  lemma MonthIsShort(t: Date)
    requires IsDate(t)
    ensures MarchMonth(t) < 11 ==> DayOfYear(t) < MonthStart(MarchMonth(t) + 1)
  {
    var mp := MarchMonth(t);
    assert mp == 0 || mp == 1 || mp == 2 || mp == 3 || mp == 4 || mp == 5
           || mp == 6 || mp == 7 || mp == 8 || mp == 9 || mp == 10 || mp == 11;
  }

  /** Every date of the calendar is the date of its own day number. */
  lemma CivilOfToDays(t: Date)
    requires IsDate(t)
    ensures Civil(ToDays(t)) == t
  {
    hide Civil, ToDays, IsDate;
    var u := Civil(ToDays(t));
    ToDaysOfCivil(ToDays(t));
    ToDaysIsMonotone(t, u);
    ToDaysIsMonotone(u, t);
  }

  /** The day after in the calendar is one more in the count. */
  lemma ToDaysOfDayAfter(t: Date)
    requires IsDate(t)
    ensures IsDate(DayAfter(t)) && ToDays(DayAfter(t)) == ToDays(t) + 1
  {
    MonthOfDay(t);
    DayAfterInYear(t);
    NextYearStart(MarchYear(t));
    ToDaysByYear(t);
    ToDaysByYear(DayAfter(t));
  }

  lemma Epoch()
    ensures Civil(0) == Date(1970, 1, 1)
  {
    assert IsDate(Date(1970, 1, 1)) && ToDays(Date(1970, 1, 1)) == 0;
    CivilOfToDays(Date(1970, 1, 1));
  }

  /** The conversion walks the Gregorian calendar from 1 January 1970, in both directions. */
  lemma CivilFollowsTheCalendar(days: int)
    ensures Civil(0) == Date(1970, 1, 1)
    ensures Civil(days + 1) == DayAfter(Civil(days))
    ensures Earlier(Civil(days), Civil(days + 1))
  {
    hide *;
    Epoch();
    ToDaysOfCivil(days);
    ToDaysOfCivil(days + 1);
    ToDaysOfDayAfter(Civil(days));
    CivilOfToDays(DayAfter(Civil(days)));
    ToDaysIsMonotone(Civil(days), Civil(days + 1));
  }

  /** The age of a date is the number of days that have passed, and zero for a date still to come. */
  lemma DaysBetweenCounts(a: int, b: int)
    requires b - a < U32
    ensures DaysBetween(Civil(a), Civil(b)) == if b > a then b - a else 0
  {
    hide Civil, ToDays;
    ToDaysOfCivil(a);
    ToDaysOfCivil(b);
  }

  /** The clock's date is exact just as long as the year fits the 32 bits it is kept in. */
  lemma CurrentYmdIsExact(secs: nat)
    ensures CurrentYmd(secs) == Civil(secs / 86400) <==> Civil(secs / 86400).year < U32
    ensures Civil(secs / 86400).year < U32 ==> ToDays(CurrentYmd(secs)) == secs / 86400
  {
    hide Civil, ToDays, IsDate;
    var t := Civil(secs / 86400);
    ToDaysOfCivil(secs / 86400);
    ToDaysOfCivil(0);
    Epoch();
    ToDaysIsMonotone(t, Civil(0));
  }
}
