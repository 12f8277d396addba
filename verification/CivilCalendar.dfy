// The proleptic Gregorian calendar and the gateway's day-count arithmetic, which is
// written out several times in different spellings.
module CivilCalendar {
  datatype Date = Date(year: int, month: int, day: int)

  // ---- The calendar itself ----------------------------------------------------

  predicate IsLeap(year: int) {
    year % 4 == 0 && (year % 100 != 0 || year % 400 == 0)
  }

  function DaysInMonth(year: int, month: int): int {
    if month == 2 then (if IsLeap(year) then 29 else 28)
    else if month == 4 || month == 6 || month == 9 || month == 11 then 30
    else 31
  }

  predicate IsDate(d: Date) {
    1 <= d.month <= 12 && 1 <= d.day <= DaysInMonth(d.year, d.month)
  }

  function NextDay(d: Date): Date {
    if d.day < DaysInMonth(d.year, d.month) then Date(d.year, d.month, d.day + 1)
    else if d.month < 12 then Date(d.year, d.month + 1, 1)
    else Date(d.year + 1, 1, 1)
  }

  predicate Before(a: Date, b: Date) {
    a.year < b.year || (a.year == b.year && (a.month < b.month || (a.month == b.month && a.day < b.day)))
  }

  // ---- The gateway's arithmetic -----------------------------------------------

  // Division as Rust's `/` does it: toward zero.
  function TruncDiv(a: int, b: int): int
    requires b > 0
  {
    if a >= 0 then a / b else -((-a) / b)
  }

  // budgets.rs
  function DaysFromCivil(year: int, month: int, day: int): int {
    var y := if month <= 2 then year - 1 else year;
    var era := TruncDiv(if y >= 0 then y else y - 399, 400);
    var yearOfEra := y - era * 400;
    var dayOfYear := TruncDiv(153 * (month + if month > 2 then -3 else 9) + 2, 5) + day - 1;
    var dayOfEra := yearOfEra * 365 + TruncDiv(yearOfEra, 4) - TruncDiv(yearOfEra, 100) + dayOfYear;
    era * 146_097 + dayOfEra - 719_468
  }

  // credentials.rs
  function DaysFromCivilCredentials(year: int, month: int, day: int): int {
    var y := if month <= 2 then year - 1 else year;
    var era := TruncDiv(if y >= 0 then y else y - 399, 400);
    var yearOfEra := y - era * 400;
    var monthAdjusted := if month > 2 then month - 3 else month + 9;
    var dayOfYear := TruncDiv(153 * monthAdjusted + 2, 5) + day - 1;
    var dayOfEra := yearOfEra * 365 + TruncDiv(yearOfEra, 4) - TruncDiv(yearOfEra, 100) + dayOfYear;
    era * 146_097 + dayOfEra - 719_468
  }

  // repos.rs: Euclidean division, which `/` and `%` are here.
  function DaysFromCivilRepos(year: int, month: int, day: int): int {
    var y := if month <= 2 then year - 1 else year;
    var era := y / 400;
    var yearOfEra := y % 400;
    var monthPrime := (month + 9) % 12;
    var dayOfYear := (153 * monthPrime + 2) / 5 + day - 1;
    var dayOfEra := yearOfEra * 365 + yearOfEra / 4 - yearOfEra / 100 + dayOfYear;
    era * 146_097 + dayOfEra - 719_468
  }

  function YearOfEra(dayOfEra: int): int {
    TruncDiv(dayOfEra - TruncDiv(dayOfEra, 1460) + TruncDiv(dayOfEra, 36_524) - TruncDiv(dayOfEra, 146_096), 365)
  }

  // budgets.rs
  function CivilFromDays(days: int): Date {
    var shifted := days + 719_468;
    var era := TruncDiv(if shifted >= 0 then shifted else shifted - 146_096, 146_097);
    var dayOfEra := shifted - era * 146_097;
    var yearOfEra := YearOfEra(dayOfEra);
    var year := yearOfEra + era * 400;
    var dayOfYear := dayOfEra - (365 * yearOfEra + TruncDiv(yearOfEra, 4) - TruncDiv(yearOfEra, 100));
    var monthPrime := TruncDiv(5 * dayOfYear + 2, 153);
    var day := dayOfYear - TruncDiv(153 * monthPrime + 2, 5) + 1;
    var month := monthPrime + if monthPrime < 10 then 3 else -9;
    Date(year + if month <= 2 then 1 else 0, month, day)
  }

  // grok_cli.rs
  function CivilFromDaysGrok(days: int): Date {
    var z := days + 719_468;
    var era := z / 146_097;
    var dayOfEra := z % 146_097;
    var yearOfEra := YearOfEra(dayOfEra);
    var year := yearOfEra + era * 400;
    var dayOfYear := dayOfEra - (365 * yearOfEra + TruncDiv(yearOfEra, 4) - TruncDiv(yearOfEra, 100));
    var monthPrime := TruncDiv(5 * dayOfYear + 2, 153);
    var day := dayOfYear - TruncDiv(153 * monthPrime + 2, 5) + 1;
    var month := if monthPrime < 10 then monthPrime + 3 else monthPrime - 9;
    Date(if month <= 2 then year + 1 else year, month, day)
  }

  // ---- The copies agree -------------------------------------------------------

  lemma EraSpellings(x: int, n: int)
    requires n == 400 || n == 146_097
    ensures TruncDiv(if x >= 0 then x else x - (n - 1), n) == x / n
    ensures x - (x / n) * n == x % n
  {
  }

  lemma CivilCopiesAgree(days: int)
    ensures CivilFromDays(days) == CivilFromDaysGrok(days)
  {
    EraSpellings(days + 719_468, 146_097);
  }

  lemma CredentialsCopyAgrees(year: int, month: int, day: int)
    ensures DaysFromCivilCredentials(year, month, day) == DaysFromCivil(year, month, day)
  {
  }

  // Where the third copy differs, it is by its reading of the month.
  lemma ReposCopyDiffers(year: int, month: int, day: int, m: int)
    requires m == if month > 2 then month - 3 else month + 9
    ensures DaysFromCivilRepos(year, month, day) - DaysFromCivil(year, month, day)
         == (153 * (m % 12) + 2) / 5 - TruncDiv(153 * m + 2, 5)
  {
    EraSpellings(if month <= 2 then year - 1 else year, 400);
    assert (month + 9) % 12 == m % 12;
  }

  // The copy that takes months modulo twelve agrees with the others exactly on this
  // range of months, the twelve real ones among them.
  lemma DayCountCopiesAgree(year: int, month: int, day: int)
    ensures DaysFromCivilCredentials(year, month, day) == DaysFromCivil(year, month, day)
    ensures DaysFromCivilRepos(year, month, day) == DaysFromCivil(year, month, day) <==> -9 <= month <= 14
  {
    var m := if month > 2 then month - 3 else month + 9;
    CredentialsCopyAgrees(year, month, day);
    ReposCopyDiffers(year, month, day, m);
    MonthSpellings(m);
  }

  lemma MonthSpellings(m: int)
    ensures TruncDiv(153 * m + 2, 5) == (153 * (m % 12) + 2) / 5 <==> 0 <= m < 12
  {
    if m < 0 {
      assert 153 * m + 2 <= -151;
    } else if m >= 12 {
      assert (153 * m + 2) / 5 >= 367;
    }
  }

  // ---- Counting days in closed form -------------------------------------------

  // Years are counted from March, so the leap day comes last.
  function MarchYear(d: Date): int {
    if d.month <= 2 then d.year - 1 else d.year
  }

  function MarchMonth(d: Date): int {
    if d.month > 2 then d.month - 3 else d.month + 9
  }

  // Days before March of year `y`.
  function YearStart(y: int): int {
    365 * y + y / 4 - y / 100 + y / 400
  }

  function MonthStart(m: int): int {
    (153 * m + 2) / 5
  }

  function DayNumber(d: Date): int {
    YearStart(MarchYear(d)) + MonthStart(MarchMonth(d)) + d.day - 1 - 719_468
  }

  lemma DayCountClosed(d: Date)
    requires 1 <= d.month <= 12
    ensures DaysFromCivil(d.year, d.month, d.day) == DayNumber(d)
  {
    var y := MarchYear(d);
    EraSpellings(y, 400);
    YearStartByEra(y / 400, y % 400);
  }

  // Whole eras drop out of the divisions by 4, 100 and 400.
  lemma EraDivisions(era: int, y: int)
    ensures (400 * era + y) / 4 == 100 * era + y / 4 && (400 * era + y) % 4 == y % 4
    ensures (400 * era + y) / 100 == 4 * era + y / 100 && (400 * era + y) % 100 == y % 100
    ensures (400 * era + y) / 400 == era + y / 400 && (400 * era + y) % 400 == y % 400
  {
    EraDivision4(era, y);
    EraDivision100(era, y);
    EraDivision400(era, y);
  }

  lemma EraDivision4(era: int, y: int)
    ensures (400 * era + y) / 4 == 100 * era + y / 4 && (400 * era + y) % 4 == y % 4
  {
  }

  lemma EraDivision100(era: int, y: int)
    ensures (400 * era + y) / 100 == 4 * era + y / 100 && (400 * era + y) % 100 == y % 100
  {
  }

  lemma EraDivision400(era: int, y: int)
    ensures (400 * era + y) / 400 == era + y / 400 && (400 * era + y) % 400 == y % 400
  {
  }

  lemma YearStartByEra(era: int, yearOfEra: int)
    requires 0 <= yearOfEra < 400
    ensures YearStart(400 * era + yearOfEra) == 146_097 * era + 365 * yearOfEra + yearOfEra / 4 - yearOfEra / 100
  {
    EraDivisions(era, yearOfEra);
  }

  lemma Quarter(n: int)
    ensures n / 4 - (n - 1) / 4 == if n % 4 == 0 then 1 else 0
  {
  }

  lemma Century(n: int)
    ensures n / 100 - (n - 1) / 100 == if n % 100 == 0 then 1 else 0
  {
    var (q, r) := (n / 100, n % 100);
    if r == 0 {
      assert n - 1 == 100 * (q - 1) + 99;
    } else {
      assert n - 1 == 100 * q + (r - 1);
    }
  }

  lemma Era(n: int)
    ensures n / 400 - (n - 1) / 400 == if n % 400 == 0 then 1 else 0
  {
    var (q, r) := (n / 400, n % 400);
    if r == 0 {
      assert n - 1 == 400 * (q - 1) + 399;
    } else {
      assert n - 1 == 400 * q + (r - 1);
    }
  }

  lemma CenturiesAreQuarters(n: int)
    ensures n % 100 == 0 ==> n % 4 == 0
    ensures n % 400 == 0 ==> n % 100 == 0
  {
    if n % 100 == 0 {
      assert n == 4 * (25 * (n / 100));
    }
    if n % 400 == 0 {
      assert n == 100 * (4 * (n / 400));
    }
  }

  lemma YearLength(y: int)
    ensures YearStart(y + 1) - YearStart(y) == if IsLeap(y + 1) then 366 else 365
  {
    Quarter(y + 1);
    Century(y + 1);
    Era(y + 1);
    CenturiesAreQuarters(y + 1);
  }

  lemma MonthLengths(d: Date)
    requires IsDate(d) && MarchMonth(d) < 11
    ensures MonthStart(MarchMonth(d) + 1) - MonthStart(MarchMonth(d)) == DaysInMonth(d.year, d.month)
  {
  }

  lemma NextDayCountsOne(d: Date)
    requires IsDate(d)
    ensures IsDate(NextDay(d)) && DayNumber(NextDay(d)) == DayNumber(d) + 1
  {
    if d.month == 2 {
      YearLength(d.year - 1);
    } else {
      MonthLengths(d);
    }
  }

  // The day count is the calendar's own: it starts at the epoch and every next day
  // counts one more.
  lemma DayCountFollowsCalendar(d: Date, next: Date)
    requires IsDate(d) && next == NextDay(d)
    ensures IsDate(next)
    ensures DaysFromCivil(next.year, next.month, next.day) == DaysFromCivil(d.year, d.month, d.day) + 1
    ensures DaysFromCivil(1970, 1, 1) == 0
  {
    NextDayCountsOne(d);
    DayCountClosed(d);
    DayCountClosed(next);
    EpochIsDayZero();
  }

  lemma EpochIsDayZero()
    ensures DaysFromCivil(1970, 1, 1) == 0
  {
    DayCountClosed(Date(1970, 1, 1));
  }

  // ---- Order and inverses -----------------------------------------------------

  // A date lies inside its March year, before the next one starts.
  lemma DateWithinYear(d: Date)
    requires IsDate(d)
    ensures 0 <= MonthStart(MarchMonth(d)) + d.day - 1 < YearStart(MarchYear(d) + 1) - YearStart(MarchYear(d))
  {
    YearLength(MarchYear(d));
  }

  lemma {:induction false} YearStartsIncrease(y: int, z: int)
    requires y <= z
    ensures YearStart(y) <= YearStart(z)
    decreases z - y
  {
    if y < z {
      YearLength(y);
      YearStartsIncrease(y + 1, z);
    }
  }

  lemma MonthsIncrease(year: int, a: Date, b: Date)
    requires IsDate(a) && IsDate(b) && MarchYear(a) == MarchYear(b) && MarchMonth(a) < MarchMonth(b)
    ensures MonthStart(MarchMonth(a)) + a.day - 1 < MonthStart(MarchMonth(b))
  {
  }

  lemma DayCountOrdersDates(a: Date, b: Date)
    requires IsDate(a) && IsDate(b)
    ensures Before(a, b) <==> DaysFromCivil(a.year, a.month, a.day) < DaysFromCivil(b.year, b.month, b.day)
  {
    if Before(a, b) {
      DayCountIncreases(a, b);
    } else if a != b {
      DayCountIncreases(b, a);
    }
  }

  lemma DayCountIncreases(a: Date, b: Date)
    requires IsDate(a) && IsDate(b) && Before(a, b)
    ensures DaysFromCivil(a.year, a.month, a.day) < DaysFromCivil(b.year, b.month, b.day)
  {
    DayCountClosed(a);
    DayCountClosed(b);
    if MarchYear(a) < MarchYear(b) {
      DateWithinYear(a);
      DateWithinYear(b);
      YearStartsIncrease(MarchYear(a) + 1, MarchYear(b));
    } else if MarchMonth(a) < MarchMonth(b) {
      MonthsIncrease(MarchYear(a), a, b);
    }
  }

  // A day of the era as centuries, four-year groups and days of the group. Only the
  // last century of an era ends in a leap day.
  predicate EraParts(dayOfEra: int, c: int, q: int, s: int) {
    && dayOfEra == 36_524 * c + 1461 * q + s
    && 0 <= c <= 3 && 0 <= q <= 24 && 0 <= s <= 1460
    && (q == 24 && c < 3 ==> s < 1460)
  }

  lemma SplitEra(dayOfEra: int) returns (c: int, q: int, s: int)
    requires 0 <= dayOfEra < 146_097
    ensures EraParts(dayOfEra, c, q, s)
  {
    c := if dayOfEra == 146_096 then 3 else dayOfEra / 36_524;
    var r := dayOfEra - 36_524 * c;
    q := r / 1461;
    s := r - 1461 * q;
  }

  // The leap days before the day, as the arithmetic counts them.
  lemma EraQuotients(dayOfEra: int, c: int, q: int, s: int)
    requires EraParts(dayOfEra, c, q, s)
    ensures dayOfEra / 1460 == 25 * c + q + if 24 * c + q + s >= 1460 then 1 else 0
    ensures dayOfEra / 36_524 - dayOfEra / 146_096 == c
  {
    assert dayOfEra == 1460 * (25 * c + q) + (24 * c + q + s);
  }

  lemma YearOfEraIs(dayOfEra: int, c: int, q: int, s: int)
    requires EraParts(dayOfEra, c, q, s)
    ensures YearOfEra(dayOfEra) == 100 * c + 4 * q + if s < 1460 then s / 365 else 3
  {
    var e := if 24 * c + q + s >= 1460 then 1 else 0;
    EraQuotients(dayOfEra, c, q, s);
    assert dayOfEra - dayOfEra / 1460 + c == 365 * (100 * c + 4 * q) + (s - e);
  }

  // A year of the era as centuries, four-year groups and years of the group.
  lemma YearParts(c: int, q: int, k: int)
    requires 0 <= c <= 3 && 0 <= q <= 24 && 0 <= k <= 3
    ensures var y := 100 * c + 4 * q + k; 0 <= y < 400 && y / 4 == 25 * c + q && y / 100 == c
    ensures IsLeap(100 * c + 4 * q + 4) <==> q < 24 || c == 3
  {
    var n := 100 * c + 4 * q + 4;
    assert n == 4 * (25 * c + q + 1);
    if q < 24 {
      assert n % 100 == 4 * q + 4;
    } else {
      assert n == 100 * (c + 1);
    }
  }

  // The year the arithmetic finds holds the day, and its 366th day exists.
  lemma YearHoldsDay(dayOfEra: int)
    requires 0 <= dayOfEra < 146_097
    ensures var y := YearOfEra(dayOfEra); var dayOfYear := dayOfEra - (365 * y + y / 4 - y / 100);
            0 <= y < 400 && 0 <= dayOfYear <= 365 && (dayOfYear == 365 ==> IsLeap(y + 1))
  {
    var c, q, s := SplitEra(dayOfEra);
    YearOfEraIs(dayOfEra, c, q, s);
    YearHoldsPart(dayOfEra, c, q, s, YearOfEra(dayOfEra));
  }

  lemma YearHoldsPart(dayOfEra: int, c: int, q: int, s: int, y: int)
    requires EraParts(dayOfEra, c, q, s) && y == 100 * c + 4 * q + if s < 1460 then s / 365 else 3
    ensures var dayOfYear := dayOfEra - (365 * y + y / 4 - y / 100);
            0 <= y < 400 && 0 <= dayOfYear <= 365 && (dayOfYear == 365 ==> IsLeap(y + 1))
  {
    var k := if s < 1460 then s / 365 else 3;
    YearParts(c, q, k);
    assert dayOfEra - (365 * y + y / 4 - y / 100) == s - 365 * k;
    if s == 1460 {
      assert y + 1 == 100 * c + 4 * q + 4;
    }
  }

  lemma MonthOfDay(dayOfYear: int)
    requires 0 <= dayOfYear <= 365
    ensures var m := (5 * dayOfYear + 2) / 153;
            && 0 <= m <= 11
            && MonthStart(m) <= dayOfYear
            && (m < 11 ==> dayOfYear < MonthStart(m + 1))
  {
  }

  // The parts the arithmetic splits a day count into.
  lemma CivilParts(days: int) returns (era: int, y: int, dayOfYear: int, m: int)
    ensures 0 <= y < 400 && 0 <= dayOfYear <= 365 && 0 <= m <= 11
    ensures days + 719_468 == 146_097 * era + 365 * y + y / 4 - y / 100 + dayOfYear
    ensures dayOfYear == 365 ==> IsLeap(y + 1)
    ensures MonthStart(m) <= dayOfYear && (m < 11 ==> dayOfYear < MonthStart(m + 1))
    ensures var d := CivilFromDaysGrok(days);
            d.month == (if m < 10 then m + 3 else m - 9) && d.day == dayOfYear - MonthStart(m) + 1
            && d.year == 400 * era + y + (if m < 10 then 0 else 1)
  {
    var shifted := days + 719_468;
    era := shifted / 146_097;
    YearHoldsDay(shifted % 146_097);
    y := YearOfEra(shifted % 146_097);
    dayOfYear := shifted % 146_097 - (365 * y + y / 4 - y / 100);
    MonthOfDay(dayOfYear);
    m := (5 * dayOfYear + 2) / 153;
  }

  lemma PartsAreDate(d: Date, era: int, y: int, dayOfYear: int, m: int)
    requires 0 <= y < 400 && 0 <= dayOfYear <= 365 && 0 <= m <= 11
    requires dayOfYear == 365 ==> IsLeap(y + 1)
    requires MonthStart(m) <= dayOfYear && (m < 11 ==> dayOfYear < MonthStart(m + 1))
    requires d.month == (if m < 10 then m + 3 else m - 9) && d.day == dayOfYear - MonthStart(m) + 1
    requires d.year == 400 * era + y + (if m < 10 then 0 else 1)
    ensures IsDate(d)
    ensures DayNumber(d) == 146_097 * era + 365 * y + y / 4 - y / 100 + dayOfYear - 719_468
  {
    YearStartByEra(era, y);
    if m == 11 {
      LeapByEra(era, y + 1);
      assert 400 * era + (y + 1) == d.year;
    } else {
      var e := d.(day := 1);
      MonthLengths(e);
    }
  }

  lemma CivilIsDate(days: int)
    ensures var d := CivilFromDays(days);
            IsDate(d) && DaysFromCivil(d.year, d.month, d.day) == days
  {
    var era, y, dayOfYear, m := CivilParts(days);
    CivilCopiesAgree(days);
    PartsAreDate(CivilFromDays(days), era, y, dayOfYear, m);
    DayCountClosed(CivilFromDays(days));
  }

  lemma LeapByEra(era: int, y: int)
    ensures IsLeap(400 * era + y) <==> IsLeap(y)
  {
    EraDivisions(era, y);
  }

  // Every day has exactly one date and every date one day, each found by the other's
  // arithmetic.
  lemma CivilAndDaysAreInverse(days: int, d: Date)
    ensures IsDate(CivilFromDays(days))
    ensures DaysFromCivil(CivilFromDays(days).year, CivilFromDays(days).month, CivilFromDays(days).day) == days
    ensures IsDate(d) ==> CivilFromDays(DaysFromCivil(d.year, d.month, d.day)) == d
  {
    CivilIsDate(days);
    if IsDate(d) {
      var n := DaysFromCivil(d.year, d.month, d.day);
      CivilIsDate(n);
      DayCountOrdersDates(d, CivilFromDays(n));
      DayCountOrdersDates(CivilFromDays(n), d);
    }
  }

  lemma CountHasDate(n: int, d: Date)
    requires IsDate(d) && n == DayNumber(d)
    ensures CivilFromDays(n) == d
  {
    DayCountClosed(d);
    CivilAndDaysAreInverse(n, d);
  }
}
