/**
 * The Gregorian calendar behind the reports page: dates, the next day and
 * next month, their "YYYY-MM-DD" / "YYYY-MM" labels, and the fact the page
 * relies on when it compares such labels as strings: for four-digit years,
 * string order is date order (the full-date form of section 5.6 of RFC 3339).
 */
module Calendar {
  import opened Text

  datatype Date = Date(year: int, month: int, day: int)

  predicate IsLeap(y: int) {
    y % 4 == 0 && (y % 100 != 0 || y % 400 == 0)
  }

  function DaysInMonth(y: int, m: int): (r: int)
    ensures 28 <= r <= 31
  {
    if m == 2 then (if IsLeap(y) then 29 else 28)
    else if m == 4 || m == 6 || m == 9 || m == 11 then 30
    else 31
  }

  function YearLength(y: int): int {
    if IsLeap(y) then 366 else 365
  }

  /** A real calendar date (years from 1 on). */
  predicate ValidDate(d: Date) {
    d.year >= 1 && 1 <= d.month <= 12 && 1 <= d.day <= DaysInMonth(d.year, d.month)
  }

  /** Years written with exactly four digits, as every date on the page is. */
  predicate FourDigit(year: int) {
    1000 <= year <= 9999
  }

  /** Chronological order of dates. */
  predicate Before(a: Date, b: Date) {
    a.year < b.year
    || (a.year == b.year && a.month < b.month)
    || (a.year == b.year && a.month == b.month && a.day < b.day)
  }

  /** `d.setDate(d.getDate() + 1)` */
  function NextDay(d: Date): (r: Date)
    requires ValidDate(d)
    ensures ValidDate(r) && Before(d, r)
  {
    if d.day < DaysInMonth(d.year, d.month) then d.(day := d.day + 1)
    else if d.month < 12 then Date(d.year, d.month + 1, 1)
    else Date(d.year + 1, 1, 1)
  }

  function DaysBeforeYear(y: int): (r: int)
    ensures r >= 0
    decreases y
  {
    if y <= 1 then 0 else DaysBeforeYear(y - 1) + YearLength(y - 1)
  }

  function DaysBeforeMonth(y: int, m: int): int {
    var leapDay := if m > 2 && IsLeap(y) then 1 else 0;
    leapDay +
      (if m <= 1 then 0 else if m == 2 then 31 else if m == 3 then 59 else if m == 4 then 90
       else if m == 5 then 120 else if m == 6 then 151 else if m == 7 then 181 else if m == 8 then 212
       else if m == 9 then 243 else if m == 10 then 273 else if m == 11 then 304 else 334)
  }

  /** The day's number counted from 0001-01-01, which is day 1. */
  function Ordinal(d: Date): int {
    DaysBeforeYear(d.year) + DaysBeforeMonth(d.year, d.month) + d.day
  }

  /** The months of a year follow each other without gaps and fill the year. */
  lemma MonthsFillYear(y: int, m: int)
    requires 1 <= m <= 12
    ensures m < 12 ==> DaysBeforeMonth(y, m + 1) == DaysBeforeMonth(y, m) + DaysInMonth(y, m)
    ensures m == 12 ==> DaysBeforeMonth(y, m) + DaysInMonth(y, m) == YearLength(y)
  {
  }

  /** The next day is the day whose number is one more. */
  lemma NextDayOrdinal(d: Date)
    requires ValidDate(d)
    ensures Ordinal(NextDay(d)) == Ordinal(d) + 1
  {
    MonthsFillYear(d.year, d.month);
  }

  /** A date's number lies within its year's span of numbers. */
  lemma OrdinalInYear(d: Date)
    requires ValidDate(d)
    ensures DaysBeforeYear(d.year) < Ordinal(d) <= DaysBeforeYear(d.year + 1)
  {
    MonthsFillYear(d.year, 12);
    assert DaysBeforeMonth(d.year, d.month) + d.day <= DaysBeforeMonth(d.year, 12) + 31;
  }

  lemma {:induction false} DaysBeforeYearGrows(y1: int, y2: int)
    requires 1 <= y1 <= y2
    ensures DaysBeforeYear(y1) <= DaysBeforeYear(y2)
    decreases y2
  {
    if y1 < y2 {
      DaysBeforeYearGrows(y1, y2 - 1);
    }
  }

  /** Numbering the days keeps their order and tells different days apart. */
  lemma OrdinalOrder(a: Date, b: Date)
    requires ValidDate(a) && ValidDate(b)
    ensures Before(a, b) <==> Ordinal(a) < Ordinal(b)
    ensures a == b <==> Ordinal(a) == Ordinal(b)
  {
    OrdinalInYear(a);
    OrdinalInYear(b);
    if a.year < b.year {
      DaysBeforeYearGrows(a.year + 1, b.year);
    } else if b.year < a.year {
      DaysBeforeYearGrows(b.year + 1, a.year);
    } else if a.month < b.month {
      MonthsFillYear(a.year, a.month);
      assert DaysBeforeMonth(a.year, a.month + 1) <= DaysBeforeMonth(a.year, b.month);
    } else if b.month < a.month {
      MonthsFillYear(a.year, b.month);
      assert DaysBeforeMonth(a.year, b.month + 1) <= DaysBeforeMonth(a.year, a.month);
    }
  }

  /** The day k days after d: the loop's date after k steps. */
  function DayAfter(d: Date, k: nat): (r: Date)
    requires ValidDate(d)
    ensures ValidDate(r) && Ordinal(r) == Ordinal(d) + k
  {
    if k == 0 then d
    else
      var p := DayAfter(d, k - 1);
      NextDayOrdinal(p);
      NextDay(p)
  }

  /** Every date from d on is reached by stepping day by day from d. */
  lemma ReachedByDays(d: Date, e: Date)
    requires ValidDate(d) && ValidDate(e) && !Before(e, d)
    ensures Ordinal(e) - Ordinal(d) >= 0 && DayAfter(d, Ordinal(e) - Ordinal(d)) == e
  {
    OrdinalOrder(d, e);
    var k := Ordinal(e) - Ordinal(d);
    OrdinalOrder(DayAfter(d, k), e);
  }

  // ----- Decimal labels -----

  function Digit(n: int): (c: char)
    requires 0 <= n < 10
    ensures '0' <= c <= '9'
  {
    ('0' as int + n) as char
  }

  /** `String(n)` for a non-negative integer. */
  function Decimal(n: nat): (r: string)
    ensures |r| >= 1
    ensures n < 10 <==> |r| == 1
    decreases n
  {
    if n < 10 then [Digit(n)] else Decimal(n / 10) + [Digit(n % 10)]
  }

  lemma DecimalFour(n: nat)
    requires FourDigit(n)
    ensures |Decimal(n)| == 4
  {
    assert Decimal(n) == Decimal(n / 10) + [Digit(n % 10)];
    assert Decimal(n / 10) == Decimal(n / 100) + [Digit(n / 10 % 10)];
    assert Decimal(n / 100) == Decimal(n / 1000) + [Digit(n / 100 % 10)];
  }

  /** Decimal numerals of the same length compare as strings the way the numbers compare. */
  lemma {:induction false} DecimalOrder(x: nat, y: nat)
    requires |Decimal(x)| == |Decimal(y)|
    ensures Less(Decimal(x), Decimal(y)) <==> x < y
    ensures Decimal(x) == Decimal(y) <==> x == y
    decreases x
  {
    if x < 10 {
      assert y < 10;
    } else {
      assert y >= 10;
      var hx, hy := Decimal(x / 10), Decimal(y / 10);
      DecimalOrder(x / 10, y / 10);
      LessTrichotomy(hx, hy);
      LessConcat(hx, [Digit(x % 10)], hy, [Digit(y % 10)]);
      LessConcat(hy, [Digit(y % 10)], hx, [Digit(x % 10)]);
      LessTrichotomy(Decimal(x), Decimal(y));
      assert x == 10 * (x / 10) + x % 10 && y == 10 * (y / 10) + y % 10;
    }
  }

  /** `String(n).padStart(2, "0")` */
  function Pad2(n: nat): string {
    var s := Decimal(n);
    if |s| < 2 then "0" + s else s
  }

  lemma Pad2Digits(n: nat)
    requires n < 100
    ensures Pad2(n) == [Digit(n / 10), Digit(n % 10)]
  {
    if n >= 10 {
      assert Decimal(n) == Decimal(n / 10) + [Digit(n % 10)];
    }
  }

  /** Two-digit fields compare as strings the way the numbers compare. */
  lemma Pad2Order(x: nat, y: nat)
    requires x < 100 && y < 100
    ensures |Pad2(x)| == 2
    ensures Less(Pad2(x), Pad2(y)) <==> x < y
    ensures Pad2(x) == Pad2(y) <==> x == y
  {
    Pad2Digits(x);
    Pad2Digits(y);
    LessConcat([Digit(x / 10)], [Digit(x % 10)], [Digit(y / 10)], [Digit(y % 10)]);
    LessTrichotomy(Pad2(x), Pad2(y));
    assert x == 10 * (x / 10) + x % 10 && y == 10 * (y / 10) + y % 10;
  }

  /** `${year}-${pad2(month)}-${pad2(day)}` */
  function Format(d: Date): string
    requires ValidDate(d)
  {
    Decimal(d.year) + "-" + Pad2(d.month) + "-" + Pad2(d.day)
  }

  /** For four-digit years, comparing date labels as strings compares the dates. */
  lemma FormatOrder(a: Date, b: Date)
    requires ValidDate(a) && ValidDate(b) && FourDigit(a.year) && FourDigit(b.year)
    ensures Less(Format(a), Format(b)) <==> Before(a, b)
    ensures Format(a) == Format(b) <==> a == b
  {
    DecimalFour(a.year);
    DecimalFour(b.year);
    DecimalOrder(a.year, b.year);
    Pad2Order(a.month, b.month);
    Pad2Order(a.day, b.day);
    FormatLess(a, b);
    FormatLess(b, a);
    LessTrichotomy(Format(a), Format(b));
  }

  /** The strict half of `FormatOrder`, compared field by field. */
  lemma FormatLess(a: Date, b: Date)
    requires ValidDate(a) && ValidDate(b) && FourDigit(a.year) && FourDigit(b.year)
    ensures Less(Format(a), Format(b)) <==> Before(a, b)
  {
    DecimalFour(a.year);
    DecimalFour(b.year);
    DecimalOrder(a.year, b.year);
    Pad2Order(a.month, b.month);
    Pad2Order(a.day, b.day);
    var ya, ma, da := Decimal(a.year), Pad2(a.month), Pad2(a.day);
    var yb, mb, db := Decimal(b.year), Pad2(b.month), Pad2(b.day);
    assert Format(a) == ya + ("-" + (ma + ("-" + da)));
    assert Format(b) == yb + ("-" + (mb + ("-" + db)));
    LessConcat(ya, "-" + (ma + ("-" + da)), yb, "-" + (mb + ("-" + db)));
    LessConcat("-", ma + ("-" + da), "-", mb + ("-" + db));
    LessConcat(ma, "-" + da, mb, "-" + db);
    LessConcat("-", da, "-", db);
  }

  // ----- Months -----

  datatype YearMonth = YearMonth(year: int, month: int)

  predicate ValidMonth(m: YearMonth) {
    m.year >= 1 && 1 <= m.month <= 12
  }

  /** The month's number: consecutive months have consecutive numbers. */
  function MonthIndex(m: YearMonth): int {
    m.year * 12 + m.month - 1
  }

  /** `cur.setMonth(cur.getMonth() + 1)` on the first of a month: December rolls over to January. */
  function NextMonth(m: YearMonth): (r: YearMonth)
    requires ValidMonth(m)
    ensures ValidMonth(r) && MonthIndex(r) == MonthIndex(m) + 1
  {
    if m.month == 12 then YearMonth(m.year + 1, 1) else YearMonth(m.year, m.month + 1)
  }

  /** The month k months after m. */
  function MonthAfter(m: YearMonth, k: nat): (r: YearMonth)
    requires ValidMonth(m)
    ensures ValidMonth(r) && MonthIndex(r) == MonthIndex(m) + k
  {
    if k == 0 then m else NextMonth(MonthAfter(m, k - 1))
  }

  /** Month numbers follow the order of (year, month). */
  lemma MonthIndexOrder(a: YearMonth, b: YearMonth)
    requires ValidMonth(a) && ValidMonth(b)
    ensures MonthIndex(a) < MonthIndex(b) <==> a.year < b.year || (a.year == b.year && a.month < b.month)
    ensures MonthIndex(a) == MonthIndex(b) <==> a == b
  {
    if a.year < b.year {
      assert b.year * 12 - a.year * 12 == (b.year - a.year) * 12 >= 12;
    } else if b.year < a.year {
      assert a.year * 12 - b.year * 12 == (a.year - b.year) * 12 >= 12;
    }
  }

  /** `${year}-${pad2(month)}` */
  function MonthLabel(m: YearMonth): string
    requires ValidMonth(m)
  {
    Decimal(m.year) + "-" + Pad2(m.month)
  }

  /** For four-digit years, comparing month labels as strings compares the months. */
  lemma MonthLabelOrder(a: YearMonth, b: YearMonth)
    requires ValidMonth(a) && ValidMonth(b) && FourDigit(a.year) && FourDigit(b.year)
    ensures Less(MonthLabel(a), MonthLabel(b)) <==> MonthIndex(a) < MonthIndex(b)
    ensures MonthLabel(a) == MonthLabel(b) <==> a == b
  {
    DecimalFour(a.year);
    DecimalFour(b.year);
    DecimalOrder(a.year, b.year);
    DecimalOrder(b.year, a.year);
    Pad2Order(a.month, b.month);
    Pad2Order(b.month, a.month);
    var ya, ma, yb, mb := Decimal(a.year), Pad2(a.month), Decimal(b.year), Pad2(b.month);
    assert MonthLabel(a) == ya + ("-" + ma) && MonthLabel(b) == yb + ("-" + mb);
    LessConcat(ya, "-" + ma, yb, "-" + mb);
    LessConcat(yb, "-" + mb, ya, "-" + ma);
    LessConcat("-", ma, "-", mb);
    LessConcat("-", mb, "-", ma);
    LessTrichotomy(MonthLabel(a), MonthLabel(b));
    MonthIndexOrder(a, b);
  }

  /** The first seven characters of a date label are its month's label. */
  lemma MonthOfDate(d: Date)
    requires ValidDate(d) && FourDigit(d.year)
    ensures Prefix(Format(d), 7) == MonthLabel(YearMonth(d.year, d.month))
  {
    DecimalFour(d.year);
    Pad2Order(d.month, d.day);
    assert Format(d) == MonthLabel(YearMonth(d.year, d.month)) + ("-" + Pad2(d.day));
  }
}
