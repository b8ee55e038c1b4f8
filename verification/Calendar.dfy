// Calendar arithmetic in Asia/Ho_Chi_Minh, a fixed seven hours ahead of UTC: the dates and
// week boundaries of internal/leaderboard/keys.go, the date strings the workers put into
// Redis keys, and the parsing behind internal/streak/streak.go. Instants are seconds since
// the epoch; days are numbered from 1970-01-01, and dates run to 9999-12-31, the last one
// with a four-digit year (full-date in section 5.6 of RFC 3339).

module Calendar {

  const DAY := 86_400
  const WEEK := 7 * DAY
  const HCM_OFFSET := 7 * 3600
  const LAST_DAY := 2_932_896

  datatype Date = Date(y: nat, m: nat, d: nat)

  predicate IsLeap(y: nat) {
    y % 4 == 0 && (y % 100 != 0 || y % 400 == 0)
  }

  function DaysIn(y: nat, m: nat): nat
    requires 1 <= m <= 12
  {
    if m == 2 then (if IsLeap(y) then 29 else 28)
    else if m == 4 || m == 6 || m == 9 || m == 11 then 30
    else 31
  }

  predicate Valid(t: Date) {
    1 <= t.m <= 12 && 1 <= t.d <= DaysIn(t.y, t.m)
  }

  /** The calendar itself: the date after a date. */
  function Tomorrow(t: Date): Date
    requires Valid(t)
  {
    if t.d < DaysIn(t.y, t.m) then Date(t.y, t.m, t.d + 1)
    else if t.m < 12 then Date(t.y, t.m + 1, 1)
    else Date(t.y + 1, 1, 1)
  }

  /** Days before the first of the month m in a year. */
  function DaysBeforeMonth(y: nat, m: nat): nat
    requires 1 <= m <= 12
  {
    var common := [0, 31, 59, 90, 120, 151, 181, 212, 243, 273, 304, 334];
    common[m - 1] + if m > 2 && IsLeap(y) then 1 else 0
  }

  /** Days before the first of January of the year y, counted from the year 0. */
  function DaysBeforeYear(y: nat): nat {
    if y == 0 then 0 else 365 * y + (y - 1) / 4 - (y - 1) / 100 + (y - 1) / 400 + 1
  }

  /** The day number of a date, as time.Date computes it: by a formula, with no calendar
      walk. It also accepts a day of the month that is out of range, by carrying over. */
  function DayNumber(y: nat, m: nat, d: int): int
    requires 1 <= m <= 12
  {
    DaysBeforeYear(y) + DaysBeforeMonth(y, m) + d - 1 - 719_528
  }

  function NumberOf(t: Date): int
    requires Valid(t)
  {
    DayNumber(t.y, t.m, t.d)
  }

  /** The date of a day number, by walking the calendar from the epoch. */
  function DateOf(n: nat): (t: Date)
    ensures Valid(t)
  {
    if n == 0 then Date(1970, 1, 1) else Tomorrow(DateOf(n - 1))
  }

  lemma YearLength(y: nat)
    ensures DaysBeforeYear(y + 1) == DaysBeforeYear(y) + if IsLeap(y) then 366 else 365
  {
    if y > 0 {
      DivStep(y, 4);
      DivStep(y, 100);
      DivStep(y, 400);
      LeapSplit(y);
    }
  }

  /** y / k exceeds (y - 1) / k by one exactly at the multiples of k. */
  lemma DivStep(y: nat, k: nat)
    requires y > 0 && k > 0
    ensures y / k == (y - 1) / k + if y % k == 0 then 1 else 0
  {
    var q, r := (y - 1) / k, (y - 1) % k;
    assert y == q * k + (r + 1);
    if r + 1 == k {
      assert y == (q + 1) * k + 0;
      DivUnique(y, k, q + 1, 0);
    } else {
      DivUnique(y, k, q, r + 1);
    }
  }

  lemma DivUnique(y: int, k: nat, q: int, r: nat)
    requires k > 0 && r < k && y == q * k + r
    ensures y / k == q && y % k == r
  {
    var a, b := y / k, y % k;
    assert y == a * k + b;
    if a < q { MulMonotone(a + 1, q, k); }
    if q < a { MulMonotone(q + 1, a, k); }
  }

  lemma MulMonotone(a: int, b: int, k: nat)
    requires a <= b
    ensures a * k <= b * k
  {
  }

  lemma LeapSplit(y: nat)
    ensures y % 100 == 0 ==> y % 4 == 0
    ensures y % 400 == 0 ==> y % 100 == 0
  {
    if y % 100 == 0 { DivUnique(y, 4, 25 * (y / 100), 0); }
    if y % 400 == 0 { DivUnique(y, 100, 4 * (y / 400), 0); }
  }

  /** The formula and the walk agree on what the next day is. */
  lemma TomorrowIsNext(t: Date)
    requires Valid(t)
    ensures Valid(Tomorrow(t)) && NumberOf(Tomorrow(t)) == NumberOf(t) + 1
  {
    YearLength(t.y);
  }

  /** From day numbers to dates and back. */
  lemma {:induction false} NumberOfDate(n: nat)
    ensures NumberOf(DateOf(n)) == n
  {
    if n > 0 {
      NumberOfDate(n - 1);
      TomorrowIsNext(DateOf(n - 1));
    }
  }

  lemma {:induction false} YearGrows(y: nat, z: nat)
    requires y < z
    ensures DaysBeforeYear(y) + (if IsLeap(y) then 366 else 365) <= DaysBeforeYear(z)
    decreases z
  {
    YearLength(y);
    if y + 1 < z {
      YearGrows(y, z - 1);
      YearLength(z - 1);
    }
  }

  lemma DayOfYear(t: Date)
    requires Valid(t)
    ensures 0 <= DaysBeforeMonth(t.y, t.m) + t.d - 1 < if IsLeap(t.y) then 366 else 365
  {
  }

  /** Different dates have different numbers. */
  lemma NumberIsInjective(a: Date, b: Date)
    requires Valid(a) && Valid(b) && NumberOf(a) == NumberOf(b)
    ensures a == b
  {
    DayOfYear(a);
    DayOfYear(b);
    if a.y < b.y { YearGrows(a.y, b.y); }
    if b.y < a.y { YearGrows(b.y, a.y); }
  }

  /** From dates to day numbers and back. */
  lemma DateOfNumber(t: Date)
    requires Valid(t) && 0 <= NumberOf(t)
    ensures DateOf(NumberOf(t)) == t
  {
    NumberOfDate(NumberOf(t));
    NumberIsInjective(DateOf(NumberOf(t)), t);
  }

  /** A date comes before the first of January of a year exactly when its year does. */
  lemma YearOrder(t: Date, y: nat)
    requires Valid(t)
    ensures t.y < y <==> NumberOf(t) < DaysBeforeYear(y) - 719_528
  {
    DayOfYear(t);
    if t.y < y {
      YearGrows(t.y, y);
    } else if y < t.y {
      YearGrows(y, t.y);
    }
  }

  lemma YearStarts()
    ensures DaysBeforeYear(1970) == 719_528 && DaysBeforeYear(10_000) == 719_528 + LAST_DAY + 1
  {
  }

  /** Four-digit years are exactly the days up to 9999-12-31. */
  lemma FourDigitYears(n: nat)
    ensures n <= LAST_DAY <==> DateOf(n).y <= 9999
    ensures 1970 <= DateOf(n).y
  {
    var t := DateOf(n);
    NumberOfDate(n);
    YearStarts();
    YearOrder(t, 10_000);
    YearOrder(t, 1970);
  }

  // ----- printing and parsing -----

  function Digit(n: nat): char
    requires n < 10
  {
    "0123456789"[n]
  }

  function Two(n: nat): string
    requires n < 100
  {
    [Digit(n / 10), Digit(n % 10)]
  }

  /** Format("2006-01-02"). */
  function Iso(t: Date): (s: string)
    requires Valid(t) && t.y <= 9999
    ensures |s| == 10
  {
    Two(t.y / 100) + Two(t.y % 100) + "-" + Two(t.m) + "-" + Two(t.d)
  }

  predicate IsDigit(c: char) { '0' <= c <= '9' }

  function Value(c: char): nat
    requires IsDigit(c)
  {
    c as nat - '0' as nat
  }

  /** The number two digits stand for. */
  function Pair(a: char, b: char): (n: nat)
    requires IsDigit(a) && IsDigit(b)
    ensures n < 100
  {
    10 * Value(a) + Value(b)
  }

  datatype Parsed = Failed | Parsed(date: Date)

  /** time.Parse("2006-01-02", s): fixed-width fields, each checked for its range. */
  function Parse(s: string): Parsed {
    if |s| != 10 || s[4] != '-' || s[7] != '-' then Failed
    else if !(IsDigit(s[0]) && IsDigit(s[1]) && IsDigit(s[2]) && IsDigit(s[3])
              && IsDigit(s[5]) && IsDigit(s[6]) && IsDigit(s[8]) && IsDigit(s[9])) then Failed
    else
      var t := Date(100 * Pair(s[0], s[1]) + Pair(s[2], s[3]), Pair(s[5], s[6]), Pair(s[8], s[9]));
      if Valid(t) then Parsed(t) else Failed
  }

  lemma DigitValue(n: nat)
    requires n < 10
    ensures IsDigit(Digit(n)) && Value(Digit(n)) == n
  {
  }

  lemma TwoValue(n: nat)
    requires n < 100
    ensures IsDigit(Two(n)[0]) && IsDigit(Two(n)[1])
    ensures Pair(Two(n)[0], Two(n)[1]) == n
  {
    DigitValue(n / 10);
    DigitValue(n % 10);
  }

  lemma ValueTwo(a: char, b: char)
    requires IsDigit(a) && IsDigit(b)
    ensures Two(Pair(a, b)) == [a, b]
  {
    Decimals(Value(a), Value(b));
    assert Digit(Value(a)) == a && Digit(Value(b)) == b;
  }

  /** The first character of each field of a printed date. */
  lemma Fields(t: Date)
    requires Valid(t) && t.y <= 9999
    ensures var s := Iso(t);
            && s[4] == s[7] == '-'
            && [s[0], s[1]] == Two(t.y / 100) && [s[2], s[3]] == Two(t.y % 100)
            && [s[5], s[6]] == Two(t.m) && [s[8], s[9]] == Two(t.d)
  {
  }

  /** Printing loses nothing. */
  lemma ParsePrinted(t: Date)
    requires Valid(t) && t.y <= 9999
    ensures Parse(Iso(t)) == Parsed(t)
  {
    var s := Iso(t);
    Fields(t);
    ReadBack(s[0], s[1], t.y / 100);
    ReadBack(s[2], s[3], t.y % 100);
    ReadBack(s[5], s[6], t.m);
    ReadBack(s[8], s[9], t.d);
  }

  lemma ReadBack(a: char, b: char, n: nat)
    requires n < 100 && [a, b] == Two(n)
    ensures IsDigit(a) && IsDigit(b) && Pair(a, b) == n
  {
    TwoValue(n);
    assert [a, b][0] == a && [a, b][1] == b;
  }

  /** And what parses is what would be printed. */
  lemma PrintParsed(s: string)
    requires Parse(s).Parsed?
    ensures Parse(s).date.y <= 9999 && Iso(Parse(s).date) == s
  {
    var t := Parse(s).date;
    ValueTwo(s[0], s[1]);
    ValueTwo(s[2], s[3]);
    ValueTwo(s[5], s[6]);
    ValueTwo(s[8], s[9]);
    var hi, lo := Pair(s[0], s[1]), Pair(s[2], s[3]);
    DivUnique(t.y, 100, hi, lo);
    Assemble(t, hi, lo, s);
  }

  lemma Assemble(t: Date, hi: nat, lo: nat, s: string)
    requires Valid(t) && t.y <= 9999 && t.y / 100 == hi && t.y % 100 == lo && |s| == 10 && s[4] == s[7] == '-'
    requires hi < 100 && Two(hi) == [s[0], s[1]] && Two(lo) == [s[2], s[3]]
    requires Two(t.m) == [s[5], s[6]] && Two(t.d) == [s[8], s[9]]
    ensures Iso(t) == s
  {
  }

  lemma Decimals(a: nat, b: nat)
    requires a < 10 && b < 10
    ensures (10 * a + b) / 10 == a && (10 * a + b) % 10 == b
  {
  }

  // ----- instants -----

  /** The day number of an instant in Ho Chi Minh City. */
  function DayOf(t: nat): nat {
    (t + HCM_OFFSET) / DAY
  }

  /** The midnight in Ho Chi Minh City that opens a day; day 0 opens before the epoch. */
  function Midnight(day: int): int {
    day * DAY - HCM_OFFSET
  }

  /** time.Hour and time.Minute in Ho Chi Minh City. */
  function HourHCM(t: nat): nat {
    (t + HCM_OFFSET) / 3600 % 24
  }

  function MinuteHCM(t: nat): nat {
    (t + HCM_OFFSET) / 60 % 60
  }

  /** DateHCM: the date string of an instant. */
  function DateHCM(t: nat): string
    requires DayOf(t) <= LAST_DAY
  {
    FourDigitYears(DayOf(t));
    Iso(DateOf(DayOf(t)))
  }

  /** time.Weekday of a day number, Sunday = 0; 1970-01-01 was a Thursday. */
  function Weekday(day: nat): nat {
    (day + 4) % 7
  }

  /** The first day of now's week: t.Date() moved back by the days since Monday. Like
      time.Date, it is given year, month and a day of the month that may be zero or less. */
  function WeekStartDay(t: nat): int {
    var date := DateOf(DayOf(t));
    var offset := (Weekday(DayOf(t)) + 6) % 7;
    DayNumber(date.y, date.m, date.d as int - offset)
  }

  /** leaderboard.WeekStart. */
  function WeekStart(t: nat): int {
    Midnight(WeekStartDay(t))
  }

  lemma MondayOffset(day: nat)
    ensures (Weekday(day) + 6) % 7 == (day + 3) % 7
  {
    var q, r := (day + 3) / 7, (day + 3) % 7;
    if r == 6 {
      DivUnique(day + 4, 7, q + 1, 0);
    } else {
      DivUnique(day + 4, 7, q, r + 1);
    }
  }

  lemma WeekStartDayIs(t: nat)
    ensures WeekStartDay(t) == MondayOf(DayOf(t))
  {
    NumberOfDate(DayOf(t));
    MondayOffset(DayOf(t));
  }

  /** The Monday of a day's week. */
  function MondayOf(day: nat): int {
    day - (day + 3) % 7
  }

  lemma DayBounds(t: nat)
    ensures Midnight(DayOf(t)) <= t < Midnight(DayOf(t) + 1)
  {
    var x := t + HCM_OFFSET;
    assert x == (x / DAY) * DAY + x % DAY;
  }

  /** WeekStart is the Monday midnight that opens the week of t. */
  lemma WeekStartIsMonday(t: nat)
    ensures (WeekStartDay(t) + 3) % 7 == 0
    ensures 0 <= WeekStartDay(t) ==> Weekday(WeekStartDay(t)) == 1
    ensures WeekStart(t) <= t < WeekStart(t) + WEEK
  {
    WeekStartDayIs(t);
    DayBounds(t);
    var day := DayOf(t);
    var q := (day + 3) / 7;
    DivUnique(WeekStartDay(t) + 3, 7, q, 0);
    DivUnique(WeekStartDay(t) + 4, 7, q, 1);
  }

  /** WeekStart does not tell apart the instants of a week and tells apart all others. */
  lemma SameWeek(t: nat, u: nat)
    ensures WeekStart(t) == WeekStart(u) <==> WeekStart(t) <= u < WeekStart(t) + WEEK
  {
    WeekStartIsMonday(t);
    WeekStartIsMonday(u);
    var a, b := (WeekStartDay(t) + 3) / 7, (WeekStartDay(u) + 3) / 7;
    WeeksApart(WeekStartDay(t), WeekStartDay(u), a, b, u);
  }

  lemma WeeksApart(day: int, other: int, a: int, b: int, u: int)
    requires day + 3 == 7 * a && other + 3 == 7 * b && Midnight(other) <= u < Midnight(other) + WEEK
    ensures Midnight(day) == Midnight(other) <==> Midnight(day) <= u < Midnight(day) + WEEK
  {
  }

  /** leaderboard.WeekKey: the week's sorted set. */
  function WeekKey(t: nat): string
    requires 0 <= WeekStartDay(t) <= LAST_DAY
  {
    FourDigitYears(WeekStartDay(t));
    "lb:week:" + Iso(DateOf(WeekStartDay(t)))
  }

  lemma IsoIsInjective(a: nat, b: nat)
    requires a <= LAST_DAY && b <= LAST_DAY
    ensures DateOf(a).y <= 9999 && DateOf(b).y <= 9999
    ensures Iso(DateOf(a)) == Iso(DateOf(b)) <==> a == b
  {
    FourDigitYears(a);
    FourDigitYears(b);
    ParsePrinted(DateOf(a));
    ParsePrinted(DateOf(b));
    NumberOfDate(a);
    NumberOfDate(b);
  }

  /** Two instants share a weekly board exactly when they lie in one Monday-to-Sunday span. */
  lemma SameWeekKey(t: nat, u: nat)
    requires 0 <= WeekStartDay(t) <= LAST_DAY && 0 <= WeekStartDay(u) <= LAST_DAY
    ensures WeekKey(t) == WeekKey(u) <==> WeekStart(t) <= u < WeekStart(t) + WEEK
  {
    IsoIsInjective(WeekStartDay(t), WeekStartDay(u));
    assert WeekKey(t)[8..] == Iso(DateOf(WeekStartDay(t)));
    assert WeekKey(u)[8..] == Iso(DateOf(WeekStartDay(u)));
    SameWeek(t, u);
  }

  /** A key of a user and a date, such as "daily:" + sub + ":" + date. */
  function UserKey(prefix: string, sub: string, day: nat): string
    requires day <= LAST_DAY
  {
    FourDigitYears(day);
    prefix + sub + ":" + Iso(DateOf(day))
  }

  /** No two users or days share a key of one kind, whatever characters a sub is made of. */
  lemma UserKeyIsInjective(prefix: string, s: string, a: nat, t: string, b: nat)
    requires a <= LAST_DAY && b <= LAST_DAY && UserKey(prefix, s, a) == UserKey(prefix, t, b)
    ensures s == t && a == b
  {
    var k, l, n := UserKey(prefix, s, a), UserKey(prefix, t, b), |prefix|;
    IsoIsInjective(a, b);
    assert |k| == n + |s| + 11 && |l| == n + |t| + 11;
    assert k[|k| - 10..] == Iso(DateOf(a)) && l[|l| - 10..] == Iso(DateOf(b));
    assert k[n..|k| - 11] == s && l[n..|l| - 11] == t;
  }

  /** nextMidnightHCM: the midnight after t. */
  function NextMidnight(t: nat): int {
    var date := DateOf(DayOf(t));
    Midnight(DayNumber(date.y, date.m, date.d + 1))
  }

  /** It is strictly after t, and no midnight lies between. */
  lemma NextMidnightIsNext(t: nat)
    ensures t < NextMidnight(t) <= t + DAY
    ensures forall day: int :: t < Midnight(day) ==> NextMidnight(t) <= Midnight(day)
  {
    assert NextMidnight(t) == Midnight(DayOf(t) + 1) by {
      NumberOfDate(DayOf(t));
    }
    DayBounds(t);
    forall day: int | t < Midnight(day) ensures Midnight(DayOf(t) + 1) <= Midnight(day) {
      assert DayOf(t) < day;
    }
  }
}
