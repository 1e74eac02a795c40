/** Expiry: the clamp on lifetimes, truncation to whole seconds, and timestamps compared as strings. */
module Expiry {
  import opened Text
  import opened Governance

  // ----- lifetimes -----------------------------------------------------------------------

  /** A grant made at t0 is seen as live at t: both instants lose their fractions first. */
  predicate LiveAt(t0: real, ttl: int, t: real) { (t0 + ttl as real).Floor > t.Floor }

  lemma FloorShift(t: real, n: int)
    ensures (t + n as real).Floor == t.Floor + n
  {}

  /** Exactly: until the grant's own second, ttl seconds on, begins. */
  lemma LiveExactly(t0: real, ttl: int, t: real)
    ensures LiveAt(t0, ttl, t) <==> t < (t0.Floor + ttl) as real
  {
    FloorShift(t0, ttl);
  }

  /** So never after its lifetime, and always up to a second before its end, for every lifetime the clamp lets by. */
  lemma LifetimeBounds(t0: real, seconds: int, t: real)
    requires t >= t0
    ensures t - t0 <= (Ttl(seconds) - 1) as real ==> LiveAt(t0, Ttl(seconds), t)
    ensures t - t0 >= Ttl(seconds) as real ==> !LiveAt(t0, Ttl(seconds), t)
    ensures t - t0 <= 9.0 ==> LiveAt(t0, Ttl(seconds), t)
    ensures t - t0 >= 900.0 ==> !LiveAt(t0, Ttl(seconds), t)
  {
    LiveExactly(t0, Ttl(seconds), t);
  }

  /** The store's whole seconds are these truncated instants. */
  lemma UsableWhileLive(id: string, key: Key, t0: real, seconds: int, t: real)
    ensures Usable(Grant(id, Human, key, t0.Floor, t0.Floor + Ttl(seconds), false, 0, 0), key, t.Floor) <==> LiveAt(t0, Ttl(seconds), t)
  {
    FloorShift(t0, Ttl(seconds));
  }

  // ----- the calendar --------------------------------------------------------------------

  datatype Civil = Civil(year: nat, month: nat, day: nat, hour: nat, minute: nat, second: nat)

  predicate IsLeap(year: nat) { year % 4 == 0 && (year % 100 != 0 || year % 400 == 0) }

  function MonthLength(year: nat, month: nat): nat {
    if month == 2 then (if IsLeap(year) then 29 else 28)
    else if month == 4 || month == 6 || month == 9 || month == 11 then 30
    else 31
  }

  function YearLength(year: nat): nat { if IsLeap(year) then 366 else 365 }

  function DaysBeforeYear(year: nat): nat { if year == 0 then 0 else DaysBeforeYear(year - 1) + YearLength(year - 1) }

  function DaysBeforeMonth(year: nat, month: nat): nat {
    if month <= 1 then 0 else DaysBeforeMonth(year, month - 1) + MonthLength(year, month - 1)
  }

  predicate Valid(c: Civil) {
    && c.year <= 9999 && 1 <= c.month <= 12 && 1 <= c.day <= MonthLength(c.year, c.month)
    && c.hour < 24 && c.minute < 60 && c.second < 60
  }

  function Day(c: Civil): nat { DaysBeforeYear(c.year) + DaysBeforeMonth(c.year, c.month) + c.day }

  /** Seconds since the calendar began. */
  function Seconds(c: Civil): int { Day(c) * 86400 + c.hour * 3600 + c.minute * 60 + c.second }

  predicate Earlier(a: Civil, b: Civil) {
    || a.year < b.year
    || (a.year == b.year && (a.month < b.month || (a.month == b.month && (a.day < b.day || (a.day == b.day
        && (a.hour < b.hour || (a.hour == b.hour && (a.minute < b.minute || (a.minute == b.minute && a.second < b.second)))))))))
  }

  lemma {:induction false} MonthsAdd(year: nat, m: nat, n: nat)
    requires 1 <= m < n
    ensures DaysBeforeMonth(year, n) >= DaysBeforeMonth(year, m) + MonthLength(year, m)
  {
    if m < n - 1 { MonthsAdd(year, m, n - 1); }
  }

  lemma {:induction false} YearsAdd(y: nat, z: nat)
    requires y < z
    ensures DaysBeforeYear(z) >= DaysBeforeYear(y) + YearLength(y)
  {
    if y < z - 1 { YearsAdd(y, z - 1); }
  }

  lemma TwelveMonths(year: nat)
    ensures DaysBeforeMonth(year, 13) == YearLength(year)
  {
    var leap := if IsLeap(year) then 1 else 0;
    assert DaysBeforeMonth(year, 2) == 31;
    assert DaysBeforeMonth(year, 3) == 59 + leap;
    assert DaysBeforeMonth(year, 5) == 120 + leap;
    assert DaysBeforeMonth(year, 7) == 181 + leap;
    assert DaysBeforeMonth(year, 9) == 243 + leap;
    assert DaysBeforeMonth(year, 11) == 304 + leap;
  }

  lemma DayWithinYear(c: Civil)
    requires Valid(c)
    ensures DaysBeforeMonth(c.year, c.month) + c.day <= YearLength(c.year)
  {
    TwelveMonths(c.year);
    MonthsAdd(c.year, c.month, 13);
  }

  lemma EarlierDay(a: Civil, b: Civil)
    requires Valid(a) && Valid(b)
    requires a.year < b.year || (a.year == b.year && (a.month < b.month || (a.month == b.month && a.day < b.day)))
    ensures Day(a) < Day(b)
  {
    DayWithinYear(a);
    hide MonthLength, DaysBeforeMonth, DaysBeforeYear;
    if a.year < b.year { YearsAdd(a.year, b.year); }
    else if a.month < b.month { MonthsAdd(a.year, a.month, b.month); }
  }

  lemma EarlierSeconds(a: Civil, b: Civil)
    requires Valid(a) && Valid(b) && Earlier(a, b)
    ensures Seconds(a) < Seconds(b)
  {
    hide Day;
    if a.year != b.year || a.month != b.month || a.day != b.day {
      EarlierDay(a, b);
    } else {
      SameDay(a, b);
    }
  }

  lemma SameDay(a: Civil, b: Civil)
    requires a.year == b.year && a.month == b.month && a.day == b.day
    ensures Day(a) == Day(b)
  {}

  /** The calendar order is the order of the instants. */
  lemma CalendarOrder(a: Civil, b: Civil)
    requires Valid(a) && Valid(b)
    ensures Earlier(a, b) <==> Seconds(a) < Seconds(b)
    ensures a == b <==> Seconds(a) == Seconds(b)
  {
    hide Seconds, Valid;
    if Earlier(a, b) { EarlierSeconds(a, b); }
    else if Earlier(b, a) { EarlierSeconds(b, a); }
    else { assert a == b; }
  }

  // ----- timestamps ----------------------------------------------------------------------

  function Digit(n: nat): char
    requires n < 10
  {
    '0' + n as char
  }

  function Pow10(w: nat): nat { if w == 0 then 1 else 10 * Pow10(w - 1) }

  /** The last w decimal digits of n. */
  function Digits(n: nat, w: nat): (s: string)
    ensures |s| == w
  {
    if w == 0 then "" else Digits(n / 10, w - 1) + [Digit(n % 10)]
  }

  /** `%Y-%m-%d %H:%M:%S`. */
  function Stamp(c: Civil): string {
    Digits(c.year, 4) + ("-" + (Digits(c.month, 2) + ("-" + (Digits(c.day, 2) + (" " + (Digits(c.hour, 2) + (":"
    + (Digits(c.minute, 2) + (":" + Digits(c.second, 2))))))))))
  }

  lemma {:induction false} LessAfter(p: string, x: string, q: string, y: string)
    requires |p| == |q|
    ensures Less(p + x, q + y) <==> Less(p, q) || (p == q && Less(x, y))
  {
    if p == "" {
      assert p + x == x && q + y == y;
    } else {
      LessAfter(p[1..], x, q[1..], y);
      assert (p + x)[1..] == p[1..] + x && (q + y)[1..] == q[1..] + y;
      assert p == [p[0]] + p[1..] && q == [q[0]] + q[1..];
    }
  }

  lemma {:induction false} DigitsOrder(a: nat, b: nat, w: nat)
    requires a < Pow10(w) && b < Pow10(w)
    ensures Less(Digits(a, w), Digits(b, w)) <==> a < b
    ensures Digits(a, w) == Digits(b, w) <==> a == b
  {
    if w > 0 {
      DigitsOrder(a / 10, b / 10, w - 1);
      var x, y := [Digit(a % 10)], [Digit(b % 10)];
      LessAfter(Digits(a / 10, w - 1), x, Digits(b / 10, w - 1), y);
      SplitEqual(Digits(a / 10, w - 1), x, Digits(b / 10, w - 1), y);
      OneDigit(a % 10, b % 10);
    }
  }

  lemma OneDigit(a: nat, b: nat)
    requires a < 10 && b < 10
    ensures Less([Digit(a)], [Digit(b)]) <==> a < b
    ensures [Digit(a)] == [Digit(b)] <==> a == b
  {
    assert [Digit(a)][1..] == "" && [Digit(b)][1..] == "";
    assert [Digit(a)][0] == Digit(a) && [Digit(b)][0] == Digit(b);
  }

  lemma SplitEqual(p: string, x: string, q: string, y: string)
    requires |p| == |q|
    ensures p + x == q + y <==> p == q && x == y
  {
    assert (p + x)[..|p|] == p && (p + x)[|p|..] == x && (q + y)[..|q|] == q && (q + y)[|q|..] == y;
  }

  /** One field and what follows it. */
  lemma FieldOrder(a: nat, b: nat, w: nat, x: string, y: string)
    requires a < Pow10(w) && b < Pow10(w)
    ensures Less(Digits(a, w) + x, Digits(b, w) + y) <==> a < b || (a == b && Less(x, y))
    ensures Digits(a, w) + x == Digits(b, w) + y <==> a == b && x == y
  {
    DigitsOrder(a, b, w);
    LessAfter(Digits(a, w), x, Digits(b, w), y);
    SplitEqual(Digits(a, w), x, Digits(b, w), y);
  }

  lemma MarkOrder(mark: string, x: string, y: string)
    requires |mark| == 1
    ensures Less(mark + x, mark + y) <==> Less(x, y)
    ensures mark + x == mark + y <==> x == y
  {
    LessAfter(mark, x, mark, y);
    LessTotal(mark, mark);
    SplitEqual(mark, x, mark, y);
  }

  function Clock(c: Civil): string { Digits(c.hour, 2) + (":" + (Digits(c.minute, 2) + (":" + Digits(c.second, 2)))) }

  predicate EarlierClock(a: Civil, b: Civil) {
    a.hour < b.hour || (a.hour == b.hour && (a.minute < b.minute || (a.minute == b.minute && a.second < b.second)))
  }

  lemma ClockOrder(a: Civil, b: Civil)
    requires Valid(a) && Valid(b)
    ensures Less(Clock(a), Clock(b)) <==> EarlierClock(a, b)
  {
    assert Pow10(2) == 100;
    hide Digits, Less, MonthLength;
    var s, t := Digits(a.second, 2), Digits(b.second, 2);
    DigitsOrder(a.second, b.second, 2);
    MarkOrder(":", s, t);
    FieldOrder(a.minute, b.minute, 2, ":" + s, ":" + t);
    var m, n := Digits(a.minute, 2) + (":" + s), Digits(b.minute, 2) + (":" + t);
    MarkOrder(":", m, n);
    FieldOrder(a.hour, b.hour, 2, ":" + m, ":" + n);
  }

  /** Comparing two stored timestamps as strings compares the instants they name. */
  lemma StampOrder(a: Civil, b: Civil)
    requires Valid(a) && Valid(b)
    ensures Less(Stamp(a), Stamp(b)) <==> Seconds(a) < Seconds(b)
  {
    assert Pow10(2) == 100 && Pow10(4) == 10000;
    CalendarOrder(a, b);
    ClockOrder(a, b);
    assert a.day < 100 && b.day < 100;
    hide Digits, Less, MonthLength, Seconds;
    var s, t := Clock(a), Clock(b);
    MarkOrder(" ", s, t);
    FieldOrder(a.day, b.day, 2, " " + s, " " + t);
    var d, e := Digits(a.day, 2) + (" " + s), Digits(b.day, 2) + (" " + t);
    MarkOrder("-", d, e);
    FieldOrder(a.month, b.month, 2, "-" + d, "-" + e);
    var m, n := Digits(a.month, 2) + ("-" + d), Digits(b.month, 2) + ("-" + e);
    MarkOrder("-", m, n);
    FieldOrder(a.year, b.year, 4, "-" + m, "-" + n);
  }
}
