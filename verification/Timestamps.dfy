/**
The timestamp text of history rows: UTC with milliseconds in fixed width, as section 5.6 of RFC 3339
writes it (`tsISO` in `internal/agent/agent.go`, `nowISO` in `internal/store/store.go`). The store
compares these strings where it means times.
*/
module Timestamps {
  import opened Lexicographic
  import Numbers

  const DAY := 86_400_000
  // The first millisecond of year 10000.
  const YEAR_10000 := 253_402_300_800_000

  predicate IsLeap(y: nat) {
    y % 4 == 0 && (y % 100 != 0 || y % 400 == 0)
  }

  function YearDays(y: nat): nat {
    if IsLeap(y) then 366 else 365
  }

  function MonthDays(y: nat, m: nat): nat {
    if m == 2 then if IsLeap(y) then 29 else 28
    else if m == 4 || m == 6 || m == 9 || m == 11 then 30
    else 31
  }

  // The year that day `d`, counted from the first of year `y`, falls in, and its day of that year.
  function YearOf(d: nat, y: nat): (nat, nat)
    decreases d
  {
    if d < YearDays(y) then (y, d) else YearOf(d - YearDays(y), y + 1)
  }

  // The month that day `d`, counted from the first of month `m`, falls in, and its day of that month.
  function MonthOf(d: nat, y: nat, m: nat): (nat, nat)
    requires 1 <= m <= 12
    decreases 12 - m
  {
    if m == 12 || d < MonthDays(y, m) then (m, d + 1) else MonthOf(d - MonthDays(y, m), y, m + 1)
  }

  // Decimal text in exactly `w` digits.
  function Pad(n: nat, w: nat): (s: string)
    ensures |s| == w
  {
    if w == 0 then "" else Pad(n / 10, w - 1) + [Numbers.Digit(n % 10)]
  }

  // Go's year field: at least four digits.
  function YearText(y: nat): string {
    if y < 10000 then Pad(y, 4) else Numbers.Itoa(y)
  }

  function DateText(day: nat): string {
    var (y, dayOfYear) := YearOf(day, 1970);
    var (m, d) := MonthOf(dayOfYear, y, 1);
    YearText(y) + ("-" + (Pad(m, 2) + ("-" + Pad(d, 2))))
  }

  // Hour, minute, second and millisecond of a time of day.
  function Clock(ms: nat): (nat, nat, nat, nat) {
    var sec := ms / 1000;
    (sec / 3600, sec % 3600 / 60, sec % 60, ms % 1000)
  }

  function TimeText(ms: nat): string {
    var (h, mi, s, f) := Clock(ms);
    "T" + (Pad(h, 2) + (":" + (Pad(mi, 2) + (":" + (Pad(s, 2) + ("." + (Pad(f, 3) + "Z")))))))
  }

  function Iso(ms: nat): string {
    DateText(ms / DAY) + TimeText(ms % DAY)
  }

  // tsISO: a message without a time gets the current one.
  function TsIso(ms: int, now: nat): string {
    if ms <= 0 then Iso(now) else Iso(ms)
  }

  /* ---------------- digits ---------------- */

  function Pow10(w: nat): nat {
    if w == 0 then 1 else 10 * Pow10(w - 1)
  }

  lemma {:induction false} PadOrder(m: nat, n: nat, w: nat)
    requires m < Pow10(w) && n < Pow10(w)
    ensures Le(Pad(m, w), Pad(n, w)) <==> m <= n
    ensures Pad(m, w) == Pad(n, w) <==> m == n
  {
    if w > 0 {
      PadOrder(m / 10, n / 10, w - 1);
      var a, b := [Numbers.Digit(m % 10)], [Numbers.Digit(n % 10)];
      ConcatOrder(Pad(m / 10, w - 1), Pad(n / 10, w - 1), a, b);
      assert a[1..] == b[1..] == [];
      assert Pad(m, w)[..w - 1] == Pad(m / 10, w - 1) && Pad(n, w)[..w - 1] == Pad(n / 10, w - 1);
      assert Pad(m, w)[w - 1] == a[0] && Pad(n, w)[w - 1] == b[0];
    }
  }

  // A separator in front changes no comparison.
  lemma PrefixOrder(c: char, x: string, y: string)
    ensures Le([c] + x, [c] + y) <==> Le(x, y)
  {
    ConcatOrder([c], [c], x, y);
  }

  /* ---------------- the calendar ---------------- */

  lemma {:induction false} YearOfOrder(c: nat, d: nat, y: nat)
    requires c < d
    ensures var (y1, d1), (y2, d2) := YearOf(c, y), YearOf(d, y);
      y <= y1 && y <= y2 && d1 < YearDays(y1) && d2 < YearDays(y2) && (y1 < y2 || (y1 == y2 && d1 < d2))
    decreases c
  {
    if c >= YearDays(y) {
      YearOfOrder(c - YearDays(y), d - YearDays(y), y + 1);
    } else {
      YearOfRange(d, y);
    }
  }

  lemma {:induction false} YearOfRange(d: nat, y: nat)
    ensures YearOf(d, y).1 < YearDays(YearOf(d, y).0) && y <= YearOf(d, y).0
    ensures d >= YearDays(y) ==> y < YearOf(d, y).0
    decreases d
  {
    if d >= YearDays(y) {
      YearOfRange(d - YearDays(y), y + 1);
    }
  }

  // Days left in the year from the first of month `m` on.
  function DaysLeft(y: nat, m: nat): nat
    requires 1 <= m <= 12
    decreases 12 - m
  {
    MonthDays(y, m) + if m == 12 then 0 else DaysLeft(y, m + 1)
  }

  lemma DaysLeftIsYear(y: nat)
    ensures DaysLeft(y, 1) == YearDays(y)
  {
    assert DaysLeft(y, 9) == 122;
    assert DaysLeft(y, 5) == 245;
  }

  lemma {:induction false} MonthOfRange(d: nat, y: nat, m: nat)
    requires 1 <= m <= 12 && d < DaysLeft(y, m)
    ensures var (mo, day) := MonthOf(d, y, m);
      m <= mo <= 12 && 1 <= day <= MonthDays(y, mo) && (d >= MonthDays(y, m) ==> m < mo)
    decreases 12 - m
  {
    if m < 12 && d >= MonthDays(y, m) {
      MonthOfRange(d - MonthDays(y, m), y, m + 1);
    }
  }

  lemma {:induction false} MonthOfOrder(c: nat, d: nat, y: nat, m: nat)
    requires 1 <= m <= 12 && c < d < DaysLeft(y, m)
    ensures var (m1, d1), (m2, d2) := MonthOf(c, y, m), MonthOf(d, y, m);
      m1 < m2 || (m1 == m2 && d1 < d2)
    decreases 12 - m
  {
    MonthOfRange(d, y, m);
    if m < 12 && c >= MonthDays(y, m) {
      MonthOfOrder(c - MonthDays(y, m), d - MonthDays(y, m), y, m + 1);
    }
  }

  // Leap years up to and including `y`, by the Gregorian rule.
  function Leaps(y: nat): int {
    y / 4 - y / 100 + y / 400
  }

  lemma LeapStep(y: nat)
    requires y > 0
    ensures Leaps(y) == Leaps(y - 1) + if IsLeap(y) then 1 else 0
  {
    MultipleStep(y, 4);
    MultipleStep(y, 100);
    MultipleStep(y, 400);
    Multiples(y);
  }

  lemma Multiples(y: nat)
    ensures y % 100 == 0 ==> y % 4 == 0
    ensures y % 400 == 0 ==> y % 100 == 0
  {
    if y % 100 == 0 {
      MultipleOf4(y, 25 * (y / 100));
    }
    if y % 400 == 0 {
      MultipleOf100(y, 4 * (y / 400));
    }
  }

  lemma MultipleOf4(n: nat, q: nat)
    requires n == 4 * q
    ensures n % 4 == 0
  {
  }

  lemma MultipleOf100(n: nat, q: nat)
    requires n == 100 * q
    ensures n % 100 == 0
  {
  }

  lemma MultipleStep(y: nat, k: nat)
    requires y > 0 && (k == 4 || k == 100 || k == 400)
    ensures y / k == (y - 1) / k + if y % k == 0 then 1 else 0
  {
  }

  // The day number of the first of January of year `y`, in closed form; day 0 is 1970-01-01.
  function NewYear(y: nat): int
    requires y > 0
  {
    365 * (y - 1970) + Leaps(y - 1) - Leaps(1969)
  }

  lemma {:induction false} YearOfSpan(d: nat, y: nat)
    requires y > 0
    ensures var (y', dayOfYear) := YearOf(d, y);
      y <= y' && dayOfYear < YearDays(y') && NewYear(y) + d == NewYear(y') + dayOfYear
    decreases d
  {
    LeapStep(y);
    if d >= YearDays(y) {
      YearOfSpan(d - YearDays(y), y + 1);
    }
  }

  lemma NewYearsApart(a: nat, b: nat)
    requires 0 < a < b
    ensures NewYear(a) + YearDays(a) <= NewYear(b)
  {
    LeapStep(a);
    LeapsGrow(a, b - 1);
  }

  // The year whose closed-form span contains the day is the one the search finds.
  lemma YearIs(day: nat, y: nat)
    requires 1970 <= y && NewYear(y) <= day < NewYear(y) + YearDays(y)
    ensures YearOf(day, 1970).0 == y
  {
    YearOfSpan(day, 1970);
    var found := YearOf(day, 1970).0;
    if found < y {
      NewYearsApart(found, y);
    } else if y < found {
      NewYearsApart(y, found);
    }
  }

  function MonthStart(y: nat, m: nat): nat
    requires 1 <= m <= 12
  {
    [0, 31, 59, 90, 120, 151, 181, 212, 243, 273, 304, 334][m - 1] + if m > 2 && IsLeap(y) then 1 else 0
  }

  lemma MonthStartNext(y: nat, m: nat)
    requires 1 <= m < 12
    ensures MonthStart(y, m + 1) == MonthStart(y, m) + MonthDays(y, m)
  {
  }

  lemma {:induction false} MonthOfSpan(d: nat, y: nat, m: nat)
    requires 1 <= m <= 12 && d < DaysLeft(y, m)
    ensures var (m', day) := MonthOf(d, y, m);
      m <= m' <= 12 && 1 <= day <= MonthDays(y, m') && MonthStart(y, m) + d == MonthStart(y, m') + day - 1
    decreases 12 - m
  {
    if m < 12 && d >= MonthDays(y, m) {
      MonthStartNext(y, m);
      MonthOfSpan(d - MonthDays(y, m), y, m + 1);
    }
  }

  /** The calendar date of a day is the Gregorian one: counting its days back from 1970 by the closed
      form for years and the month table gives the day again. */
  lemma DateRoundTrips(day: nat)
    ensures var (y, dayOfYear) := YearOf(day, 1970);
      var (m, d) := MonthOf(dayOfYear, y, 1);
      && 1970 <= y && 1 <= m <= 12 && 1 <= d <= MonthDays(y, m)
      && NewYear(y) + MonthStart(y, m) + d - 1 == day
  {
    YearOfSpan(day, 1970);
    var (y, dayOfYear) := YearOf(day, 1970);
    DaysLeftIsYear(y);
    MonthOfSpan(dayOfYear, y, 1);
  }

  lemma YearHasFourDigits(day: nat)
    requires day < YEAR_10000 / DAY
    ensures 1970 <= YearOf(day, 1970).0 < 10000
  {
    YearOfSpan(day, 1970);
    assert NewYear(9999) + YearDays(9999) == YEAR_10000 / DAY;
  }

  lemma {:induction false} LeapsGrow(a: nat, b: nat)
    requires a <= b
    ensures Leaps(a) <= Leaps(b)
    decreases b
  {
    if a < b {
      LeapStep(b);
      LeapsGrow(a, b - 1);
    }
  }

  /* ---------------- the order ---------------- */

  lemma DateSize(day: nat)
    requires day < YEAR_10000 / DAY
    ensures |DateText(day)| == 10
  {
    YearHasFourDigits(day);
  }

  // The parts of a date and how they compare.
  lemma DateOrder(c: nat, d: nat)
    requires c < d < YEAR_10000 / DAY
    ensures Le(DateText(c), DateText(d)) && DateText(c) != DateText(d)
  {
    YearHasFourDigits(c);
    YearHasFourDigits(d);
    YearOfOrder(c, d, 1970);
    var (y1, e1) := YearOf(c, 1970);
    var (y2, e2) := YearOf(d, 1970);
    DaysLeftIsYear(y1);
    DaysLeftIsYear(y2);
    MonthOfRange(e1, y1, 1);
    MonthOfRange(e2, y2, 1);
    var (m1, d1) := MonthOf(e1, y1, 1);
    var (m2, d2) := MonthOf(e2, y2, 1);
    if y1 == y2 {
      MonthOfOrder(e1, e2, y1, 1);
    }
    YmdOrder(y1, m1, d1, y2, m2, d2);
  }

  lemma YmdOrder(y1: nat, m1: nat, d1: nat, y2: nat, m2: nat, d2: nat)
    requires y1 < 10000 && y2 < 10000 && m1 < 100 && m2 < 100 && d1 < 100 && d2 < 100
    requires y1 < y2 || (y1 == y2 && (m1 < m2 || (m1 == m2 && d1 < d2)))
    ensures var a := Pad(y1, 4) + ("-" + (Pad(m1, 2) + ("-" + Pad(d1, 2))));
      var b := Pad(y2, 4) + ("-" + (Pad(m2, 2) + ("-" + Pad(d2, 2))));
      Le(a, b) && a != b
  {
    assert Pow10(4) == 10000 && Pow10(2) == 100;
    PadOrder(y1, y2, 4);
    PadOrder(m1, m2, 2);
    PadOrder(d1, d2, 2);
    var t1, t2 := "-" + Pad(d1, 2), "-" + Pad(d2, 2);
    PrefixOrder('-', Pad(d1, 2), Pad(d2, 2));
    ConcatOrder(Pad(m1, 2), Pad(m2, 2), t1, t2);
    ConcatOrder(Pad(m2, 2), Pad(m1, 2), t2, t1);
    PrefixOrder('-', Pad(d2, 2), Pad(d1, 2));
    PrefixOrder('-', Pad(m1, 2) + t1, Pad(m2, 2) + t2);
    PrefixOrder('-', Pad(m2, 2) + t2, Pad(m1, 2) + t1);
    var s1, s2 := "-" + (Pad(m1, 2) + t1), "-" + (Pad(m2, 2) + t2);
    ConcatOrder(Pad(y1, 4), Pad(y2, 4), s1, s2);
    ConcatOrder(Pad(y2, 4), Pad(y1, 4), s2, s1);
    Total(Pad(y1, 4), Pad(y2, 4));
    Total(Pad(m1, 2), Pad(m2, 2));
    Total(Pad(d1, 2), Pad(d2, 2));
    assert !Le(Pad(y2, 4) + s2, Pad(y1, 4) + s1);
    Total(Pad(y1, 4) + s1, Pad(y2, 4) + s2);
  }

  lemma TimeOrder(m: nat, n: nat)
    requires m < n < DAY
    ensures Le(TimeText(m), TimeText(n)) && TimeText(m) != TimeText(n)
  {
    var (h1, i1, s1, f1) := Clock(m);
    var (h2, i2, s2, f2) := Clock(n);
    assert Pow10(2) == 100 && Pow10(3) == 1000;
    PadOrder(h1, h2, 2);
    PadOrder(i1, i2, 2);
    PadOrder(s1, s2, 2);
    PadOrder(f1, f2, 3);
    ClockParts(m, n);
    var u1, u2 := Pad(f1, 3) + "Z", Pad(f2, 3) + "Z";
    var v1, v2 := Pad(s1, 2) + ("." + u1), Pad(s2, 2) + ("." + u2);
    var w1, w2 := Pad(i1, 2) + (":" + v1), Pad(i2, 2) + (":" + v2);
    var x1, x2 := Pad(h1, 2) + (":" + w1), Pad(h2, 2) + (":" + w2);
    ConcatOrder(Pad(f2, 3), Pad(f1, 3), "Z", "Z");
    PrefixOrder('.', u2, u1);
    ConcatOrder(Pad(s2, 2), Pad(s1, 2), "." + u2, "." + u1);
    PrefixOrder(':', v2, v1);
    ConcatOrder(Pad(i2, 2), Pad(i1, 2), ":" + v2, ":" + v1);
    PrefixOrder(':', w2, w1);
    ConcatOrder(Pad(h2, 2), Pad(h1, 2), ":" + w2, ":" + w1);
    PrefixOrder('T', x2, x1);
    PadOrder(h2, h1, 2);
    PadOrder(i2, i1, 2);
    PadOrder(s2, s1, 2);
    PadOrder(f2, f1, 3);
    assert !Le("T" + x2, "T" + x1);
    Total("T" + x1, "T" + x2);
  }

  lemma ClockParts(m: nat, n: nat)
    requires m < n < DAY
    ensures var (h1, i1, s1, f1) := Clock(m);
      var (h2, i2, s2, f2) := Clock(n);
      && h1 < 24 && h2 < 24
      && (h1 < h2 || (h1 == h2 && (i1 < i2 || (i1 == i2 && (s1 < s2 || (s1 == s2 && f1 < f2))))))
  {
    SecondsSplit(m / 1000);
    SecondsSplit(n / 1000);
  }

  lemma SecondsSplit(sec: nat)
    ensures sec == 3600 * (sec / 3600) + 60 * (sec % 3600 / 60) + sec % 60
    ensures sec % 3600 / 60 < 60
  {
    var r := sec % 3600;
    assert sec == 3600 * (sec / 3600) + r;
    assert sec == 60 * (60 * (sec / 3600) + r / 60) + r % 60;
    RemainderIs(sec, 60 * (sec / 3600) + r / 60, r % 60);
  }

  lemma RemainderIs(n: nat, q: nat, r: nat)
    requires n == 60 * q + r && r < 60
    ensures n % 60 == r
  {
  }

  // The parts of a time of day add up to it.
  lemma ClockAddsUp(ms: nat)
    requires ms < DAY
    ensures var (h, mi, s, f) := Clock(ms);
      h < 24 && mi < 60 && s < 60 && f < 1000 && ((h * 60 + mi) * 60 + s) * 1000 + f == ms
  {
    SecondsSplit(ms / 1000);
    var sec := ms / 1000;
    assert sec == (sec / 3600 * 60 + sec % 3600 / 60) * 60 + sec % 60;
    assert ms == sec * 1000 + ms % 1000;
  }

  /** The text is the time: a calendar date and a time of day, written as RFC 3339 writes them in section 5.6, that
      count back to exactly those milliseconds. */
  lemma IsoIsTheTime(ms: nat) returns (y: nat, m: nat, d: nat, h: nat, mi: nat, s: nat, f: nat)
    ensures 1970 <= y && 1 <= m <= 12 && 1 <= d <= MonthDays(y, m) && h < 24 && mi < 60 && s < 60 && f < 1000
    ensures (NewYear(y) + MonthStart(y, m) + d - 1) * 86_400_000 + ((h * 60 + mi) * 60 + s) * 1000 + f == ms
    ensures Iso(ms) == (if y < 10000 then Pad(y, 4) else Numbers.Itoa(y)) + "-" + Pad(m, 2) + "-" + Pad(d, 2) + "T"
      + Pad(h, 2) + ":" + Pad(mi, 2) + ":" + Pad(s, 2) + "." + Pad(f, 3) + "Z"
  {
    var dayOfYear;
    y, dayOfYear := YearOf(ms / DAY, 1970).0, YearOf(ms / DAY, 1970).1;
    m, d := MonthOf(dayOfYear, y, 1).0, MonthOf(dayOfYear, y, 1).1;
    h, mi, s, f := Clock(ms % DAY).0, Clock(ms % DAY).1, Clock(ms % DAY).2, Clock(ms % DAY).3;
    DateRoundTrips(ms / DAY);
    ClockAddsUp(ms % DAY);
    DayAndTime(ms, NewYear(y) + MonthStart(y, m) + d - 1, ((h * 60 + mi) * 60 + s) * 1000 + f);
    Flat(YearText(y), Pad(m, 2), Pad(d, 2), Pad(h, 2), Pad(mi, 2), Pad(s, 2), Pad(f, 3));
  }

  lemma DayAndTime(ms: nat, day: int, time: int)
    requires day == ms / DAY && time == ms % DAY
    ensures day * 86_400_000 + time == ms
  {
  }

  lemma Flat(y: string, m: string, d: string, h: string, mi: string, s: string, f: string)
    ensures (y + ("-" + (m + ("-" + d)))) + ("T" + (h + (":" + (mi + (":" + (s + ("." + (f + "Z"))))))))
      == y + "-" + m + "-" + d + "T" + h + ":" + mi + ":" + s + "." + f + "Z"
  {
  }

  /** Up to the end of year 9999 the text orders exactly as the time: comparing the strings is comparing
      the milliseconds. */
  lemma IsoOrder(m: nat, n: nat)
    requires m < YEAR_10000 && n < YEAR_10000
    ensures Le(Iso(m), Iso(n)) <==> m <= n
  {
    if m < n {
      IsoLess(m, n);
    } else if n < m {
      IsoLess(n, m);
      Total(Iso(m), Iso(n));
    } else {
      Total(Iso(m), Iso(n));
    }
  }

  lemma JoinLess(a: string, b: string, x: string, y: string)
    requires |a| == |b| && Le(a, b)
    requires a == b ==> Le(x, y) && x != y
    ensures Le(a + x, b + y) && a + x != b + y
  {
    ConcatOrder(a, b, x, y);
    assert (a + x)[..|a|] == a && (b + y)[..|b|] == b;
    assert (a + x)[|a|..] == x && (b + y)[|b|..] == y;
  }

  lemma SplitTime(m: nat, n: nat)
    requires m < n < YEAR_10000
    ensures m / DAY < n / DAY || (m / DAY == n / DAY && m % DAY < n % DAY)
    ensures m / DAY < YEAR_10000 / DAY && n / DAY < YEAR_10000 / DAY
  {
  }

  // Days `c` and `d`, times of day `p` and `q`.
  lemma PartsLess(c: nat, d: nat, p: nat, q: nat)
    requires c < YEAR_10000 / DAY && d < YEAR_10000 / DAY && p < DAY && q < DAY
    requires c < d || (c == d && p < q)
    ensures Le(DateText(c) + TimeText(p), DateText(d) + TimeText(q))
    ensures DateText(c) + TimeText(p) != DateText(d) + TimeText(q)
  {
    DateSize(c);
    DateSize(d);
    var a, b, x, y := DateText(c), DateText(d), TimeText(p), TimeText(q);
    if c < d {
      DateOrder(c, d);
    } else {
      TimeOrder(p, q);
      Total(a, a);
    }
    JoinLess(a, b, x, y);
  }

  lemma IsoLess(m: nat, n: nat)
    requires m < n < YEAR_10000
    ensures Le(Iso(m), Iso(n)) && Iso(m) != Iso(n)
  {
    SplitTime(m, n);
    PartsLess(m / DAY, n / DAY, m % DAY, n % DAY);
  }

  /** One millisecond later the year has five digits and the text sorts before everything of 9999. */
  lemma YearTenThousandBreaksOrder()
    ensures Less(Iso(YEAR_10000), Iso(YEAR_10000 - 1))
  {
    var c, d := (YEAR_10000 - 1) / DAY, YEAR_10000 / DAY;
    YearIs(c, 9999);
    YearIs(d, 10000);
    assert YearText(10000) == ['1'] + YearText(10000)[1..] by {
      assert Numbers.Itoa(10) == "10" && Numbers.Itoa(100) == "100" && Numbers.Itoa(1000) == "1000";
    }
    assert YearText(9999)[0] == '9' by {
      assert Pad(9, 1) == "9" && Pad(99, 2)[0] == '9' && Pad(999, 3)[0] == '9';
    }
    assert Iso(YEAR_10000)[0] == '1' && Iso(YEAR_10000 - 1)[0] == '9';
  }

  /** Text order is time order below a bound exactly if the bound is at most the start of year 10000. */
  lemma OrderedExactlyBelow(bound: nat)
    ensures (forall m: nat, n: nat :: m < bound && n < bound ==> (Le(Iso(m), Iso(n)) <==> m <= n)) <==> bound <= YEAR_10000
  {
    if bound <= YEAR_10000 {
      forall m: nat, n: nat | m < bound && n < bound
        ensures Le(Iso(m), Iso(n)) <==> m <= n
      {
        IsoOrder(m, n);
      }
    } else {
      YearTenThousandBreaksOrder();
      var m, n := YEAR_10000, YEAR_10000 - 1;
      assert m < bound && n < bound && Le(Iso(m), Iso(n)) && !(m <= n);
    }
  }
}
