/**
Durations and fees as text (`parseDuration`, `formatRemaining` and `weiToEth` in
`internal/agent/util.go`). Durations are 64-bit nanoseconds, and Go's multiplication wraps around.
*/
module Durations {
  import opened Numbers
  import opened Text
  import opened Timestamps
  import opened Wrappers

  const MAX_INT64 := 0x7FFF_FFFF_FFFF_FFFF
  const TWO_64 := 0x1_0000_0000_0000_0000

  const MINUTE := 60_000
  const HOUR := 3_600_000
  const WEEK := 7 * DAY

  function Wrap64(n: int): (r: int)
    ensures -MAX_INT64 - 1 <= r <= MAX_INT64 && (r - n) % TWO_64 == 0
  {
    var m := n % TWO_64;
    if m > MAX_INT64 then m - TWO_64 else m
  }

  // ---- parseDuration ----

  // Milliseconds of the unit a letter stands for.
  function Unit(c: char): Option<nat> {
    match c
    case 'm' => Some(MINUTE)
    case 'h' => Some(HOUR)
    case 'd' => Some(DAY)
    case 'w' => Some(WEEK)
    case _ => None
  }

  // `\s` of Go's regular expressions.
  predicate IsReSpace(c: char) {
    c == '\t' || c == '\n' || c == '\U{C}' || c == '\r' || c == ' '
  }

  // How many characters at the front are as `p` says.
  function Span(s: string, p: char -> bool): (k: nat)
    ensures k <= |s| && (forall i :: 0 <= i < k ==> p(s[i])) && (k < |s| ==> !p(s[k]))
  {
    if s != [] && p(s[0]) then Span(s[1..], p) + 1 else 0
  }

  // A match of `^(\d+)\s*(m|h|d|w)$`: digits, spaces and one unit letter.
  predicate Matches(s: string, digits: string, spaces: string, c: char) {
    && s == digits + spaces + [c]
    && digits != [] && AllDigits(digits)
    && (forall i :: 0 <= i < |spaces| ==>
      spaces[i] == '\t' || spaces[i] == '\n' || spaces[i] == '\U{C}' || spaces[i] == '\r' || spaces[i] == ' ')
    && (c == 'm' || c == 'h' || c == 'd' || c == 'w')
  }

  // Nanoseconds of a minute, an hour, a day and a week.
  function NanosOf(c: char): nat {
    if c == 'm' then 60_000_000_000
    else if c == 'h' then 3_600_000_000_000
    else if c == 'd' then 86_400_000_000_000
    else 604_800_000_000_000
  }

  function Match(s: string): Option<(string, char)> {
    var d := Span(s, IsDigit);
    var g := d + Span(s[d..], IsReSpace);
    if d > 0 && g + 1 == |s| && Unit(s[g]).Some? then Some((s[..d], s[g])) else None
  }

  lemma {:induction false} SpanIs(s: string, p: char -> bool, k: nat)
    requires k <= |s| && (forall i :: 0 <= i < k ==> p(s[i])) && (k < |s| ==> !p(s[k]))
    ensures Span(s, p) == k
  {
    if k > 0 {
      SpanIs(s[1..], p, k - 1);
    }
  }

  // The regular expression matches in at most one way, and Match finds it.
  lemma MatchIsUnique(s: string, digits: string, spaces: string, c: char)
    requires Matches(s, digits, spaces, c)
    ensures Match(s) == Some((digits, c))
  {
    var tail := spaces + [c];
    assert s == digits + tail && s[|digits|..] == tail && s[..|digits|] == digits;
    SpaceSpan(spaces, c);
    DigitSpan(digits, tail);
    assert s[|digits| + |spaces|] == c;
  }

  lemma SpaceSpan(spaces: string, c: char)
    requires (forall i :: 0 <= i < |spaces| ==> IsReSpace(spaces[i])) && Unit(c).Some?
    ensures Span(spaces + [c], IsReSpace) == |spaces| && !IsDigit((spaces + [c])[0])
  {
    SpanIs(spaces + [c], IsReSpace, |spaces|);
  }

  lemma DigitSpan(digits: string, tail: string)
    requires AllDigits(digits) && tail != [] && !IsDigit(tail[0])
    ensures Span(digits + tail, IsDigit) == |digits|
  {
    SpanIs(digits + tail, IsDigit, |digits|);
  }

  lemma MatchMatches(s: string)
    requires Match(s).Some?
    ensures exists spaces :: Matches(s, Match(s).value.0, spaces, Match(s).value.1)
  {
    var d := Span(s, IsDigit);
    var g := d + Span(s[d..], IsReSpace);
    assert forall i :: d <= i < g ==> s[i] == s[d..][i - d];
    assert s == s[..d] + s[d..g] + [s[g]];
    assert Matches(s, s[..d], s[d..g], s[g]);
  }

  function Nanos(n: nat, c: char): nat
    requires Unit(c).Some?
  {
    n * (Unit(c).value * 1_000_000)
  }

  // Nanoseconds.
  function ParseDuration(text: string): Option<int> {
    var m := Match(Normalize(text));
    if m.None? then None
    else
      assert AllDigits(m.value.0) by {
        MatchMatches(Normalize(text));
      }
      var n := Atoi(m.value.0);
      if n > MAX_INT64 then None
      else
        assert Unit(m.value.1).Some?;
        Some(Wrap64(Nanos(n, m.value.1)))
  }

  lemma WrapsAboveOnly(n: nat)
    ensures n <= MAX_INT64 ==> Wrap64(n) == n
    ensures n > MAX_INT64 ==> Wrap64(n) <= n - TWO_64
  {
  }

  // A written duration has its value exactly when that fits 64 bits of nanoseconds; otherwise it is too small.
  lemma ParsesUnlessItOverflows(text: string, digits: string, spaces: string, c: char)
    requires Matches(Normalize(text), digits, spaces, c) && Atoi(digits) <= MAX_INT64
    ensures ParseDuration(text).Some?
    ensures var ns := Atoi(digits) * NanosOf(c);
      if ns <= MAX_INT64 then ParseDuration(text) == Some(ns) else ParseDuration(text).value <= ns - TWO_64
  {
    MatchIsUnique(Normalize(text), digits, spaces, c);
    var ns := Nanos(Atoi(digits), c);
    assert Unit(c).value * 1_000_000 == NanosOf(c);
    assert ParseDuration(text) == Some(Wrap64(ns));
    WrapsAboveOnly(ns);
  }

  // ---- formatRemaining ----

  // Go's integer division truncates toward zero.
  function Quotient(a: int, b: nat): int
    requires b > 0
  {
    if a >= 0 then a / b else -(-a / b)
  }

  function Decimal(n: int): string {
    if n < 0 then "-" + Itoa(-n) else Itoa(n)
  }

  function FormatRemaining(ms: int): string {
    if ms < MINUTE then Decimal(Quotient(ms + 999, 1000)) + "s"
    else if ms < HOUR then Decimal(Quotient(ms + 59_999, MINUTE)) + "m"
    else if ms < DAY then Decimal(Quotient(ms + 3_599_999, HOUR)) + "h"
    else Decimal(Quotient(ms + 86_399_999, DAY)) + "d"
  }

  // The letter a remaining time is given in.
  function UnitOf(ms: int): (c: char)
    requires ms >= MINUTE
    ensures Unit(c).Some? && Unit(c).value <= ms
  {
    if ms < HOUR then 'm' else if ms < DAY then 'h' else 'd'
  }

  lemma LowerOfNumber(n: nat, c: char)
    requires 'a' <= c <= 'z'
    ensures Normalize(Itoa(n) + [c]) == Itoa(n) + [c]
  {
    var s := Itoa(n) + [c];
    assert s[0] == Itoa(n)[0] && IsDigit(s[0]);
    assert Trimmed(s, IsGoSpace);
    TrimOfTrimmed(s, IsGoSpace);
    forall i | 0 <= i < |s|
      ensures LowerChar(s[i]) == s[i]
    {
      if i < |Itoa(n)| {
        assert IsDigit(Itoa(n)[i]);
      }
    }
    assert Lower(s) == s;
  }

  lemma RoundedUp(ms: nat, unit: nat) returns (n: nat)
    requires unit > 0
    ensures n == Quotient(ms + unit - 1, unit) && ms <= n * unit < ms + unit
  {
    n := (ms + unit - 1) / unit;
  }

  lemma RoundedUpFits(ms: nat, unit: nat, n: nat)
    requires unit == (if ms < HOUR then MINUTE else if ms < DAY then HOUR else DAY)
    requires ms <= n * unit < ms + unit
    ensures n * unit * 1_000_000 <= MAX_INT64 <==> ms <= 106_751 * DAY
  {
    if ms >= DAY {
      assert n * DAY <= 106_751 * DAY <==> n <= 106_751;
    }
  }

  lemma NanosAreMillis(n: nat, c: char)
    requires Unit(c).Some?
    ensures n * NanosOf(c) == n * Unit(c).value * 1_000_000
  {
  }

  // The text of a remaining time reads back as that time rounded up by less than the unit shown, exactly
  // when the rounded time fits 64 bits of nanoseconds: up to 106751 days.
  lemma RemainingReadsBack(ms: int)
    requires MINUTE <= ms <= MAX_INT64 - DAY
    ensures var d := ParseDuration(FormatRemaining(ms));
      var unit := if ms < 3_600_000 then 60_000 else if ms < 86_400_000 then 3_600_000 else 86_400_000;
      d.Some? && (ms * 1_000_000 <= d.value < (ms + unit) * 1_000_000 <==> ms <= 106_751 * 86_400_000)
  {
    var c, n := RemainingText(ms);
    NumberReads(n, c);
    RoundedUpFits(ms, Unit(c).value, n);
    NanosAreMillis(n, c);
  }

  // The number shown, and its letter.
  lemma RemainingText(ms: int) returns (c: char, n: nat)
    requires MINUTE <= ms
    ensures c == (if ms < HOUR then 'm' else if ms < DAY then 'h' else 'd')
    ensures FormatRemaining(ms) == Itoa(n) + [c] && ms <= n * Unit(c).value < ms + Unit(c).value
    ensures ms <= MAX_INT64 - DAY ==> n <= MAX_INT64
  {
    c := UnitOf(ms);
    n := RoundedUp(ms, Unit(c).value);
    assert n <= n * Unit(c).value;
  }

  // A number and a letter read back.
  lemma NumberReads(n: nat, c: char)
    requires c in {'m', 'h', 'd'} && n <= MAX_INT64
    ensures ParseDuration(Itoa(n) + [c]).Some?
    ensures if n * NanosOf(c) <= MAX_INT64 then ParseDuration(Itoa(n) + [c]) == Some(n * NanosOf(c))
      else ParseDuration(Itoa(n) + [c]).value <= n * NanosOf(c) - TWO_64
  {
    LowerOfNumber(n, c);
    AtoiItoa(n);
    assert Itoa(n) + [c] == Itoa(n) + "" + [c];
    ParsesUnlessItOverflows(Itoa(n) + [c], Itoa(n), "", c);
  }

  lemma {:induction false} TrimLeftKeepsEnd(s: string, space: char -> bool)
    requires s != [] && !space(s[|s| - 1])
    ensures var t := TrimLeft(s, space); t != [] && t[|t| - 1] == s[|s| - 1]
  {
    if space(s[0]) {
      TrimLeftKeepsEnd(s[1..], space);
    }
  }

  lemma NoMatchWithoutUnit(s: string)
    requires s != [] && Unit(s[|s| - 1]).None?
    ensures Match(s).None?
  {
  }

  lemma NoDurationInSeconds(text: string)
    requires text != [] && text[|text| - 1] == 's'
    ensures ParseDuration(text).None?
  {
    TrimLeftKeepsEnd(text, IsGoSpace);
    var t := Trim(text, IsGoSpace);
    assert Normalize(text)[|t| - 1] == 's';
    NoMatchWithoutUnit(Normalize(text));
  }

  // Under a minute the text counts seconds, which parseDuration does not read.
  lemma SecondsAreNotRead(ms: int)
    requires ms < MINUTE
    ensures ParseDuration(FormatRemaining(ms)).None?
  {
    NoDurationInSeconds(FormatRemaining(ms));
  }

  /** What it shows then: the seconds left, rounded up, and zero or less once the time is over. */
  lemma SecondsShown(ms: int) returns (n: int)
    requires ms < 60_000
    ensures FormatRemaining(ms) == (if n < 0 then "-" + Itoa(-n) else Itoa(n)) + "s"
    ensures ms > 0 ==> 0 < n <= 60 && (n - 1) * 1000 < ms <= n * 1000
    ensures -999 <= ms <= 0 ==> n == 0
    ensures ms < -999 ==> (n - 1) * 1000 < ms + 999 <= n * 1000
  {
    n := Quotient(ms + 999, 1000);
  }

  // ---- weiToEth ----

  const MICRO := 1_000_000

  // big.Rat.FloatString(6) of the amount over 10^18 rounds half a millionth up.
  function Micros(wei: nat): nat {
    (wei * MICRO + 500_000_000_000_000_000) / 1_000_000_000_000_000_000
  }

  predicate IsZero(c: char) {
    c == '0'
  }

  predicate IsDot(c: char) {
    c == '.'
  }

  function WeiToEth(wei: nat): string {
    var u := Micros(wei);
    TrimRight(TrimRight(Itoa(u / MICRO) + "." + Pad(u % MICRO, 6), IsZero), IsDot)
  }

  // Whole units and a fraction of at most six digits, in millionths.
  function InMicros(whole: string, fraction: string): nat
    requires AllDigits(whole) && AllDigits(fraction) && |fraction| <= 6
  {
    Atoi(whole) * MICRO + Atoi(fraction) * Pow10(6 - |fraction|)
  }

  // The millionths a decimal text of at most six places stands for.
  function ReadMicros(s: string): Option<nat> {
    var k := Span(s, IsDigit);
    if k == 0 then None
    else if k == |s| then Some(InMicros(s[..k], []))
    else if s[k] != '.' || |s| - k > 7 || !AllDigits(s[k + 1..]) then None
    else Some(InMicros(s[..k], s[k + 1..]))
  }

  lemma {:induction false} TrimRightStops(s: string, f: string, p: char -> bool)
    requires s != [] && !p(s[|s| - 1])
    ensures TrimRight(s + f, p) == s + TrimRight(f, p)
    decreases |f|
  {
    if f == [] {
      assert s + f == s;
    } else {
      assert (s + f)[|s + f| - 1] == f[|f| - 1];
      assert (s + f)[..|s + f| - 1] == s + f[..|f| - 1];
      TrimRightStops(s, f[..|f| - 1], p);
    }
  }

  lemma {:induction false} PadReads(n: nat, w: nat)
    requires n < Pow10(w)
    ensures AllDigits(Pad(n, w)) && Atoi(Pad(n, w)) == n
  {
    if w > 0 {
      PadReads(n / 10, w - 1);
      assert Pad(n, w)[..w - 1] == Pad(n / 10, w - 1);
    }
  }

  lemma OneMoreZero(x: nat, w: nat, y: nat)
    requires x * Pow10(w) == y
    ensures x * Pow10(w + 1) == y * 10
  {
  }

  // Dropping zeros at the end of a fraction does not change what it stands for.
  lemma {:induction false} TrimmedFraction(f: string)
    requires AllDigits(f)
    ensures var g := TrimRight(f, IsZero);
      && g <= f && AllDigits(g) && (g != [] ==> g[|g| - 1] != '0')
      && Atoi(g) * Pow10(|f| - |g|) == Atoi(f)
    decreases |f|
  {
    if f != [] && f[|f| - 1] == '0' {
      var h := f[..|f| - 1];
      TrimmedFraction(h);
      var g := TrimRight(h, IsZero);
      assert TrimRight(f, IsZero) == g && g <= h <= f;
      OneMoreZero(Atoi(g), |h| - |g|, Atoi(h));
    } else {
      assert TrimRight(f, IsZero) == f;
    }
  }

  // Trimming zeros and then dots takes off the fraction's zeros, and its dot when nothing is left of it.
  lemma TrimmedFee(a: string, f: string)
    requires a != [] && AllDigits(a) && AllDigits(f)
    ensures var g := TrimRight(f, IsZero);
      TrimRight(TrimRight(a + "." + f, IsZero), IsDot) == if g == [] then a else a + "." + g
  {
    var g := TrimRight(f, IsZero);
    TrimmedFraction(f);
    TrimRightStops(a + ".", f, IsZero);
    if g == [] {
      assert a + "." + g == a + ".";
      TrimRightStops(a, ".", IsDot);
      assert TrimRight(".", IsDot) == [];
      assert a + [] == a;
    } else {
      TrimRightStops(a + "." + g, [], IsDot);
      assert a + "." + g + [] == a + "." + g;
    }
  }

  // The integer part, and the fraction if there is any.
  lemma FeeParts(wei: nat) returns (a: string, g: string)
    ensures a == Itoa(Micros(wei) / MICRO)
    ensures AllDigits(g) && |g| <= 6 && (g != [] ==> g[|g| - 1] != '0')
    ensures Atoi(g) * Pow10(6 - |g|) == Micros(wei) % MICRO
    ensures WeiToEth(wei) == if g == [] then a else a + "." + g
  {
    var u := Micros(wei);
    a := Itoa(u / MICRO);
    var f := Pad(u % MICRO, 6);
    assert Pow10(6) == MICRO by {
      assert Pow10(4) == 10_000;
    }
    PadReads(u % MICRO, 6);
    g := TrimRight(f, IsZero);
    TrimmedFraction(f);
    TrimmedFee(a, f);
  }

  lemma WholeReads(a: string)
    requires a != [] && AllDigits(a)
    ensures ReadMicros(a) == Some(InMicros(a, []))
  {
    SpanIs(a, IsDigit, |a|);
    assert a[..|a|] == a;
  }

  lemma PartsRead(a: string, g: string)
    requires a != [] && AllDigits(a) && AllDigits(g) && |g| <= 6
    ensures ReadMicros(a + "." + g) == Some(InMicros(a, g))
  {
    var s := a + "." + g;
    SpanIs(s, IsDigit, |a|);
    assert s[..|a|] == a && s[|a| + 1..] == g;
  }

  lemma RoundedToMicros(wei: nat)
    ensures -500_000_000_000 < Micros(wei) * 1_000_000_000_000 - wei <= 500_000_000_000
  {
  }

  // A fee text is within half a millionth of the fee, reads back as the rounded fee, and is canonical:
  // it ends in neither a dot nor, after a dot, a zero.
  lemma FeeTextIsClose(wei: nat)
    ensures var s, u := WeiToEth(wei), Micros(wei);
      && ReadMicros(s) == Some(u)
      && -500_000_000_000 < u * 1_000_000_000_000 - wei <= 500_000_000_000
      && s[|s| - 1] != '.' && ('.' in s ==> s[|s| - 1] != '0')
  {
    RoundedToMicros(wei);
    var a, g := FeeParts(wei);
    AtoiItoa(Micros(wei) / MICRO);
    assert AllDigits(a);
    if g == [] {
      WholeReads(a);
    } else {
      PartsRead(a, g);
    }
  }
}
