/**
 * The timestamp of a health message: UTC, proleptic Gregorian calendar, nine digit fraction (section 5 of RFC 3339).
 * An instant is a number of nanoseconds since 0000-01-01T00:00:00Z.
 */
module Timestamp {
  import opened Strings

  const NANOS_PER_SECOND := 1_000_000_000
  const NANOS_PER_DAY := 86_400 * NANOS_PER_SECOND
  // the first instant of the year 10000
  const END := YearStart(10_000) * NANOS_PER_DAY

  // ----- the calendar

  predicate IsLeap(year: nat) {
    year % 4 == 0 && (year % 100 != 0 || year % 400 == 0)
  }

  /** Days before the first of January. */
  function YearStart(year: nat): nat {
    365 * year + (year + 3) / 4 - (year + 99) / 100 + (year + 399) / 400
  }

  lemma YearLength(year: nat)
    ensures YearStart(year + 1) == YearStart(year) + (if IsLeap(year) then 366 else 365)
  {
    RoundUp4(year);
    RoundUp100(year);
    RoundUp400(year);
    Multiples(year);
  }

  // rounded up quotients step exactly at multiples

  lemma Divide4(n: nat, q: nat, r: nat)
    requires n == 4 * q + r && r < 4
    ensures n / 4 == q && n % 4 == r
  {
  }

  lemma RoundUp4(n: nat)
    ensures (n + 4) / 4 == (n + 3) / 4 + (if n % 4 == 0 then 1 else 0)
  {
    var q, r := n / 4, n % 4;
    Divide4(n + 4, q + 1, r);
    if r == 0 {
      Divide4(n + 3, q, 3);
    } else {
      Divide4(n + 3, q + 1, r - 1);
    }
  }

  lemma Divide100(n: nat, q: nat, r: nat)
    requires n == 100 * q + r && r < 100
    ensures n / 100 == q && n % 100 == r
  {
  }

  lemma RoundUp100(n: nat)
    ensures (n + 100) / 100 == (n + 99) / 100 + (if n % 100 == 0 then 1 else 0)
  {
    var q, r := n / 100, n % 100;
    Divide100(n + 100, q + 1, r);
    if r == 0 {
      Divide100(n + 99, q, 99);
    } else {
      Divide100(n + 99, q + 1, r - 1);
    }
  }

  lemma Divide400(n: nat, q: nat, r: nat)
    requires n == 400 * q + r && r < 400
    ensures n / 400 == q && n % 400 == r
  {
  }

  lemma RoundUp400(n: nat)
    ensures (n + 400) / 400 == (n + 399) / 400 + (if n % 400 == 0 then 1 else 0)
  {
    var q, r := n / 400, n % 400;
    Divide400(n + 400, q + 1, r);
    if r == 0 {
      Divide400(n + 399, q, 399);
    } else {
      Divide400(n + 399, q + 1, r - 1);
    }
  }

  lemma Multiples(n: nat)
    ensures n % 400 == 0 ==> n % 100 == 0
    ensures n % 100 == 0 ==> n % 4 == 0
  {
    if n % 100 == 0 {
      Divide4(n, 25 * (n / 100), 0);
    }
    if n % 400 == 0 {
      Divide100(n, 4 * (n / 400), 0);
    }
  }

  lemma {:induction false} YearStartMonotone(a: nat, b: nat)
    requires a <= b
    ensures YearStart(a) <= YearStart(b)
  {
    if a < b {
      YearLength(b - 1);
      YearStartMonotone(a, b - 1);
    }
  }

  /** The year of a day, from its mean length with a correction of at most one. */
  function YearOf(day: nat): (year: nat)
    ensures YearStart(year) <= day < YearStart(year + 1)
  {
    var guess := day * 400 / 146_097;
    YearBounds(guess);
    YearBounds(guess + 2);
    if YearStart(guess + 1) <= day then guess + 1
    else if day < YearStart(guess) then
      YearBounds(guess - 1);
      guess - 1
    else guess
  }

  lemma YearBounds(year: int)
    ensures year >= 0 ==> 146_097 * year - 400 < 400 * YearStart(year) < 146_097 * year + 800
  {
  }

  /** Days of the year before the first of the month; month 13 gives the length of the year. */
  function MonthStart(leap: bool, month: nat): nat
    requires 1 <= month <= 13
  {
    [0, 31, 59, 90, 120, 151, 181, 212, 243, 273, 304, 334, 365][month - 1] + (if leap && month > 2 then 1 else 0)
  }

  function MonthOf(leap: bool, dayOfYear: nat, from: nat): (month: nat)
    requires 1 <= from <= 12 && MonthStart(leap, from) <= dayOfYear < MonthStart(leap, 13)
    ensures 1 <= month <= 12 && MonthStart(leap, month) <= dayOfYear < MonthStart(leap, month + 1)
    decreases 12 - from
  {
    if dayOfYear < MonthStart(leap, from + 1) then from else MonthOf(leap, dayOfYear, from + 1)
  }

  datatype Civil = Civil(year: nat, month: nat, day: nat, hour: nat, minute: nat, second: nat, nano: nat)

  predicate Valid(c: Civil) {
    && c.year <= 9999
    && 1 <= c.month <= 12
    && 1 <= c.day <= MonthStart(IsLeap(c.year), c.month + 1) - MonthStart(IsLeap(c.year), c.month)
    && c.hour < 24 && c.minute < 60 && c.second < 60 && c.nano < NANOS_PER_SECOND
  }

  function DayNumber(c: Civil): nat
    requires Valid(c)
  {
    YearStart(c.year) + MonthStart(IsLeap(c.year), c.month) + c.day - 1
  }

  function NanoOfDay(c: Civil): nat {
    ((c.hour * 60 + c.minute) * 60 + c.second) * NANOS_PER_SECOND + c.nano
  }

  /** The instant a civil time names. */
  function Instant(c: Civil): nat
    requires Valid(c)
  {
    DayNumber(c) * NANOS_PER_DAY + NanoOfDay(c)
  }

  lemma YearWithin(year: nat, day: nat)
    ensures YearStart(year) <= day < YearStart(10_000) ==> year <= 9_999
  {
    if 10_000 <= year {
      YearStartMonotone(10_000, year);
    }
  }

  function WithDate(day: nat, hour: nat, minute: nat, second: nat, nano: nat): (c: Civil)
    requires day < YearStart(10_000) && hour < 24 && minute < 60 && second < 60 && nano < NANOS_PER_SECOND
    ensures Valid(c) && DayNumber(c) == day
    ensures c.hour == hour && c.minute == minute && c.second == second && c.nano == nano
  {
    var year := YearOf(day);
    YearLength(year);
    YearWithin(year, day);
    var dayOfYear := day - YearStart(year);
    var month := MonthOf(IsLeap(year), dayOfYear, 1);
    Civil(year, month, dayOfYear - MonthStart(IsLeap(year), month) + 1, hour, minute, second, nano)
  }

  lemma ClockFields(nanos: nat)
    requires nanos < NANOS_PER_DAY
    ensures var seconds := nanos / NANOS_PER_SECOND;
            && seconds / 3600 < 24 && seconds / 60 % 60 < 60
            && ((seconds / 3600 * 60 + seconds / 60 % 60) * 60 + seconds % 60) * NANOS_PER_SECOND
               + nanos % NANOS_PER_SECOND == nanos
  {
    SplitSeconds(nanos / NANOS_PER_SECOND);
  }

  lemma SplitSeconds(seconds: nat)
    ensures (seconds / 3600 * 60 + seconds / 60 % 60) * 60 + seconds % 60 == seconds
  {
    assert seconds / 3600 == seconds / 60 / 60;
  }

  lemma Recombine(t: nat)
    ensures t / NANOS_PER_DAY * NANOS_PER_DAY + t % NANOS_PER_DAY == t
    ensures t < END ==> t / NANOS_PER_DAY < YearStart(10_000)
  {
  }

  function CivilOf(t: nat): (c: Civil)
    requires t < END
    ensures Valid(c) && Instant(c) == t
  {
    var day, nanos := t / NANOS_PER_DAY, t % NANOS_PER_DAY;
    var seconds := nanos / NANOS_PER_SECOND;
    ClockFields(nanos);
    Recombine(t);
    WithDate(day, seconds / 3600, seconds / 60 % 60, seconds % 60, nanos % NANOS_PER_SECOND)
  }

  // ----- the order of civil times

  predicate DateBefore(a: Civil, b: Civil) {
    a.year < b.year || (a.year == b.year && (a.month < b.month || (a.month == b.month && a.day < b.day)))
  }

  predicate SameDate(a: Civil, b: Civil) {
    a.year == b.year && a.month == b.month && a.day == b.day
  }

  predicate ClockBefore(a: Civil, b: Civil) {
    a.hour < b.hour || (a.hour == b.hour && (a.minute < b.minute || (a.minute == b.minute
    && (a.second < b.second || (a.second == b.second && a.nano < b.nano)))))
  }

  lemma {:induction false} MonthStartMonotone(leap: bool, a: nat, b: nat)
    requires 1 <= a <= b <= 13
    ensures MonthStart(leap, a) <= MonthStart(leap, b)
  {
    if a < b {
      MonthStartMonotone(leap, a, b - 1);
    }
  }

  lemma DateOrder(a: Civil, b: Civil)
    requires Valid(a) && Valid(b) && DateBefore(a, b)
    ensures DayNumber(a) < DayNumber(b)
  {
    if a.year < b.year {
      YearLength(a.year);
      YearStartMonotone(a.year + 1, b.year);
      MonthStartMonotone(IsLeap(a.year), a.month + 1, 13);
    } else if a.month < b.month {
      MonthStartMonotone(IsLeap(a.year), a.month + 1, b.month);
    }
  }

  lemma ClockOrder(a: Civil, b: Civil)
    requires Valid(a) && Valid(b)
    ensures NanoOfDay(a) < NANOS_PER_DAY
    ensures ClockBefore(a, b) ==> NanoOfDay(a) < NanoOfDay(b)
  {
  }

  lemma DayThenClock(d1: nat, n1: nat, d2: nat, n2: nat)
    ensures n1 < NANOS_PER_DAY && n2 < NANOS_PER_DAY ==>
      (d1 * NANOS_PER_DAY + n1 < d2 * NANOS_PER_DAY + n2 <==> d1 < d2 || (d1 == d2 && n1 < n2))
  {
  }

  predicate Before(a: Civil, b: Civil) {
    DateBefore(a, b) || (SameDate(a, b) && ClockBefore(a, b))
  }

  /** Time order is the field by field order of civil times. */
  lemma InstantOrder(a: Civil, b: Civil)
    requires Valid(a) && Valid(b)
    ensures Instant(a) < Instant(b) <==> Before(a, b)
  {
    DayThenClock(DayNumber(a), NanoOfDay(a), DayNumber(b), NanoOfDay(b));
    ClockOrder(a, b);
    ClockOrder(b, a);
    if DateBefore(a, b) {
      DateOrder(a, b);
    } else if DateBefore(b, a) {
      DateOrder(b, a);
    }
  }

  /** A civil time is the only one of its instant. */
  lemma CivilOfInstant(c: Civil)
    requires Valid(c)
    ensures Instant(c) < END && CivilOf(Instant(c)) == c
  {
    ClockOrder(c, c);
    YearLength(c.year);
    YearStartMonotone(c.year + 1, 10_000);
    MonthStartMonotone(IsLeap(c.year), c.month + 1, 13);
    assert DayNumber(c) < YearStart(10_000);
    DayThenClock(DayNumber(c), NanoOfDay(c), YearStart(10_000), 0);
    SameInstant(c, CivilOf(Instant(c)));
  }

  lemma SameInstant(a: Civil, b: Civil)
    requires Valid(a) && Valid(b)
    ensures Instant(a) == Instant(b) ==> a == b
  {
    InstantOrder(a, b);
    InstantOrder(b, a);
  }

  // ----- the text

  function Digit(n: nat): char
    requires n < 10
  {
    ('0' as int + n) as char
  }

  function Digits(n: nat, width: nat): (s: string)
    ensures |s| == width
  {
    if width == 0 then "" else Digits(n / 10, width - 1) + [Digit(n % 10)]
  }

  function Pow10(w: nat): nat {
    if w == 0 then 1 else 10 * Pow10(w - 1)
  }

  /** A number of fixed width and the text after it. */
  datatype Piece = Piece(value: nat, width: nat, separator: string)

  function Text(pieces: seq<Piece>): string {
    if pieces == [] then "" else Digits(pieces[0].value, pieces[0].width) + (pieces[0].separator + Text(pieces[1..]))
  }

  function Pieces(c: Civil): seq<Piece> {
    [Piece(c.year, 4, "-"), Piece(c.month, 2, "-"), Piece(c.day, 2, "T"),
     Piece(c.hour, 2, ":"), Piece(c.minute, 2, ":"), Piece(c.second, 2, "."), Piece(c.nano, 9, "Z")]
  }

  function Format(t: nat): string
    requires t < END
  {
    Text(Pieces(CivilOf(t)))
  }

  lemma {:induction false} DigitsOrder(n: nat, m: nat, w: nat)
    requires n < Pow10(w) && m < Pow10(w)
    ensures LexLess(Digits(n, w), Digits(m, w)) <==> n < m
    ensures Digits(n, w) == Digits(m, w) <==> n == m
  {
    if w > 0 {
      var a, b := Digits(n / 10, w - 1), Digits(m / 10, w - 1);
      var x, y := [Digit(n % 10)], [Digit(m % 10)];
      DigitsOrder(n / 10, m / 10, w - 1);
      LexConcat(a, b, x, y);
      assert LexLess(x, y) <==> n % 10 < m % 10;
      assert (a + x)[..w - 1] == a && (b + y)[..w - 1] == b && (a + x)[w - 1] == x[0] && (b + y)[w - 1] == y[0];
    }
  }

  ghost predicate SameShape(p: seq<Piece>, q: seq<Piece>) {
    && |p| == |q|
    && forall i :: 0 <= i < |p| ==>
      && p[i].width == q[i].width && p[i].separator == q[i].separator
      && p[i].value < Pow10(p[i].width) && q[i].value < Pow10(p[i].width)
  }

  predicate ValuesLess(p: seq<Piece>, q: seq<Piece>)
    requires |p| == |q|
  {
    p != [] && (p[0].value < q[0].value || (p[0].value == q[0].value && ValuesLess(p[1..], q[1..])))
  }

  /** Texts of the same shape are ordered like their values. */
  lemma {:induction false} TextOrder(p: seq<Piece>, q: seq<Piece>)
    requires SameShape(p, q)
    ensures LexLess(Text(p), Text(q)) <==> ValuesLess(p, q)
  {
    if p != [] {
      var w, s := p[0].width, p[0].separator;
      TextOrder(p[1..], q[1..]);
      LexConcat(s, s, Text(p[1..]), Text(q[1..]));
      LexIrreflexive(s);
      DigitsOrder(p[0].value, q[0].value, w);
      LexConcat(Digits(p[0].value, w), Digits(q[0].value, w), s + Text(p[1..]), s + Text(q[1..]));
    }
  }

  lemma PiecesShape(a: Civil, b: Civil)
    requires Valid(a) && Valid(b)
    ensures SameShape(Pieces(a), Pieces(b))
  {
    assert Pow10(2) == 100 && Pow10(4) == 100 * Pow10(2);
    assert Pow10(6) == 100 * Pow10(4) && Pow10(9) == 1000 * Pow10(6);
    MonthStartMonotone(IsLeap(a.year), a.month, a.month + 1);
    MonthStartMonotone(IsLeap(b.year), b.month, b.month + 1);
  }

  lemma ValuesStep(p: seq<Piece>, q: seq<Piece>, i: nat)
    requires i < |p| == |q|
    ensures ValuesLess(p[i..], q[i..])
            <==> p[i].value < q[i].value || (p[i].value == q[i].value && ValuesLess(p[i + 1..], q[i + 1..]))
  {
    assert p[i..][1..] == p[i + 1..] && q[i..][1..] == q[i + 1..];
  }

  lemma ValuesEnd(p: seq<Piece>, q: seq<Piece>)
    requires |p| == |q|
    ensures !ValuesLess(p[|p|..], q[|q|..])
  {
  }

  lemma PiecesOrder(a: Civil, b: Civil)
    requires Valid(a) && Valid(b)
    ensures ValuesLess(Pieces(a), Pieces(b)) <==> Before(a, b)
  {
    hide ValuesLess, IsLeap, MonthStart;
    var p, q := Pieces(a), Pieces(b);
    ValuesEnd(p, q);
    ValuesStep(p, q, 6);
    ValuesStep(p, q, 5);
    ValuesStep(p, q, 4);
    ValuesStep(p, q, 3);
    ValuesStep(p, q, 2);
    ValuesStep(p, q, 1);
    ValuesStep(p, q, 0);
    assert p[0..] == p && q[0..] == q;
  }

  /** In the years 0 to 9999 the string order of timestamps is the time order; so distinct instants differ in text. */
  lemma StringOrderIsTimeOrder(t: nat, u: nat)
    requires t < END && u < END
    ensures LexLess(Format(t), Format(u)) <==> t < u
    ensures Format(t) == Format(u) <==> t == u
  {
    PiecesShape(CivilOf(t), CivilOf(u));
    PiecesOrder(CivilOf(t), CivilOf(u));
    TextOrder(Pieces(CivilOf(t)), Pieces(CivilOf(u)));
    InstantOrder(CivilOf(t), CivilOf(u));
    PiecesShape(CivilOf(u), CivilOf(t));
    PiecesOrder(CivilOf(u), CivilOf(t));
    TextOrder(Pieces(CivilOf(u)), Pieces(CivilOf(t)));
    InstantOrder(CivilOf(u), CivilOf(t));
    LexIrreflexive(Format(t));
  }

  // ----- the columns of the text

  /** The number a decimal text writes. */
  function Value(s: string): nat
    requires forall i :: 0 <= i < |s| ==> '0' <= s[i] <= '9'
  {
    if s == "" then 0 else 10 * Value(s[..|s| - 1]) + (s[|s| - 1] as int - '0' as int)
  }

  lemma {:induction false} ValueOfDigits(n: nat, w: nat)
    requires n < Pow10(w)
    ensures forall i :: 0 <= i < w ==> '0' <= Digits(n, w)[i] <= '9'
    ensures Value(Digits(n, w)) == n
  {
    if w > 0 {
      ValueOfDigits(n / 10, w - 1);
      assert Digits(n, w)[..w - 1] == Digits(n / 10, w - 1);
    }
  }

  /** From column i on, s writes the number n with width w and then the separator. */
  ghost predicate Column(s: string, i: nat, w: nat, n: nat, separator: char) {
    && i + w < |s|
    && (forall k :: i <= k < i + w ==> '0' <= s[k] <= '9')
    && Value(s[i..i + w]) == n
    && s[i + w] == separator
  }

  lemma ColumnStep(p: seq<Piece>, i: nat, s: string, at: nat)
    requires i < |p| && at <= |s| && s[at..] == Text(p[i..])
    requires |p[i].separator| == 1 && p[i].value < Pow10(p[i].width)
    ensures Column(s, at, p[i].width, p[i].value, p[i].separator[0])
    ensures s[at + p[i].width + 1..] == Text(p[i + 1..])
  {
    var w, d, rest := p[i].width, Digits(p[i].value, p[i].width), Text(p[i + 1..]);
    assert p[i..][1..] == p[i + 1..];
    assert s[at..] == d + (p[i].separator + rest);
    ValueOfDigits(p[i].value, w);
    ColumnHere(s, at, d, p[i].separator, rest);
  }

  lemma ColumnHere(s: string, at: nat, d: string, separator: string, rest: string)
    requires at <= |s| && s[at..] == d + (separator + rest) && |separator| == 1
    ensures at + |d| < |s| && s[at..at + |d|] == d && s[at + |d|] == separator[0] && s[at + |d| + 1..] == rest
    ensures forall k :: at <= k < at + |d| ==> s[k] == d[k - at]
  {
    var t := s[at..];
    assert t[..|d|] == d && t[|d|] == separator[0] && t[|d| + 1..] == rest;
    assert s[at..at + |d|] == t[..|d|] && s[at + |d|] == t[|d|] && s[at + |d| + 1..] == t[|d| + 1..];
  }

  lemma TextEnd()
    ensures Text([]) == ""
  {
  }

  lemma DateColumns(c: Civil)
    requires Valid(c)
    ensures var s := Text(Pieces(c));
            && Column(s, 0, 4, c.year, '-') && Column(s, 5, 2, c.month, '-') && Column(s, 8, 2, c.day, 'T')
            && |s| >= 11 && s[11..] == Text(Pieces(c)[3..])
  {
    hide Text, Column;
    var p, s := Pieces(c), Text(Pieces(c));
    PiecesShape(c, c);
    assert p[0..] == p && s[0..] == s;
    ColumnStep(p, 0, s, 0);
    ColumnStep(p, 1, s, 5);
    ColumnStep(p, 2, s, 8);
  }

  lemma ClockColumns(c: Civil, s: string)
    requires Valid(c) && |s| >= 11 && s[11..] == Text(Pieces(c)[3..])
    ensures |s| == 30
    ensures Column(s, 11, 2, c.hour, ':') && Column(s, 14, 2, c.minute, ':') && Column(s, 17, 2, c.second, '.')
    ensures Column(s, 20, 9, c.nano, 'Z')
  {
    hide Text, Column;
    var p := Pieces(c);
    PiecesShape(c, c);
    ColumnStep(p, 3, s, 11);
    ColumnStep(p, 4, s, 14);
    ColumnStep(p, 5, s, 17);
    ColumnStep(p, 6, s, 20);
    TextEnd();
    assert p[7..] == [] && |s[30..]| == 0;
  }

  /** The layout YYYY-MM-DDTHH:MM:SS.nnnnnnnnnZ, each column holding its field of the civil time of the instant. */
  lemma Layout(t: nat)
    requires t < END
    ensures var s, c := Format(t), CivilOf(t);
            && |s| == 30 && Valid(c) && Instant(c) == t
            && Column(s, 0, 4, c.year, '-') && Column(s, 5, 2, c.month, '-') && Column(s, 8, 2, c.day, 'T')
            && Column(s, 11, 2, c.hour, ':') && Column(s, 14, 2, c.minute, ':') && Column(s, 17, 2, c.second, '.')
            && Column(s, 20, 9, c.nano, 'Z')
  {
    hide Text, Column, Pieces;
    DateColumns(CivilOf(t));
    ClockColumns(CivilOf(t), Format(t));
  }
}
