/**
 Timestamps as the envelope service writes them (section 5.1 of RFC 3339, in UTC), and what comparing
 two of them as text decides about the instants they name.
 */
module Timestamps {
  import opened Text

  type Decimal = d: nat | d < 10

  /** A UTC timestamp; `fraction` is the digits after the point, none when there is no point. */
  datatype Stamp = Stamp(year: nat, month: nat, day: nat, hour: nat, minute: nat, second: nat, fraction: seq<Decimal>)

  predicate LeapYear(y: nat) {
    y % 4 == 0 && (y % 100 != 0 || y % 400 == 0)
  }

  function MonthLength(y: nat, m: nat): nat {
    if m == 2 then (if LeapYear(y) then 29 else 28) else if m in {4, 6, 9, 11} then 30 else 31
  }

  predicate Valid(s: Stamp) {
    && s.year < 10000
    && 1 <= s.month <= 12
    && 1 <= s.day <= MonthLength(s.year, s.month)
    && s.hour < 24 && s.minute < 60 && s.second < 60
  }

  // The text.

  function Power10(w: nat): nat {
    if w == 0 then 1 else 10 * Power10(w - 1)
  }

  function Digit(d: Decimal): char
  {
    '0' + d as char
  }

  /** `n` in decimal, padded with zeros to `w` digits. */
  function Digits(n: nat, w: nat): (r: string)
    ensures |r| == w
  {
    if w == 0 then "" else Digits(n / 10, w - 1) + [Digit(n % 10)]
  }

  function FractionDigits(f: seq<Decimal>): string
  {
    if f == [] then "Z" else [Digit(f[0])] + FractionDigits(f[1..])
  }

  function FractionText(f: seq<Decimal>): string
  {
    if f == [] then "Z" else "." + FractionDigits(f)
  }

  function Field(n: nat, w: nat, rest: string): string {
    Digits(n, w) + rest
  }

  function Print(s: Stamp): string
    requires Valid(s)
  {
    Field(s.year, 4, "-" + Field(s.month, 2, "-" + Field(s.day, 2, "T" +
      Field(s.hour, 2, ":" + Field(s.minute, 2, ":" + Field(s.second, 2, FractionText(s.fraction)))))))
  }

  // The instant.

  function YearLength(y: nat): nat {
    if LeapYear(y) then 366 else 365
  }

  function DaysBeforeYear(y: nat): nat {
    if y == 0 then 0 else DaysBeforeYear(y - 1) + YearLength(y - 1)
  }

  function DaysBeforeMonth(y: nat, m: nat): nat {
    if m <= 1 then 0 else DaysBeforeMonth(y, m - 1) + MonthLength(y, m - 1)
  }

  function WholeSeconds(s: Stamp): int {
    ((DaysBeforeYear(s.year) + DaysBeforeMonth(s.year, s.month) + s.day) * 24 + s.hour) * 3600 + s.minute * 60
      + s.second
  }

  function FractionValue(f: seq<Decimal>): real {
    if f == [] then 0.0 else (f[0] as real + FractionValue(f[1..])) / 10.0
  }

  /**
   Seconds since a fixed origin on the proleptic Gregorian calendar without leap seconds, as Go's time counts them.
   */
  function Instant(s: Stamp): real {
    WholeSeconds(s) as real + FractionValue(s.fraction)
  }

  // Numbers of equal width are ordered as their text is.

  lemma {:induction false} DigitsOrder(n: nat, m: nat, w: nat)
    requires n < Power10(w) && m < Power10(w)
    ensures Less(Digits(n, w), Digits(m, w)) <==> n < m
    ensures Digits(n, w) == Digits(m, w) <==> n == m
  {
    if w > 0 {
      DigitsOrder(n / 10, m / 10, w - 1);
      var x, y := Digits(n / 10, w - 1), Digits(m / 10, w - 1);
      LessConcat(x, [Digit(n % 10)], y, [Digit(m % 10)]);
      assert Digits(n, w)[..w - 1] == x && Digits(m, w)[..w - 1] == y;
      assert Digits(n, w)[w - 1] == Digit(n % 10) && Digits(m, w)[w - 1] == Digit(m % 10);
    }
  }

  lemma FieldOrder(n: nat, m: nat, w: nat, x: string, y: string)
    requires n < Power10(w) && m < Power10(w)
    ensures Less(Field(n, w, x), Field(m, w, y)) <==> n < m || (n == m && Less(x, y))
  {
    DigitsOrder(n, m, w);
    LessConcat(Digits(n, w), x, Digits(m, w), y);
  }

  lemma MarkedFieldOrder(mark: char, n: nat, m: nat, w: nat, x: string, y: string)
    requires n < Power10(w) && m < Power10(w)
    ensures Less([mark] + Field(n, w, x), [mark] + Field(m, w, y)) <==> n < m || (n == m && Less(x, y))
  {
    FieldOrder(n, m, w, x, y);
    assert ([mark] + Field(n, w, x))[1..] == Field(n, w, x);
    assert ([mark] + Field(m, w, y))[1..] == Field(m, w, y);
  }

  lemma FieldRanges(s: Stamp)
    requires Valid(s)
    ensures s.year < Power10(4)
    ensures s.month < Power10(2) && s.day < Power10(2) && s.hour < Power10(2) && s.minute < Power10(2)
            && s.second < Power10(2)
  {
    assert Power10(2) == 10 * Power10(1) == 100;
    assert Power10(4) == 10 * Power10(3) == 10000;
  }

  /** `a` is in an earlier whole second than `b`, field by field. */
  predicate EarlierFields(a: Stamp, b: Stamp) {
    a.year < b.year || (a.year == b.year && (
    a.month < b.month || (a.month == b.month && (
    a.day < b.day || (a.day == b.day && (
    a.hour < b.hour || (a.hour == b.hour && (
    a.minute < b.minute || (a.minute == b.minute && a.second < b.second)))))))))
  }

  lemma PrintOrder(a: Stamp, b: Stamp)
    requires Valid(a) && Valid(b)
    ensures Less(Print(a), Print(b)) <==>
            EarlierFields(a, b) || (SameSecond(a, b) && Less(FractionText(a.fraction), FractionText(b.fraction)))
  {
    FieldRanges(a);
    FieldRanges(b);
    var xf, yf := FractionText(a.fraction), FractionText(b.fraction);
    var x1, y1 := ":" + Field(a.second, 2, xf), ":" + Field(b.second, 2, yf);
    MarkedFieldOrder(':', a.second, b.second, 2, xf, yf);
    var x2, y2 := ":" + Field(a.minute, 2, x1), ":" + Field(b.minute, 2, y1);
    MarkedFieldOrder(':', a.minute, b.minute, 2, x1, y1);
    var x3, y3 := "T" + Field(a.hour, 2, x2), "T" + Field(b.hour, 2, y2);
    MarkedFieldOrder('T', a.hour, b.hour, 2, x2, y2);
    var x4, y4 := "-" + Field(a.day, 2, x3), "-" + Field(b.day, 2, y3);
    MarkedFieldOrder('-', a.day, b.day, 2, x3, y3);
    var x5, y5 := "-" + Field(a.month, 2, x4), "-" + Field(b.month, 2, y4);
    MarkedFieldOrder('-', a.month, b.month, 2, x4, y4);
    FieldOrder(a.year, b.year, 4, x5, y5);
  }

  // Field order is calendar order.

  predicate SameSecond(a: Stamp, b: Stamp) {
    a.(fraction := []) == b.(fraction := [])
  }

  lemma {:induction false} YearsAccumulate(y: nat, z: nat)
    requires y < z
    ensures DaysBeforeYear(y) + YearLength(y) <= DaysBeforeYear(z)
  {
    if y + 1 < z {
      YearsAccumulate(y, z - 1);
    }
  }

  lemma {:induction false} MonthsAccumulate(y: nat, m: nat, n: nat)
    requires 1 <= m < n
    ensures DaysBeforeMonth(y, m) + MonthLength(y, m) <= DaysBeforeMonth(y, n)
  {
    if m + 1 < n {
      MonthsAccumulate(y, m, n - 1);
    }
  }

  lemma DayOfYear(s: Stamp)
    requires Valid(s)
    ensures 1 <= DaysBeforeMonth(s.year, s.month) + s.day <= YearLength(s.year)
  {
    var y := s.year;
    assert DaysBeforeMonth(y, 13) == YearLength(y) by {
      assert DaysBeforeMonth(y, 3) == DaysBeforeMonth(y, 2) + MonthLength(y, 2) == 31 + MonthLength(y, 2);
      assert DaysBeforeMonth(y, 5) == DaysBeforeMonth(y, 4) + 30 == DaysBeforeMonth(y, 3) + 61;
      assert DaysBeforeMonth(y, 7) == DaysBeforeMonth(y, 6) + 30 == DaysBeforeMonth(y, 5) + 61;
      assert DaysBeforeMonth(y, 9) == DaysBeforeMonth(y, 8) + 31 == DaysBeforeMonth(y, 7) + 62;
      assert DaysBeforeMonth(y, 11) == DaysBeforeMonth(y, 10) + 31 == DaysBeforeMonth(y, 9) + 61;
      assert DaysBeforeMonth(y, 13) == DaysBeforeMonth(y, 12) + 31 == DaysBeforeMonth(y, 11) + 61;
    }
    MonthsAccumulate(y, s.month, 13);
  }

  lemma EarlierFieldsEarlierSecond(a: Stamp, b: Stamp)
    requires Valid(a) && Valid(b) && EarlierFields(a, b)
    ensures WholeSeconds(a) < WholeSeconds(b)
  {
    DayOfYear(a);
    DayOfYear(b);
    if a.year < b.year {
      YearsAccumulate(a.year, b.year);
    } else if a.month < b.month {
      MonthsAccumulate(a.year, a.month, b.month);
    }
  }

  lemma FieldsTrichotomy(a: Stamp, b: Stamp)
    ensures EarlierFields(a, b) || EarlierFields(b, a) || SameSecond(a, b)
  {}

  // Fractions.

  lemma {:induction false} FractionBounds(f: seq<Decimal>)
    ensures 0.0 <= FractionValue(f) < 1.0
  {
    if f != [] {
      FractionBounds(f[1..]);
    }
  }

  /** One fraction is the other cut short. */
  predicate Truncates(f: seq<Decimal>, g: seq<Decimal>) {
    f != g && (f <= g || g <= f)
  }

  lemma {:induction false} FractionDigitsOrder(f: seq<Decimal>, g: seq<Decimal>)
    requires !Truncates(f, g)
    ensures Less(FractionDigits(f), FractionDigits(g)) <==> FractionValue(f) < FractionValue(g)
  {
    if f != [] && g != [] {
      var x, y := FractionDigits(f), FractionDigits(g);
      assert x[1..] == FractionDigits(f[1..]) && y[1..] == FractionDigits(g[1..]);
      FractionBounds(f[1..]);
      FractionBounds(g[1..]);
      if f[0] == g[0] {
        assert f == [f[0]] + f[1..] && g == [g[0]] + g[1..];
        assert f[1..] <= g[1..] ==> f <= g;
        assert g[1..] <= f[1..] ==> g <= f;
        FractionDigitsOrder(f[1..], g[1..]);
      }
    }
  }

  /** A text cut short is ordered after the longer one, which is never the earlier instant. */
  lemma {:induction false} TruncatedDigitsOrder(f: seq<Decimal>, g: seq<Decimal>)
    requires f < g
    ensures Less(FractionDigits(g), FractionDigits(f))
    ensures FractionValue(f) <= FractionValue(g)
  {
    FractionBounds(g);
    if f != [] {
      assert f[1..] < g[1..];
      TruncatedDigitsOrder(f[1..], g[1..]);
      assert FractionDigits(f)[1..] == FractionDigits(f[1..]);
      assert FractionDigits(g)[1..] == FractionDigits(g[1..]);
    }
  }

  lemma FractionTextOrder(f: seq<Decimal>, g: seq<Decimal>)
    ensures !Truncates(f, g) ==> (Less(FractionText(f), FractionText(g)) <==> FractionValue(f) < FractionValue(g))
    ensures f < g ==> Less(FractionText(g), FractionText(f)) && FractionValue(f) <= FractionValue(g)
  {
    if f != [] && g != [] {
      assert FractionText(f)[1..] == FractionDigits(f) && FractionText(g)[1..] == FractionDigits(g);
    } else {
      FractionBounds(f);
      FractionBounds(g);
    }
    if !Truncates(f, g) {
      FractionDigitsOrder(f, g);
    }
    if f < g {
      TruncatedDigitsOrder(f, g);
    }
  }

  // The results.

  /** Comparing the texts, either way round, decides which instant is earlier. */
  ghost predicate TextDecides(a: Stamp, b: Stamp)
    requires Valid(a) && Valid(b)
  {
    && (Less(Print(a), Print(b)) <==> Instant(a) < Instant(b))
    && (Less(Print(b), Print(a)) <==> Instant(b) < Instant(a))
  }

  lemma DifferentSecondsDecide(a: Stamp, b: Stamp)
    requires Valid(a) && Valid(b) && EarlierFields(a, b)
    ensures Less(Print(a), Print(b)) && Instant(a) < Instant(b) && TextDecides(a, b)
  {
    PrintOrder(a, b);
    PrintOrder(b, a);
    EarlierFieldsEarlierSecond(a, b);
    FractionBounds(a.fraction);
    FractionBounds(b.fraction);
  }

  /**
   The exact condition under which the text order is the chronological order: it is, unless both stamps lie
   in one second and one is written with the other's fraction cut short.
   */
  lemma TextOrderIsTimeOrder(a: Stamp, b: Stamp)
    requires Valid(a) && Valid(b)
    ensures TextDecides(a, b) <==> !(SameSecond(a, b) && Truncates(a.fraction, b.fraction))
  {
    FieldsTrichotomy(a, b);
    if EarlierFields(a, b) {
      DifferentSecondsDecide(a, b);
    } else if EarlierFields(b, a) {
      DifferentSecondsDecide(b, a);
    } else {
      PrintOrder(a, b);
      PrintOrder(b, a);
      FractionTextOrder(a.fraction, b.fraction);
      FractionTextOrder(b.fraction, a.fraction);
      var wa, wb := WholeSeconds(a), WholeSeconds(b);
      assert wa == wb;
    }
  }

  /** Stamps written with one width of fraction are always ordered as their instants are. */
  lemma FixedWidthTextOrder(a: Stamp, b: Stamp)
    requires Valid(a) && Valid(b) && |a.fraction| == |b.fraction|
    ensures Less(Print(a), Print(b)) <==> Instant(a) < Instant(b)
  {
    TextOrderIsTimeOrder(a, b);
  }

  /** Half a second past 12:00:00 is later than 12:00:00, and its text is smaller. */
  lemma MixedWidthTextOrderFails()
    ensures exists a, b :: Valid(a) && Valid(b) && Instant(a) < Instant(b) && Less(Print(b), Print(a))
  {
    var a := Stamp(2026, 8, 12, 12, 0, 0, []);
    var b := a.(fraction := [5]);
    assert FractionValue([5]) == (5.0 + FractionValue([])) / 10.0;
    PrintOrder(b, a);
    FractionTextOrder([], [5]);
    assert Valid(a) && Valid(b) && Instant(a) < Instant(b) && Less(Print(b), Print(a));
  }
}
