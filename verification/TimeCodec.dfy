/** The sortable text form of stored times: implicit UTC, with a fraction of as few digits as needed. */
module TimeCodec {
  import opened Identity

  // ---------- Times ----------

  /** A UTC time by its calendar fields. */
  datatype Civil = Civil(year: nat, month: nat, day: nat, hour: nat, minute: nat, second: nat, nano: nat)

  predicate LeapYear(year: nat) {
    year % 4 == 0 && (year % 100 != 0 || year % 400 == 0)
  }

  function MonthLength(year: nat, month: nat): nat {
    if month == 2 then (if LeapYear(year) then 29 else 28)
    else if month == 4 || month == 6 || month == 9 || month == 11 then 30 else 31
  }

  predicate Valid(c: Civil) {
    && c.year <= 9999 && 1 <= c.month <= 12 && 1 <= c.day <= MonthLength(c.year, c.month)
    && c.hour < 24 && c.minute < 60 && c.second < 60 && c.nano < 1_000_000_000
  }

  /** Days from the start of year 0 to the start of a month. */
  function DaysBefore(year: nat, month: nat): nat
    requires 1 <= month <= 13
    decreases year, month
  {
    if month > 1 then DaysBefore(year, month - 1) + MonthLength(year, month - 1)
    else if year > 0 then DaysBefore(year - 1, 13)
    else 0
  }

  /** Nanoseconds since the start of year 0. */
  function Instant(c: Civil): nat
    requires Valid(c)
  {
    ((((DaysBefore(c.year, c.month) + c.day - 1) * 24 + c.hour) * 60 + c.minute) * 60 + c.second) * 1_000_000_000
        + c.nano
  }

  // ---------- Text ----------

  function Digit(d: nat): char
    requires d < 10
  {
    "0123456789"[d]
  }

  function Digits(n: nat, width: nat): (r: string)
    ensures |r| == width
  {
    if width == 0 then "" else Digits(n / 10, width - 1) + [Digit(n % 10)]
  }

  /** Without the zeros at the end. */
  function TrimZeros(s: string): string {
    if s == "" then ""
    else
      var t := TrimZeros(s[1..]);
      if t == "" && s[0] == '0' then "" else [s[0]] + t
  }

  function Fraction(nano: nat): string {
    if nano == 0 then "" else "." + TrimZeros(Digits(nano, 9))
  }

  function Head(c: Civil): (r: string)
    ensures |r| == 19
  {
    Digits(c.year, 4) + "-" + Digits(c.month, 2) + "-" + Digits(c.day, 2) + "T"
    + Digits(c.hour, 2) + ":" + Digits(c.minute, 2) + ":" + Digits(c.second, 2)
  }

  function FormatSortable(c: Civil): string {
    Head(c) + Fraction(c.nano)
  }

  // ---------- Lexical order ----------

  lemma {:induction false} LessOfConcat(a: string, x: string, b: string, y: string)
    requires |a| == |b|
    ensures Less(a + x, b + y) <==> Less(a, b) || (a == b && Less(x, y))
  {
    if a == "" {
      assert a + x == x && b + y == y;
    } else {
      assert (a + x)[1..] == a[1..] + x && (b + y)[1..] == b[1..] + y;
      LessOfConcat(a[1..], x, b[1..], y);
      assert a == [a[0]] + a[1..] && b == [b[0]] + b[1..];
    }
  }

  function Pow10(n: nat): (p: nat)
    ensures p > 0
  {
    if n == 0 then 1 else 10 * Pow10(n - 1)
  }

  lemma {:induction false} DigitOrder(d: nat, e: nat)
    requires d < 10 && e < 10
    ensures Less([Digit(d)], [Digit(e)]) <==> d < e
    ensures Digit(d) == Digit(e) <==> d == e
  {
    DigitCode(d);
    DigitCode(e);
  }

  lemma {:induction false} DigitCode(d: nat)
    requires d < 10
    ensures Digit(d) as int == '0' as int + d
  {
  }

  lemma {:induction false} DivideOrder(m: nat, n: nat)
    ensures m < n <==> m / 10 < n / 10 || (m / 10 == n / 10 && m % 10 < n % 10)
    ensures m == n <==> m / 10 == n / 10 && m % 10 == n % 10
  {
  }

  /** Fixed-width decimals order as numbers do. */
  lemma {:induction false} DigitsOrder(m: nat, n: nat, width: nat)
    requires m < Pow10(width) && n < Pow10(width)
    ensures Less(Digits(m, width), Digits(n, width)) <==> m < n
    ensures Digits(m, width) == Digits(n, width) <==> m == n
  {
    if width > 0 {
      var a, b := Digits(m / 10, width - 1), Digits(n / 10, width - 1);
      DigitsOrder(m / 10, n / 10, width - 1);
      LessOfConcat(a, [Digit(m % 10)], b, [Digit(n % 10)]);
      DigitOrder(m % 10, n % 10);
      DivideOrder(m, n);
      SplitAtWidth(a, Digit(m % 10), b, Digit(n % 10));
    }
  }

  lemma {:induction false} SplitAtWidth(a: string, c: char, b: string, d: char)
    requires |a| == |b|
    ensures a + [c] == b + [d] <==> a == b && c == d
  {
    assert (a + [c])[..|a|] == a && (b + [d])[..|b|] == b;
    assert (a + [c])[|a|] == c && (b + [d])[|b|] == d;
  }

  predicate AllDigits(s: string) {
    forall i :: 0 <= i < |s| ==> '0' <= s[i] <= '9'
  }

  lemma {:induction false} DigitsAreDigits(n: nat, width: nat)
    ensures AllDigits(Digits(n, width))
  {
    if width > 0 {
      DigitsAreDigits(n / 10, width - 1);
      DigitCode(n % 10);
    }
  }

  /** Cutting zeros at the end does not disturb the order of equally long digit strings. */
  lemma {:induction false} TrimKeepsOrder(x: string, y: string)
    requires |x| == |y| && AllDigits(x) && AllDigits(y)
    ensures Less(TrimZeros(x), TrimZeros(y)) <==> Less(x, y)
    ensures TrimZeros(x) == TrimZeros(y) <==> x == y
  {
    if x != "" {
      TrimKeepsOrder(x[1..], y[1..]);
      ConsOrder(x[0], x[1..], y[0], y[1..]);
      ConsOrder(x[0], TrimZeros(x[1..]), y[0], TrimZeros(y[1..]));
      assert x == [x[0]] + x[1..] && y == [y[0]] + y[1..];
      TrimmedIsEmpty(x);
      TrimmedIsEmpty(y);
      AllZeroIsLeast(x, y);
      AllZeroIsLeast(y, x);
    }
  }

  lemma {:induction false} ConsOrder(c: char, x: string, d: char, y: string)
    ensures Less([c] + x, [d] + y) <==> c < d || (c == d && Less(x, y))
    ensures [c] + x == [d] + y <==> c == d && x == y
  {
    assert ([c] + x)[1..] == x && ([d] + y)[1..] == y;
    assert ([c] + x)[0] == c && ([d] + y)[0] == d;
  }

  predicate AllZero(s: string) {
    forall i :: 0 <= i < |s| ==> s[i] == '0'
  }

  lemma {:induction false} TrimmedIsEmpty(s: string)
    ensures TrimZeros(s) == "" <==> AllZero(s)
  {
    if s != "" {
      TrimmedIsEmpty(s[1..]);
      assert s == [s[0]] + s[1..];
    }
  }

  lemma {:induction false} AllZeroIsLeast(x: string, y: string)
    requires |x| == |y| && AllDigits(x) && AllDigits(y)
    ensures AllZero(x) ==> !Less(y, x) && (x == y || Less(x, y))
  {
    if x != "" {
      AllZeroIsLeast(x[1..], y[1..]);
      assert x == [x[0]] + x[1..] && y == [y[0]] + y[1..];
    }
  }

  // ---------- The order of formatted times ----------

  lemma {:induction false} NanoFits(nano: nat)
    requires nano < 1_000_000_000
    ensures nano < Pow10(9)
  {
    assert Pow10(9) == 10 * 10 * 10 * Pow10(6) == 1_000_000_000 by {
      assert Pow10(6) == 10 * 10 * 10 * Pow10(3) && Pow10(3) == 1000;
    }
  }

  lemma {:induction false} ZeroDigits(width: nat)
    ensures AllZero(Digits(0, width))
  {
    if width > 0 {
      ZeroDigits(width - 1);
    }
  }

  lemma {:induction false} DigitsOfZeroOnly(n: nat, width: nat)
    requires n < Pow10(width)
    ensures AllZero(Digits(n, width)) <==> n == 0
  {
    ZeroDigits(width);
    if AllZero(Digits(n, width)) {
      SameZeros(Digits(n, width), Digits(0, width));
      ZeroFits(width);
      DigitsOrder(n, 0, width);
    }
  }

  lemma {:induction false} ZeroFits(width: nat)
    ensures 0 < Pow10(width)
  {
  }

  lemma {:induction false} SameZeros(a: string, b: string)
    requires |a| == |b| && AllZero(a) && AllZero(b)
    ensures a == b
  {
  }

  /** Variable-width fractions order as the nanoseconds do. */
  lemma {:induction false} FractionOrder(m: nat, n: nat)
    requires m < 1_000_000_000 && n < 1_000_000_000
    ensures Less(Fraction(m), Fraction(n)) <==> m < n
    ensures Fraction(m) == Fraction(n) <==> m == n
  {
    hide Digits, TrimZeros, AllDigits, AllZero;
    NanoFits(m);
    NanoFits(n);
    var x, y := Digits(m, 9), Digits(n, 9);
    DigitsOrder(m, n, 9);
    DigitsAreDigits(m, 9);
    DigitsAreDigits(n, 9);
    TrimKeepsOrder(x, y);
    ConsOrder('.', TrimZeros(x), '.', TrimZeros(y));
    assert "." + TrimZeros(x) == ['.'] + TrimZeros(x) && "." + TrimZeros(y) == ['.'] + TrimZeros(y);
  }

  /** Whether the fields down to the second come first. */
  predicate HeadBefore(a: Civil, b: Civil) {
    || a.year < b.year
    || (a.year == b.year
        && (|| a.month < b.month
            || (a.month == b.month
                && (|| a.day < b.day
                    || (a.day == b.day && ClockBefore(a, b))))))
  }

  predicate ClockBefore(a: Civil, b: Civil) {
    || a.hour < b.hour
    || (a.hour == b.hour && (a.minute < b.minute || (a.minute == b.minute && a.second < b.second)))
  }

  predicate SameHead(a: Civil, b: Civil) {
    a.(nano := 0) == b.(nano := 0)
  }

  lemma {:induction false} PaddedOrder(m: nat, n: nat, width: nat, sep: string, x: string, y: string)
    requires m < Pow10(width) && n < Pow10(width) && |x| == |y|
    ensures
      var a, b := Digits(m, width) + (sep + x), Digits(n, width) + (sep + y);
      && |a| == |b|
      && (Less(a, b) <==> m < n || (m == n && Less(x, y)))
      && (a == b <==> m == n && x == y)
  {
    hide Digits;
    var p, q := Digits(m, width), Digits(n, width);
    DigitsOrder(m, n, width);
    LessOfConcat(p, sep + x, q, sep + y);
    LessOfConcat(sep, x, sep, y);
    LessIsStrict(sep, sep);
    SameConcat(p, sep + x, q, sep + y);
    SameConcat(sep, x, sep, y);
  }

  lemma {:induction false} SameConcat(a: string, x: string, b: string, y: string)
    requires |a| == |b|
    ensures a + x == b + y <==> a == b && x == y
  {
    if a + x == b + y {
      SplitAt(a, x, b, y);
    }
  }

  lemma {:induction false} SmallPowers()
    ensures Pow10(2) == 100 && Pow10(4) == 10000
  {
    assert Pow10(2) == 10 * Pow10(1) == 100;
    assert Pow10(4) == 10 * Pow10(3) == 100 * Pow10(2);
  }

  /** The head, taken apart from the left. */
  function Clock(c: Civil): string {
    Digits(c.hour, 2) + (":" + (Digits(c.minute, 2) + (":" + Digits(c.second, 2))))
  }

  function Nested(c: Civil): string {
    Digits(c.year, 4) + ("-" + (Digits(c.month, 2) + ("-" + (Digits(c.day, 2) + ("T" + Clock(c))))))
  }

  lemma {:induction false} HeadIsNested(c: Civil)
    ensures Head(c) == Nested(c)
  {
    hide Digits;
  }

  lemma {:induction false} ClockOrder(a: Civil, b: Civil)
    requires Valid(a) && Valid(b)
    ensures |Clock(a)| == |Clock(b)|
    ensures Less(Clock(a), Clock(b)) <==> ClockBefore(a, b)
    ensures Clock(a) == Clock(b) <==> a.hour == b.hour && a.minute == b.minute && a.second == b.second
  {
    hide Digits, Less;
    SmallPowers();
    DigitsOrder(a.second, b.second, 2);
    PaddedOrder(a.minute, b.minute, 2, ":", Digits(a.second, 2), Digits(b.second, 2));
    var x, y := Digits(a.minute, 2) + (":" + Digits(a.second, 2)), Digits(b.minute, 2) + (":" + Digits(b.second, 2));
    PaddedOrder(a.hour, b.hour, 2, ":", x, y);
  }

  lemma {:induction false} HeadOrder(a: Civil, b: Civil)
    requires Valid(a) && Valid(b)
    ensures Less(Head(a), Head(b)) <==> HeadBefore(a, b)
    ensures Head(a) == Head(b) <==> SameHead(a, b)
  {
    hide Digits, Less, Clock, ClockBefore, Head;
    SmallPowers();
    HeadIsNested(a);
    HeadIsNested(b);
    ClockOrder(a, b);
    PaddedOrder(a.day, b.day, 2, "T", Clock(a), Clock(b));
    var x, y := Digits(a.day, 2) + ("T" + Clock(a)), Digits(b.day, 2) + ("T" + Clock(b));
    PaddedOrder(a.month, b.month, 2, "-", x, y);
    var x', y' := Digits(a.month, 2) + ("-" + x), Digits(b.month, 2) + ("-" + y);
    PaddedOrder(a.year, b.year, 4, "-", x', y');
  }

  lemma {:induction false} DaysBeforeNext(year: nat, month: nat)
    requires 1 <= month <= 12
    ensures DaysBefore(year, month + 1) == DaysBefore(year, month) + MonthLength(year, month)
    ensures month == 12 ==> DaysBefore(year + 1, 1) == DaysBefore(year, month) + MonthLength(year, month)
  {
  }

  /** The Gregorian calendar: 365 days a year, one more in every fourth, none more in every hundredth, and again one
      more in every four hundredth, before the months of the year so far. */
  lemma {:induction false} DaysAddUp(year: nat, month: nat)
    requires 1 <= month <= 13
    ensures
      var leapDay := if year % 4 == 0 && (year % 100 != 0 || year % 400 == 0) then 1 else 0;
      DaysBefore(year, month) ==
        365 * year + (year + 3) / 4 - (year + 99) / 100 + (year + 399) / 400
        + (367 * month - 362) / 12 - (if month <= 2 then 0 else 2 - leapDay)
    decreases year, month
  {
    hide DaysBefore, MonthLength;
    if month > 1 {
      DaysAddUp(year, 1);
      MonthsAddUp(year, month);
    } else if year > 0 {
      DaysAddUp(year - 1, 13);
      DaysBeforeNext(year - 1, 12);
      YearsAddUp(year - 1);
    } else {
      FirstDay();
    }
  }

  /** The day count of the years, from one to the next. */
  lemma {:induction false} YearsAddUp(n: nat)
    ensures
      var leapDay := if n % 4 == 0 && (n % 100 != 0 || n % 400 == 0) then 1 else 0;
      (n + 4) / 4 - (n + 100) / 100 + (n + 400) / 400 == (n + 3) / 4 - (n + 99) / 100 + (n + 399) / 400 + leapDay
  {
    MultipleAdds(n, 4);
    MultipleAdds(n, 100);
    MultipleAdds(n, 400);
    Centuries(n);
  }

  lemma {:induction false} FirstDay()
    ensures DaysBefore(0, 1) == 0
  {
  }

  lemma {:induction false} MultipleAdds(n: nat, d: int)
    requires d == 4 || d == 100 || d == 400
    ensures (n + d) / d == (n + d - 1) / d + if n % d == 0 then 1 else 0
  {
    var q := n / d;
    QuotientIs(n + d, d, q + 1);
    QuotientIs(n + d - 1, d, if n % d == 0 then q else q + 1);
  }

  lemma {:induction false} QuotientIs(x: int, d: int, q: int)
    requires d > 0 && d * q <= x < d * q + d
    ensures x / d == q
  {
    var p := x / d;
    assert d * p <= x < d * p + d;
    assert d * (p - q) == d * p - d * q && d * (q - p) == d * q - d * p;
    if p > q {
      AtLeast(d, p - q);
    } else if q > p {
      AtLeast(d, q - p);
    }
  }

  lemma {:induction false} Centuries(n: nat)
    ensures n % 400 == 0 ==> n % 100 == 0
    ensures n % 100 == 0 ==> n % 4 == 0
  {
    if n % 400 == 0 {
      MultipleOf(n, 100, 4 * (n / 400));
    }
    if n % 100 == 0 {
      MultipleOf(n, 4, 25 * (n / 100));
    }
  }

  lemma {:induction false} MultipleOf(n: int, d: int, k: int)
    requires d > 0 && n == d * k
    ensures n % d == 0
  {
    var r := n - d * (n / d);
    assert r == d * (k - n / d) && 0 <= r < d;
    Vanishes(d, k - n / d);
  }

  lemma {:induction false} Vanishes(d: int, j: int)
    requires d > 0 && 0 <= d * j < d
    ensures j == 0
  {
    if j >= 1 {
      AtLeast(d, j);
    }
  }

  lemma {:induction false} AtLeast(d: int, j: int)
    requires d > 0 && j >= 1
    ensures d * j >= d
  {
    if j > 1 {
      AtLeast(d, j - 1);
    }
  }

  lemma {:induction false} MonthsAddUp(year: nat, month: nat)
    requires 1 <= month <= 13
    ensures
      var leapDay := if year % 4 == 0 && (year % 100 != 0 || year % 400 == 0) then 1 else 0;
      DaysBefore(year, month) ==
        DaysBefore(year, 1) + (367 * month - 362) / 12 - (if month <= 2 then 0 else 2 - leapDay)
  {
    hide DaysBefore;
    if month > 1 {
      MonthsAddUp(year, month - 1);
      DaysBeforeNext(year, month - 1);
    }
  }

  /** Later months start no earlier than the month before them ends. */
  lemma {:induction false} MonthsAscend(y: nat, m: nat, y': nat, m': nat)
    requires 1 <= m <= 12 && 1 <= m' <= 12 && (y < y' || (y == y' && m < m'))
    ensures DaysBefore(y, m) + MonthLength(y, m) <= DaysBefore(y', m')
    decreases y', m'
  {
    hide MonthLength;
    DaysBeforeNext(y, m);
    if m' > 1 {
      DaysBeforeNext(y', m' - 1);
      if !(y == y' && m == m' - 1) {
        MonthsAscend(y, m, y', m' - 1);
      }
    } else {
      DaysBeforeNext(y' - 1, 12);
      if !(y == y' - 1 && m == 12) {
        MonthsAscend(y, m, y' - 1, 12);
      }
    }
  }

  function SecondsOf(c: Civil): nat
    requires Valid(c)
  {
    (((DaysBefore(c.year, c.month) + c.day - 1) * 24 + c.hour) * 60 + c.minute) * 60 + c.second
  }

  lemma {:induction false} SecondsOrder(a: Civil, b: Civil)
    requires Valid(a) && Valid(b)
    ensures HeadBefore(a, b) ==> SecondsOf(a) < SecondsOf(b)
    ensures SameHead(a, b) ==> SecondsOf(a) == SecondsOf(b)
    ensures HeadBefore(a, b) || SameHead(a, b) || HeadBefore(b, a)
  {
    hide MonthLength, DaysBefore;
    if a.year < b.year || (a.year == b.year && a.month < b.month) {
      MonthsAscend(a.year, a.month, b.year, b.month);
    }
  }

  lemma {:induction false} InstantOrder(a: Civil, b: Civil)
    requires Valid(a) && Valid(b)
    ensures Instant(a) < Instant(b) <==> HeadBefore(a, b) || (SameHead(a, b) && a.nano < b.nano)
  {
    hide MonthLength, DaysBefore, HeadBefore, SecondsOf;
    SecondsOrder(a, b);
    SecondsOrder(b, a);
    InstantOfSeconds(a);
    InstantOfSeconds(b);
  }

  lemma {:induction false} InstantOfSeconds(c: Civil)
    requires Valid(c)
    ensures Instant(c) == SecondsOf(c) * 1_000_000_000 + c.nano
  {
  }

  /** For years 0000 to 9999 the text order is the time order, to the nanosecond, whatever zeros were cut. */
  lemma {:induction false} TextOrderIsTimeOrder(a: Civil, b: Civil)
    requires Valid(a) && Valid(b)
    ensures Less(FormatSortable(a), FormatSortable(b)) <==> Instant(a) < Instant(b)
    ensures FormatSortable(a) == FormatSortable(b) <==> a == b
  {
    hide Head, Fraction, Instant, HeadBefore;
    LessOfConcat(Head(a), Fraction(a.nano), Head(b), Fraction(b.nano));
    SameConcat(Head(a), Fraction(a.nano), Head(b), Fraction(b.nano));
    HeadOrder(a, b);
    FractionOrder(a.nano, b.nano);
    InstantOrder(a, b);
  }
}
