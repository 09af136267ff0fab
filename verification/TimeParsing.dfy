/** Reading stored times back: the sortable form first, then the legacy form with a zone. */
module TimeParsing {
  import opened Common
  import opened TimeCodec

  function Value(c: char): Option<nat> {
    if '0' <= c <= '9' then Some(c as int - '0' as int) else None
  }

  /** Exactly `width` digits and what follows them. */
  function Fixed(s: string, width: nat): (r: Option<(nat, string)>)
    ensures r.Some? ==> |r.value.1| + width == |s|
  {
    if width == 0 then Some((0, s))
    else
      var before := Fixed(s, width - 1);
      if before.None? || before.value.1 == "" || Value(before.value.1[0]).None? then None
      else Some((before.value.0 * 10 + Value(before.value.1[0]).value, before.value.1[1..]))
  }

  /** One or two digits, as an hour may have. */
  function OneOrTwo(s: string): Option<(nat, string)> {
    if Fixed(s, 2).Some? then Fixed(s, 2) else Fixed(s, 1)
  }

  function Behind(s: string, mark: char): Option<string> {
    if s != "" && s[0] == mark then Some(s[1..]) else None
  }

  /** Two digits and a mark. */
  function Marked(r: Option<(nat, string)>, mark: char): Option<(nat, string)> {
    if r.None? || Behind(r.value.1, mark).None? then None
    else Some((r.value.0, Behind(r.value.1, mark).value))
  }

  function DigitRun(s: string): (n: nat)
    ensures n <= |s|
  {
    if s == "" || Value(s[0]).None? then 0 else 1 + DigitRun(s[1..])
  }

  /** The digits of a fraction as nanoseconds: digits beyond the ninth are ignored, missing ones are zero. */
  function Nanos(digits: string, places: nat): nat {
    if places == 0 then 0
    else if digits == "" then 10 * Nanos("", places - 1)
    else
      var digit := if Value(digits[0]).Some? then Value(digits[0]).value else 0;
      digit * Pow10(places - 1) + Nanos(digits[1..], places - 1)
  }

  /** An optional fraction after a period or a comma, and what follows it. */
  function FractionOf(s: string): (nat, string) {
    if |s| >= 2 && (s[0] == '.' || s[0] == ',') && Value(s[1]).Some? then
      var n := DigitRun(s[1..]);
      (Nanos(s[1..n + 1], 9), s[n + 1..])
    else (0, s)
  }

  function ParseSortable(s: string): (r: Option<Civil>)
    ensures r.Some? ==> Valid(r.value)
  {
    var year := Marked(Fixed(s, 4), '-');
    if year.None? then None
    else
      var month := Marked(Fixed(year.value.1, 2), '-');
      if month.None? then None
      else
        var day := Marked(Fixed(month.value.1, 2), 'T');
        if day.None? then None else ParseClock(year.value.0, month.value.0, day.value.0, day.value.1)
  }

  function ParseClock(year: nat, month: nat, day: nat, s: string): (r: Option<Civil>)
    ensures r.Some? ==> Valid(r.value)
  {
    var hour := Marked(OneOrTwo(s), ':');
    if hour.None? then None
    else
      var minute := Marked(Fixed(hour.value.1, 2), ':');
      if minute.None? then None
      else
        var second := Fixed(minute.value.1, 2);
        if second.None? then None
        else
          var (nano, rest) := FractionOf(second.value.1);
          var c := Civil(year, month, day, hour.value.0, minute.value.0, second.value.0, nano);
          if rest == "" && Valid(c) then Some(c) else None
  }

  /** The legacy form is whatever the zoned parser reads. */
  function ParseStored(s: string, legacy: string -> Option<Civil>): Option<Civil> {
    if ParseSortable(s).Some? then ParseSortable(s) else legacy(s)
  }

  // ---------- Reading back fixed fields ----------

  lemma {:induction false} DigitHasValue(d: nat)
    requires d < 10
    ensures Value(Digit(d)) == Some(d)
  {
    DigitCode(d);
  }

  lemma {:induction false} FixedReadsBack(n: nat, width: nat, rest: string)
    requires n < Pow10(width)
    ensures Fixed(Digits(n, width) + rest, width) == Some((n, rest))
  {
    var s := Digits(n, width) + rest;
    if width == 0 {
      assert s == rest;
    } else {
      var d := Digit(n % 10);
      assert s == Digits(n / 10, width - 1) + ([d] + rest);
      FixedReadsBack(n / 10, width - 1, [d] + rest);
      DigitHasValue(n % 10);
      assert ([d] + rest)[0] == d && ([d] + rest)[1..] == rest;
    }
  }

  lemma {:induction false} MarkedReadsBack(n: nat, width: nat, mark: char, rest: string)
    requires n < Pow10(width)
    ensures Marked(Fixed(Digits(n, width) + ([mark] + rest), width), mark) == Some((n, rest))
  {
    FixedReadsBack(n, width, [mark] + rest);
    assert ([mark] + rest)[1..] == rest;
  }

  lemma {:induction false} HourReadsBack(n: nat, rest: string)
    requires n < 100
    ensures Marked(OneOrTwo(Digits(n, 2) + (":" + rest)), ':') == Some((n, rest))
  {
    hide Digits, Fixed;
    SmallPowers();
    FixedReadsBack(n, 2, ":" + rest);
    assert (":" + rest)[1..] == rest;
  }

  // ---------- Reading back fractions ----------

  lemma {:induction false} DigitRunOfDigits(s: string)
    requires AllDigits(s)
    ensures DigitRun(s) == |s|
  {
    if s != "" {
      DigitRunOfDigits(s[1..]);
    }
  }

  lemma {:induction false} NanosOfNothing(places: nat)
    ensures Nanos("", places) == 0
  {
    if places > 0 {
      NanosOfNothing(places - 1);
    }
  }

  /** Zeros cut from the end do not count. */
  lemma {:induction false} TrimmedNanos(s: string, places: nat)
    requires AllDigits(s)
    ensures Nanos(TrimZeros(s), places) == Nanos(s, places) && AllDigits(TrimZeros(s))
  {
    if s != "" && places > 0 {
      TrimmedNanos(s[1..], places - 1);
      assert s == [s[0]] + s[1..];
      var t := TrimZeros(s[1..]);
      if t == "" && s[0] == '0' {
        NanosOfNothing(places - 1);
        NanosOfNothing(places);
      } else {
        assert ([s[0]] + t)[1..] == t;
      }
    } else if s != "" {
      TrimmedDigits(s);
    }
  }

  lemma {:induction false} TrimmedDigits(s: string)
    requires AllDigits(s)
    ensures AllDigits(TrimZeros(s))
  {
    if s != "" {
      TrimmedDigits(s[1..]);
    }
  }

  /** A number of `width` digits read as the front of a fraction. */
  lemma {:induction false} NanosOfDigits(n: nat, width: nat, places: nat)
    requires n < Pow10(width) && width <= places
    ensures Nanos(Digits(n, width), places) == n * Pow10(places - width)
  {
    if width == 0 {
      NanosOfNothing(places);
    } else {
      var front, d := Digits(n / 10, width - 1), Digit(n % 10);
      NanosOfDigits(n / 10, width - 1, places);
      DigitHasValue(n % 10);
      NanosAppend(front, d, places);
      DigitsAreDigits(n / 10, width - 1);
      PowerStep(n, places - width);
    }
  }

  lemma {:induction false} PowerStep(n: nat, k: nat)
    ensures n / 10 * Pow10(k + 1) + n % 10 * Pow10(k) == n * Pow10(k)
  {
    var p := Pow10(k);
    assert n == 10 * (n / 10) + n % 10;
    assert n / 10 * (10 * p) == 10 * (n / 10) * p;
  }

  lemma {:induction false} NanosAppend(s: string, c: char, places: nat)
    requires |s| < places && Value(c).Some?
    ensures Nanos(s + [c], places) == Nanos(s, places) + Value(c).value * Pow10(places - |s| - 1)
  {
    if s == "" {
      assert s + [c] == [c] && [c][1..] == "";
      NanosOfNothing(places - 1);
      NanosOfNothing(places);
    } else {
      assert (s + [c])[1..] == s[1..] + [c];
      NanosAppend(s[1..], c, places - 1);
    }
  }

  lemma {:induction false} FractionReadsBack(nano: nat)
    requires nano < 1_000_000_000
    ensures FractionOf(Fraction(nano)) == (nano, "")
  {
    hide Digits, Nanos, TrimZeros, DigitRun;
    if nano != 0 {
      var t := TrimZeros(Digits(nano, 9));
      var s := "." + t;
      NanoFits(nano);
      DigitsAreDigits(nano, 9);
      TrimmedNanos(Digits(nano, 9), 9);
      NanosOfDigits(nano, 9, 9);
      assert Pow10(0) == 1;
      TrimmedIsEmpty(Digits(nano, 9));
      DigitsOfZeroOnly(nano, 9);
      assert s[1..] == t && t != "" && s[1] == t[0];
      DigitRunOfDigits(t);
      assert s[1..|t| + 1] == t && s[|t| + 1..] == "";
    }
  }

  // ---------- Round trips ----------

  lemma {:induction false} ClockReadsBack(c: Civil)
    requires Valid(c)
    ensures ParseClock(c.year, c.month, c.day, Clock(c) + Fraction(c.nano)) == Some(c)
  {
    hide Digits, Fixed, OneOrTwo, Marked, FractionOf, Fraction, MonthLength;
    SmallPowers();
    var f := Fraction(c.nano);
    var seconds := Digits(c.second, 2) + f;
    var minutes := Digits(c.minute, 2) + (":" + seconds);
    assert Clock(c) + f == Digits(c.hour, 2) + (":" + minutes);
    HourReadsBack(c.hour, minutes);
    MarkedReadsBack(c.minute, 2, ':', seconds);
    FixedReadsBack(c.second, 2, f);
    FractionReadsBack(c.nano);
  }

  lemma {:induction false} FormattedSplits(c: Civil)
    ensures FormatSortable(c) ==
            Digits(c.year, 4)
            + (['-'] + (Digits(c.month, 2) + (['-'] + (Digits(c.day, 2) + (['T'] + (Clock(c) + Fraction(c.nano)))))))
  {
    hide Digits, Clock, Fraction, Head;
    HeadIsNested(c);
  }

  /** Reading inverts formatting for every time of the years 0000 to 9999, without asking the legacy parser. */
  lemma {:induction false} ParseInvertsFormat(c: Civil, legacy: string -> Option<Civil>)
    requires Valid(c)
    ensures ParseStored(FormatSortable(c), legacy) == Some(c)
  {
    hide Digits, Fixed, Marked, Clock, Fraction, ParseClock, FormatSortable;
    SmallPowers();
    FormattedSplits(c);
    var clock := Clock(c) + Fraction(c.nano);
    var days := Digits(c.day, 2) + (['T'] + clock);
    var months := Digits(c.month, 2) + (['-'] + days);
    MarkedReadsBack(c.year, 4, '-', months);
    MarkedReadsBack(c.month, 2, '-', days);
    MarkedReadsBack(c.day, 2, 'T', clock);
    ClockReadsBack(c);
  }

  /** Whatever is read, by either parser's sortable form, is written back in the one canonical way: two texts that read
      as the same time are reformatted alike, and reformatting once is enough. */
  lemma {:induction false} ReformatIsCanonical(s: string, legacy: string -> Option<Civil>)
    requires ParseSortable(s).Some?
    ensures
      var text := FormatSortable(ParseSortable(s).value);
      ParseStored(text, legacy) == ParseSortable(s) && FormatSortable(ParseStored(text, legacy).value) == text
  {
    hide ParseSortable, FormatSortable;
    ParseInvertsFormat(ParseSortable(s).value, legacy);
  }

  lemma {:induction false} FractionStopsAt(nano: nat, zone: char)
    requires nano < 1_000_000_000 && Value(zone).None? && zone != '.' && zone != ','
    ensures FractionOf(Fraction(nano) + [zone]) == (nano, [zone])
  {
    hide Digits, Nanos, TrimZeros, DigitRun;
    if nano == 0 {
      assert Fraction(nano) + [zone] == [zone];
    } else {
      var t := TrimZeros(Digits(nano, 9));
      var s := "." + t + [zone];
      NanoFits(nano);
      DigitsAreDigits(nano, 9);
      TrimmedNanos(Digits(nano, 9), 9);
      NanosOfDigits(nano, 9, 9);
      assert Pow10(0) == 1;
      TrimmedIsEmpty(Digits(nano, 9));
      DigitsOfZeroOnly(nano, 9);
      assert s[1..] == t + [zone] && t != "" && s[1] == t[0];
      DigitRunStops(t, zone);
      assert s[1..|t| + 1] == t && s[|t| + 1..] == [zone];
    }
  }

  lemma {:induction false} DigitRunStops(s: string, zone: char)
    requires AllDigits(s) && Value(zone).None?
    ensures DigitRun(s + [zone]) == |s|
  {
    if s == "" {
      assert s + [zone] == [zone];
    } else {
      assert (s + [zone])[1..] == s[1..] + [zone];
      DigitRunStops(s[1..], zone);
    }
  }

  /** The zoned form that identities and older rows use is left to the legacy parser. */
  lemma {:induction false} ZonedTextIsLegacy(c: Civil, legacy: string -> Option<Civil>)
    requires Valid(c)
    ensures ParseStored(FormatSortable(c) + "Z", legacy) == legacy(FormatSortable(c) + "Z")
  {
    hide Digits, Fixed, Marked, Clock, Fraction, ParseClock, FormatSortable;
    SmallPowers();
    FormattedSplits(c);
    var clock := Clock(c) + Fraction(c.nano) + "Z";
    var days := Digits(c.day, 2) + (['T'] + clock);
    var months := Digits(c.month, 2) + (['-'] + days);
    assert FormatSortable(c) + "Z" == Digits(c.year, 4) + (['-'] + months);
    MarkedReadsBack(c.year, 4, '-', months);
    MarkedReadsBack(c.month, 2, '-', days);
    MarkedReadsBack(c.day, 2, 'T', clock);
    ZonedClockIsRefused(c);
  }

  lemma {:induction false} ZonedClockIsRefused(c: Civil)
    requires Valid(c)
    ensures ParseClock(c.year, c.month, c.day, Clock(c) + Fraction(c.nano) + "Z").None?
  {
    hide Digits, Fixed, OneOrTwo, Marked, FractionOf, Fraction, MonthLength;
    SmallPowers();
    var f := Fraction(c.nano) + "Z";
    var seconds := Digits(c.second, 2) + f;
    var minutes := Digits(c.minute, 2) + (":" + seconds);
    assert Clock(c) + Fraction(c.nano) + "Z" == Digits(c.hour, 2) + (":" + minutes);
    HourReadsBack(c.hour, minutes);
    MarkedReadsBack(c.minute, 2, ':', seconds);
    FixedReadsBack(c.second, 2, f);
    FractionStopsAt(c.nano, 'Z');
    assert f == Fraction(c.nano) + ['Z'];
  }
}
