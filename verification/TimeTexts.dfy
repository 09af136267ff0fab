/** The characters of a stored time, place by place: what is read, and which of the readable texts is written. */
module TimeTexts {
  import opened Common
  import opened TimeCodec
  import opened TimeParsing

  function Code(c: char): int {
    c as int - 48
  }

  predicate Figure(s: string, i: nat) {
    i < |s| && 48 <= s[i] as int <= 57
  }

  /** Two digits at a place. */
  predicate Two(s: string, i: nat, n: nat) {
    Figure(s, i) && Figure(s, i + 1) && n == 10 * Code(s[i]) + Code(s[i + 1])
  }

  predicate Four(s: string, i: nat, n: nat) {
    && Figure(s, i) && Figure(s, i + 1) && Figure(s, i + 2) && Figure(s, i + 3)
    && n == 1000 * Code(s[i]) + 100 * Code(s[i + 1]) + 10 * Code(s[i + 2]) + Code(s[i + 3])
  }

  predicate At(s: string, i: nat, c: char) {
    i < |s| && s[i] == c
  }

  predicate Figures(s: string) {
    forall i :: 0 <= i < |s| ==> Figure(s, i)
  }

  /** A decimal place of a fraction; places that are not written are zero. */
  function Place(digits: string, k: nat): int {
    if k < |digits| then Code(digits[k]) else 0
  }

  /** The first nine decimal places, as nanoseconds. */
  function Billionths(digits: string): int {
    Place(digits, 0) * 100_000_000 + Place(digits, 1) * 10_000_000 + Place(digits, 2) * 1_000_000
    + Place(digits, 3) * 100_000 + Place(digits, 4) * 10_000 + Place(digits, 5) * 1_000 + Place(digits, 6) * 100
    + Place(digits, 7) * 10 + Place(digits, 8)
  }

  predicate SpellsFraction(s: string, nano: nat) {
    if s == "" then nano == 0
    else |s| >= 2 && (s[0] == '.' || s[0] == ',') && Figures(s[1..]) && nano == Billionths(s[1..])
  }

  predicate SpellsDate(s: string, c: Civil) {
    Four(s, 0, c.year) && At(s, 4, '-') && Two(s, 5, c.month) && At(s, 7, '-') && Two(s, 8, c.day) && At(s, 10, 'T')
  }

  /** Minute, second and fraction, from the place of the minute on. */
  predicate SpellsRest(s: string, i: nat, c: Civil) {
    Two(s, i, c.minute) && At(s, i + 2, ':') && Two(s, i + 3, c.second) && SpellsFraction(s[i + 5..], c.nano)
  }

  /** The clock from the place of the hour on, which has one digit or two. */
  predicate SpellsClock(s: string, i: nat, c: Civil) {
    if At(s, i + 1, ':') then Figure(s, i) && c.hour == Code(s[i]) && SpellsRest(s, i + 2, c)
    else Two(s, i, c.hour) && At(s, i + 2, ':') && SpellsRest(s, i + 3, c)
  }

  /** YYYY-MM-DDTHH:MM:SS and a fraction after a period or a comma; the hour may have one digit only. */
  predicate Spells(s: string, c: Civil) {
    SpellsDate(s, c) && SpellsClock(s, 11, c)
  }

  // ---------- Reading ----------

  lemma {:induction false} FixedOne(s: string)
    ensures Fixed(s, 1) == if Figure(s, 0) then Some((Code(s[0]), s[1..])) else None
  {
  }

  lemma {:induction false} FixedNext(s: string, width: nat)
    ensures Fixed(s, width + 1) ==
            var before := Fixed(s, width);
            if before.Some? && Figure(before.value.1, 0) then
              Some((before.value.0 * 10 + Code(before.value.1[0]), before.value.1[1..]))
            else None
  {
  }

  lemma {:induction false} FixedTwo(s: string)
    ensures Fixed(s, 2) ==
            if Figure(s, 0) && Figure(s, 1) then Some((10 * Code(s[0]) + Code(s[1]), s[2..])) else None
  {
    FixedOne(s);
    FixedNext(s, 1);
  }

  lemma {:induction false} FixedFour(s: string)
    ensures Fixed(s, 4) ==
            if Figure(s, 0) && Figure(s, 1) && Figure(s, 2) && Figure(s, 3) then
              Some((1000 * Code(s[0]) + 100 * Code(s[1]) + 10 * Code(s[2]) + Code(s[3]), s[4..]))
            else None
  {
    hide Fixed;
    FixedTwo(s);
    FixedNext(s, 2);
    FixedNext(s, 3);
    if Figure(s, 0) && Figure(s, 1) && Figure(s, 2) {
      assert s[2..][1..] == s[3..];
    }
  }

  /** Two digits and a mark, from a place of a longer text. */
  lemma {:induction false} MarkedAt(s: string, i: nat, mark: char, n: nat, rest: string)
    requires i <= |s|
    ensures Marked(Fixed(s[i..], 2), mark) == Some((n, rest)) <==>
            Two(s, i, n) && At(s, i + 2, mark) && rest == s[i + 3..]
  {
    hide Fixed;
    FixedTwo(s[i..]);
    if Figure(s, i) && Figure(s, i + 1) {
      assert s[i..][2..] == s[i + 2..];
    }
  }

  lemma {:induction false} YearAt(s: string, n: nat, rest: string)
    ensures Marked(Fixed(s, 4), '-') == Some((n, rest)) <==> Four(s, 0, n) && At(s, 4, '-') && rest == s[5..]
  {
    hide Fixed;
    FixedFour(s);
  }

  lemma {:induction false} HourAt(s: string, i: nat, n: nat, rest: string)
    requires i <= |s|
    ensures Marked(OneOrTwo(s[i..]), ':') == Some((n, rest)) <==>
            if At(s, i + 1, ':') then Figure(s, i) && n == Code(s[i]) && rest == s[i + 2..]
            else Two(s, i, n) && At(s, i + 2, ':') && rest == s[i + 3..]
  {
    hide Fixed;
    FixedTwo(s[i..]);
    FixedOne(s[i..]);
    if Figure(s, i) {
      assert s[i..][1..] == s[i + 1..];
      if Figure(s, i + 1) {
        assert s[i..][2..] == s[i + 2..];
      }
    }
  }

  lemma {:induction false} NanosNext(digits: string, k: nat, places: nat)
    requires Figures(digits)
    ensures Nanos(After(digits, k), places + 1) ==
            Place(digits, k) * Pow10(places) + Nanos(After(digits, k + 1), places)
  {
    if k < |digits| {
      assert Figure(digits, k);
      assert digits[k..][1..] == After(digits, k + 1);
    } else {
      NanosOfNothing(places);
    }
  }

  /** The digits from a place on, if there are any. */
  function After(digits: string, k: nat): string {
    if k < |digits| then digits[k..] else ""
  }

  lemma {:induction false} NanosAreBillionths(digits: string)
    requires Figures(digits)
    ensures Nanos(digits, 9) == Billionths(digits)
  {
    hide Nanos, Place;
    TensAreLiteral();
    NanosNext(digits, 0, 8);
    NanosNext(digits, 1, 7);
    NanosNext(digits, 2, 6);
    NanosNext(digits, 3, 5);
    NanosNext(digits, 4, 4);
    NanosNext(digits, 5, 3);
    NanosNext(digits, 6, 2);
    NanosNext(digits, 7, 1);
    NanosNext(digits, 8, 0);
    NoPlaces(After(digits, 9));
    assert After(digits, 0) == digits;
  }

  lemma {:induction false} TensAreLiteral()
    ensures Pow10(0) == 1 && Pow10(1) == 10 && Pow10(2) == 100 && Pow10(3) == 1_000 && Pow10(4) == 10_000
    ensures Pow10(5) == 100_000 && Pow10(6) == 1_000_000 && Pow10(7) == 10_000_000 && Pow10(8) == 100_000_000
  {
  }

  lemma {:induction false} NoPlaces(digits: string)
    ensures Nanos(digits, 0) == 0
  {
  }

  lemma {:induction false} RunOfFigures(s: string)
    ensures DigitRun(s) == |s| <==> Figures(s)
  {
    if s != "" {
      RunOfFigures(s[1..]);
      if Figures(s) {
        assert Figure(s, 0);
        forall i | 0 <= i < |s| - 1 ensures Figure(s[1..], i) {
          assert Figure(s, i + 1);
        }
      }
      if Figure(s, 0) && Figures(s[1..]) {
        forall i | 0 <= i < |s| ensures Figure(s, i) {
          if i > 0 {
            assert Figure(s[1..], i - 1);
          }
        }
      }
    }
  }

  lemma {:induction false} FractionMeans(s: string, nano: nat)
    ensures FractionOf(s) == (nano, "") <==> SpellsFraction(s, nano)
  {
    hide Nanos, DigitRun, Billionths;
    if |s| >= 2 {
      RunOfFigures(s[1..]);
      assert s[1..][0] == s[1];
      if Figures(s[1..]) {
        assert Figure(s[1..], 0);
        NanosAreBillionths(s[1..]);
        assert s[1..|s|] == s[1..];
      }
    }
  }

  lemma {:induction false} RestMeans(s: string, i: nat, c: Civil)
    requires i <= |s|
    ensures
      var minute := Marked(Fixed(s[i..], 2), ':');
      SpellsRest(s, i, c) <==>
        && minute.Some? && minute.value.0 == c.minute
        && var second := Fixed(minute.value.1, 2);
           second.Some? && second.value.0 == c.second && FractionOf(second.value.1) == (c.nano, "")
  {
    hide Fixed, FractionOf, SpellsFraction;
    MarkedAt(s, i, ':', c.minute, if i + 3 <= |s| then s[i + 3..] else "");
    var minute := Marked(Fixed(s[i..], 2), ':');
    if minute.Some? {
      MarkedAt(s, i, ':', minute.value.0, minute.value.1);
      FixedTwo(s[i + 3..]);
      if i + 5 <= |s| {
        assert s[i + 3..][2..] == s[i + 5..];
        FractionMeans(s[i + 5..], c.nano);
      }
    }
  }

  lemma {:induction false} ClockMeans(year: nat, month: nat, day: nat, s: string, i: nat, c: Civil)
    requires i <= |s|
    ensures ParseClock(year, month, day, s[i..]) == Some(c) <==>
            Valid(c) && SpellsClock(s, i, c) && c.year == year && c.month == month && c.day == day
  {
    hide Fixed, FractionOf, SpellsRest, OneOrTwo, Valid;
    var n := if At(s, i + 1, ':') then 2 else 3;
    HourAt(s, i, c.hour, if i + n <= |s| then s[i + n..] else "");
    var hour := Marked(OneOrTwo(s[i..]), ':');
    if hour.Some? {
      HourAt(s, i, hour.value.0, hour.value.1);
      RestMeans(s, i + n, c);
    }
  }

  /** Exactly the texts that spell a valid time are read, as that time. */
  lemma {:induction false} ReadExactly(s: string, c: Civil)
    ensures ParseSortable(s) == Some(c) <==> Valid(c) && Spells(s, c)
  {
    hide Fixed, ParseClock, SpellsClock, Valid;
    YearAt(s, c.year, if 5 <= |s| then s[5..] else "");
    var year := Marked(Fixed(s, 4), '-');
    if year.Some? {
      YearAt(s, year.value.0, year.value.1);
      MarkedAt(s, 5, '-', c.month, if 8 <= |s| then s[8..] else "");
      var month := Marked(Fixed(year.value.1, 2), '-');
      if month.Some? {
        MarkedAt(s, 5, '-', month.value.0, month.value.1);
        MarkedAt(s, 8, 'T', c.day, if 11 <= |s| then s[11..] else "");
        var day := Marked(Fixed(month.value.1, 2), 'T');
        if day.Some? {
          MarkedAt(s, 8, 'T', day.value.0, day.value.1);
          ClockMeans(year.value.0, month.value.0, day.value.0, s, 11, c);
        }
      }
    }
  }

  // ---------- Writing ----------

  /** Of the texts that spell a time the one with two digits for the hour, a period, and no zero at the end. */
  predicate IsShortest(s: string) {
    && At(s, 13, ':') && 19 <= |s| <= 29
    && (|s| > 19 ==> s[19] == '.' && Last(s) != '0')
  }

  lemma {:induction false} WrittenExactly(c: Civil)
    requires Valid(c)
    ensures Spells(FormatSortable(c), c) && IsShortest(FormatSortable(c))
  {
    hide FormatSortable, ParseSortable, Spells, Valid;
    ParseInvertsFormat(c, _ => None);
    ReadExactly(FormatSortable(c), c);
    WrittenShortest(c);
  }

  lemma {:induction false} WrittenShortest(c: Civil)
    ensures IsShortest(FormatSortable(c))
  {
    hide Digits, TrimZeros;
    assert Head(c)[13] == ':';
    if c.nano != 0 {
      var t := TrimZeros(Digits(c.nano, 9));
      TrimmedLast(Digits(c.nano, 9));
    }
  }

  lemma {:induction false} TrimmedLast(s: string)
    ensures |TrimZeros(s)| <= |s| && (TrimZeros(s) != "" ==> Last(TrimZeros(s)) != '0')
  {
    if s != "" {
      TrimmedLast(s[1..]);
    }
  }

  /** No other text is spelled so. */
  lemma {:induction false} OnlyOneIsShortest(s: string, c: Civil)
    requires Valid(c) && Spells(s, c) && IsShortest(s)
    ensures s == FormatSortable(c)
  {
    hide FormatSortable, Valid;
    WrittenExactly(c);
    SameText(s, FormatSortable(c), c);
  }

  lemma {:induction false} SameDigit(x: int, a: int, y: int, b: int)
    requires 0 <= a <= 9 && 0 <= b <= 9 && 10 * x + a == 10 * y + b
    ensures x == y && a == b
  {
  }

  lemma {:induction false} SameTwo(s: string, t: string, i: nat, n: nat)
    requires Two(s, i, n) && Two(t, i, n)
    ensures s[i] == t[i] && s[i + 1] == t[i + 1]
  {
    SameDigit(Code(s[i]), Code(s[i + 1]), Code(t[i]), Code(t[i + 1]));
  }

  lemma {:induction false} SameFour(s: string, t: string, n: nat)
    requires Four(s, 0, n) && Four(t, 0, n)
    ensures s[0] == t[0] && s[1] == t[1] && s[2] == t[2] && s[3] == t[3]
  {
    SameDigit(100 * Code(s[0]) + 10 * Code(s[1]) + Code(s[2]), Code(s[3]),
              100 * Code(t[0]) + 10 * Code(t[1]) + Code(t[2]), Code(t[3]));
    SameDigit(10 * Code(s[0]) + Code(s[1]), Code(s[2]), 10 * Code(t[0]) + Code(t[1]), Code(t[2]));
    SameDigit(Code(s[0]), Code(s[1]), Code(t[0]), Code(t[1]));
  }

  /** The first so many decimal places as a number. */
  function Leading(digits: string, n: nat): int {
    if n == 0 then 0 else 10 * Leading(digits, n - 1) + Place(digits, n - 1)
  }

  lemma {:induction false} LeadingNext(digits: string, n: nat)
    ensures Leading(digits, n + 1) == 10 * Leading(digits, n) + Place(digits, n) && Leading(digits, 0) == 0
  {
  }

  lemma {:induction false} LeadingNine(digits: string)
    ensures Leading(digits, 9) == Billionths(digits)
  {
    hide Place, Leading;
    LeadingNext(digits, 0);
    LeadingNext(digits, 1);
    LeadingNext(digits, 2);
    LeadingNext(digits, 3);
    LeadingNext(digits, 4);
    LeadingNext(digits, 5);
    LeadingNext(digits, 6);
    LeadingNext(digits, 7);
    LeadingNext(digits, 8);
  }

  lemma {:induction false} SamePlaces(x: string, y: string, n: nat, k: nat)
    requires Figures(x) && Figures(y) && Leading(x, n) == Leading(y, n) && k < n
    ensures Place(x, k) == Place(y, k)
  {
    assert forall d: string :: Figures(d) && n - 1 < |d| ==> Figure(d, n - 1);
    SameDigit(Leading(x, n - 1), Place(x, n - 1), Leading(y, n - 1), Place(y, n - 1));
    if k < n - 1 {
      SamePlaces(x, y, n - 1, k);
    }
  }

  lemma {:induction false} SameFigures(x: string, y: string)
    requires Figures(x) && Figures(y) && |x| <= 9 && |y| <= 9 && Billionths(x) == Billionths(y)
    requires (x != "" ==> Last(x) != '0') && (y != "" ==> Last(y) != '0')
    ensures x == y
  {
    hide Billionths, Leading;
    LeadingNine(x);
    LeadingNine(y);
    assert x != "" ==> Figure(x, |x| - 1);
    assert y != "" ==> Figure(y, |y| - 1);
    if x != "" {
      SamePlaces(x, y, 9, |x| - 1);
    }
    if y != "" {
      SamePlaces(x, y, 9, |y| - 1);
    }
    forall k | 0 <= k < |x| ensures x[k] == y[k] {
      SamePlaces(x, y, 9, k);
    }
  }

  lemma {:induction false} SameTail(s: string, t: string, nano: nat)
    requires |s| <= 10 && |t| <= 10 && SpellsFraction(s, nano) && SpellsFraction(t, nano)
    requires s != "" ==> s[0] == '.' && Last(s) != '0'
    requires t != "" ==> t[0] == '.' && Last(t) != '0'
    ensures s == t
  {
    hide Billionths;
    NoFigures();
    var x, y := if s == "" then "" else s[1..], if t == "" then "" else t[1..];
    assert s != "" ==> Last(x) == Last(s);
    assert t != "" ==> Last(y) == Last(t);
    SameFigures(x, y);
    assert s != "" ==> s == ['.'] + x;
    assert t != "" ==> t == ['.'] + y;
  }

  lemma {:induction false} NoFigures()
    ensures Figures("") && Billionths("") == 0
  {
  }

  lemma {:induction false} SameText(s: string, t: string, c: Civil)
    requires Spells(s, c) && Spells(t, c) && IsShortest(s) && IsShortest(t)
    ensures s == t
  {
    hide Two, Four, SpellsFraction;
    ShortestFields(s, c);
    ShortestFields(t, c);
    SameFour(s, t, c.year);
    SameTwo(s, t, 5, c.month);
    SameTwo(s, t, 8, c.day);
    SameTwo(s, t, 11, c.hour);
    SameTwo(s, t, 14, c.minute);
    SameTwo(s, t, 17, c.second);
    SameTail(s[19..], t[19..], c.nano);
    assert s[..19] == t[..19];
    assert s == s[..19] + s[19..] && t == t[..19] + t[19..];
  }

  lemma {:induction false} ShortestFields(s: string, c: Civil)
    requires Spells(s, c) && IsShortest(s)
    ensures SpellsDate(s, c) && Two(s, 11, c.hour) && Two(s, 14, c.minute) && At(s, 16, ':') && Two(s, 17, c.second)
    ensures At(s, 13, ':') && SpellsFraction(s[19..], c.nano)
    ensures s[19..] != "" ==> s[19..][0] == '.' && Last(s[19..]) != '0'
  {
    hide Four, SpellsFraction;
  }
}
