/** What may follow the name of a sample: labels, a value, a timestamp, an exemplar; and which texts are names. */
module PrometheusTails {
  import opened Common
  import opened Exposition
  import opened Prometheus
  import opened PrometheusLaws

  // ---------- Words ----------

  /** The text starts with this word, after a gap and before another gap or nothing. */
  predicate StartsWith(s: string, gap: string, word: string, rest: string) {
    s == gap + word + rest && Blank(gap) && Word(word) && (rest == "" || IsSpace(rest[0]))
  }

  /** The text is made of these words, with white space between them and possibly around them. */
  ghost predicate Worded(s: string, words: seq<string>)
    decreases |words|
  {
    if words == [] then Blank(s)
    else exists gap, rest :: StartsWith(s, gap, words[0], rest) && Worded(rest, words[1..])
  }

  lemma {:induction false} NoGap()
    ensures Blank("")
  {
  }

  lemma {:induction false} TrimLeftOf(gap: string, s: string)
    requires Blank(gap) && (s == "" || !IsSpace(s[0]))
    ensures TrimLeft(gap + s) == s
  {
    hide IsSpace;
    if gap == "" {
      assert gap + s == s;
    } else {
      assert (gap + s)[1..] == gap[1..] + s && (gap + s)[0] == gap[0];
      TrimLeftOf(gap[1..], s);
    }
  }

  lemma {:induction false} WordStarts(w: string, rest: string)
    requires Word(w)
    ensures w + rest != "" && !IsSpace((w + rest)[0])
  {
  }

  lemma {:induction false} FieldsStep(s: string, gap: string, w: string, rest: string)
    requires StartsWith(s, gap, w, rest)
    ensures Fields(s) == [w] + Fields(rest) && |rest| < |s|
  {
    hide IsSpace, Word, Blank;
    WordStarts(w, rest);
    assert gap + w + rest == gap + (w + rest);
    TrimLeftOf(gap, w + rest);
    WordLengthOfWord(w, rest);
    assert (w + rest)[..|w|] == w && (w + rest)[|w|..] == rest;
  }

  lemma {:induction false} WordedIsFields(s: string, words: seq<string>)
    requires Worded(s, words)
    ensures Fields(s) == words
    decreases |words|
  {
    hide IsSpace, StartsWith;
    if words == [] {
      assert s + "" == s;
      TrimLeftOf(s, "");
    } else {
      var gap, rest :| StartsWith(s, gap, words[0], rest) && Worded(rest, words[1..]);
      WordedIsFields(rest, words[1..]);
      FieldsStep(s, gap, words[0], rest);
    }
  }

  lemma {:induction false} FirstWord(s: string)
    requires s != "" && !IsSpace(s[0])
    ensures 0 < WordLength(s) <= |s| && Word(s[..WordLength(s)])
    ensures WordLength(s) < |s| ==> IsSpace(s[WordLength(s)])
  {
    hide IsSpace;
    var rest := s[1..];
    if rest != "" && !IsSpace(rest[0]) {
      FirstWord(rest);
      assert s[..WordLength(s)] == [s[0]] + rest[..WordLength(rest)];
    }
  }

  lemma {:induction false} FieldsAreWorded(s: string)
    ensures Worded(s, Fields(s))
    decreases |s|
  {
    hide IsSpace, StartsWith, Fields;
    var gap := TrimLeftParts(s);
    if TrimLeft(s) == "" {
      NoFields(s);
      assert gap == s;
    } else {
      var w, rest := SplitFirst(s, gap);
      FieldsStep(s, gap, w, rest);
      FieldsAreWorded(rest);
      var words := [w] + Fields(rest);
      assert words[1..] == Fields(rest) && StartsWith(s, gap, words[0], rest);
    }
  }

  lemma {:induction false} NoFields(s: string)
    ensures TrimLeft(s) == "" ==> Fields(s) == []
  {
  }

  lemma {:induction false} SplitFirst(s: string, gap: string) returns (w: string, rest: string)
    requires s == gap + TrimLeft(s) && Blank(gap) && TrimLeft(s) != ""
    ensures StartsWith(s, gap, w, rest)
  {
    hide IsSpace, Blank, Word, TrimLeft, WordLength;
    var t := TrimLeft(s);
    TrimmedStart(s);
    FirstWord(t);
    w, rest := t[..WordLength(t)], t[WordLength(t)..];
    Parted(gap, t, WordLength(t));
  }

  lemma {:induction false} TrimmedStart(s: string)
    ensures TrimLeft(s) == "" || !IsSpace(TrimLeft(s)[0])
  {
  }

  lemma {:induction false} Parted(gap: string, t: string, n: nat)
    requires n <= |t|
    ensures gap + t == gap + t[..n] + t[n..]
  {
  }

  lemma {:induction false} FieldsExactly(s: string, words: seq<string>)
    ensures Fields(s) == words <==> Worded(s, words)
  {
    hide Worded, Fields;
    FieldsAreWorded(s);
    if Worded(s, words) {
      WordedIsFields(s, words);
    }
  }

  // ---------- A value with an optional timestamp ----------

  /** One or two words: a number, and a time as the format writes it, a whole number or any finite one. */
  ghost predicate ReadsNumber(s: string, v: Number, format: Format, numbers: Numbers) {
    exists words ::
      && Worded(s, words) && (|words| == 1 || |words| == 2) && numbers.parseFloat(words[0]) == Some(v)
      && (|words| == 2 && format == TextFormat ==> numbers.isInt64(words[1]))
      && (|words| == 2 && format == OpenMetricsFormat ==> exists x :: numbers.parseFloat(words[1]) == Some(Finite(x)))
  }

  lemma {:induction false} NumberExactly(s: string, v: Number, format: Format, numbers: Numbers)
    ensures ValueAndTimestamp(s, format, numbers) == Success(v) <==> ReadsNumber(s, v, format, numbers)
  {
    hide Worded, Fields;
    FieldsExactly(s, Fields(s));
    if ReadsNumber(s, v, format, numbers) {
      var words :|
        && Worded(s, words) && (|words| == 1 || |words| == 2) && numbers.parseFloat(words[0]) == Some(v)
        && (|words| == 2 && format == TextFormat ==> numbers.isInt64(words[1]))
        && (|words| == 2 && format == OpenMetricsFormat ==>
             exists x :: numbers.parseFloat(words[1]) == Some(Finite(x)));
      FieldsExactly(s, words);
    }
    if ValueAndTimestamp(s, format, numbers) == Success(v) {
      FiniteTime(Fields(s), format, numbers);
    }
  }

  lemma {:induction false} FiniteTime(words: seq<string>, format: Format, numbers: Numbers)
    ensures |words| == 2 && format == OpenMetricsFormat && ValidTimestamp(words[1], format, numbers) ==>
              exists x :: numbers.parseFloat(words[1]) == Some(Finite(x))
  {
    if |words| == 2 && format == OpenMetricsFormat && ValidTimestamp(words[1], format, numbers) {
      var x := numbers.parseFloat(words[1]).value.value;
      assert numbers.parseFloat(words[1]) == Some(Finite(x));
    }
  }

  // ---------- Exemplars ----------

  predicate MarkAt(s: string, i: int) {
    0 <= i && i + 3 <= |s| && s[i] == ' ' && s[i + 1] == '#' && s[i + 2] == ' '
  }

  /** The first exemplar mark of a text. */
  lemma {:induction false} MarkIsFirst(s: string)
    ensures
      var m := ExemplarMark(s);
      && (m.None? ==> forall i :: !MarkAt(s, i))
      && (m.Some? ==> MarkAt(s, m.value) && forall i :: i < m.value ==> !MarkAt(s, i))
  {
    if |s| >= 3 {
      var rest := s[1..];
      MarkIsFirst(rest);
      assert forall i :: i > 0 ==> (MarkAt(s, i) <==> MarkAt(rest, i - 1));
    }
  }

  lemma {:induction false} FieldsOfTrimmed(s: string)
    ensures Fields(Trim(s)) == Fields(s)
  {
    hide IsSpace, Fields;
    var left, right := TrimParts(s);
    FieldsExactly(Trim(s), Fields(Trim(s)));
    WordedAround(left, Trim(s), right, Fields(Trim(s)));
    FieldsExactly(s, Fields(Trim(s)));
  }

  lemma {:induction false} WordedAround(left: string, s: string, right: string, words: seq<string>)
    requires Blank(left) && Blank(right) && Worded(s, words)
    ensures Worded(left + s + right, words)
  {
    hide Worded, Blank;
    WordedBefore(left, s, words);
    WordedBehind(left + s, right, words);
  }

  lemma {:induction false} WordedBefore(left: string, s: string, words: seq<string>)
    requires Blank(left) && Worded(s, words)
    ensures Worded(left + s, words)
  {
    hide Blank, StartsWith;
    if words == [] {
      BlankConcat(left, s);
    } else {
      var gap, rest :| StartsWith(s, gap, words[0], rest) && Worded(rest, words[1..]);
      NoGap();
      StartsAround(left, s, "", gap, words[0], rest);
      assert left + s + "" == left + s && rest + "" == rest;
    }
  }

  lemma {:induction false} WordedBehind(s: string, right: string, words: seq<string>)
    requires Blank(right) && Worded(s, words)
    ensures Worded(s + right, words)
    decreases |words|
  {
    hide Blank, StartsWith;
    if words == [] {
      BlankConcat(s, right);
    } else {
      var gap, rest :| StartsWith(s, gap, words[0], rest) && Worded(rest, words[1..]);
      WordedBehind(rest, right, words[1..]);
      NoGap();
      StartsAround("", s, right, gap, words[0], rest);
      assert "" + s + right == s + right && "" + gap == gap;
    }
  }

  lemma {:induction false} StartsAround(left: string, s: string, right: string, gap: string, word: string, rest: string)
    requires Blank(left) && Blank(right) && StartsWith(s, gap, word, rest)
    ensures StartsWith(left + s + right, left + gap, word, rest + right)
  {
    hide IsSpace, Word;
    assert left + s + right == (left + gap) + word + (rest + right);
  }

  lemma {:induction false} NumberOfTrimmed(s: string, format: Format, numbers: Numbers)
    ensures ValueAndTimestamp(Trim(s), format, numbers) == ValueAndTimestamp(s, format, numbers)
  {
    FieldsOfTrimmed(s);
  }

  /** An exemplar: a label set in braces, then a value with an optional timestamp. */
  ghost predicate Exemplifies(s: string, format: Format, limits: Limits, numbers: Numbers) {
    var e := Trim(s);
    && e != "" && e[0] == '{' && LabelEnd(e[1..], false, false).Some?
    && var end := LabelEnd(e[1..], false, false).value + 1;
    && LabelsFrom(e[1..end], [], limits).Success?
    && ReadsSomeNumber(e[end + 1..], format, numbers)
  }

  ghost predicate ReadsSomeNumber(s: string, format: Format, numbers: Numbers) {
    exists v :: ReadsNumber(s, v, format, numbers)
  }

  lemma {:induction false} ExemplarExactly(s: string, format: Format, limits: Limits, numbers: Numbers)
    ensures CheckExemplar(Trim(s), format, limits, numbers).Success? <==> Exemplifies(s, format, limits, numbers)
  {
    hide LabelsFrom, LabelEnd, Trim, ReadsNumber, ValueAndTimestamp;
    var e := Trim(s);
    if e != "" && e[0] == '{' && LabelEnd(e[1..], false, false).Some? {
      var tail := e[LabelEnd(e[1..], false, false).value + 2..];
      NumberOfTrimmed(tail, format, numbers);
      forall v
        ensures ValueAndTimestamp(tail, format, numbers) == Success(v) <==> ReadsNumber(tail, v, format, numbers)
      {
        NumberExactly(tail, v, format, numbers);
      }
      if ValueAndTimestamp(tail, format, numbers).Success? {
        assert ReadsNumber(tail, ValueAndTimestamp(tail, format, numbers).value, format, numbers);
      }
    }
  }

  /** A value with an optional timestamp, and possibly, in OpenMetrics only, an exemplar behind the first mark. */
  ghost predicate ReadsTail(s: string, v: Number, format: Format, limits: Limits, numbers: Numbers) {
    if forall i :: !MarkAt(s, i) then ReadsNumber(s, v, format, numbers)
    else
      && format == OpenMetricsFormat
      && exists m :: MarkAt(s, m) && (forall i :: i < m ==> !MarkAt(s, i))
                     && ReadsNumber(s[..m], v, format, numbers)
                     && Exemplifies(s[m + 3..], format, limits, numbers)
  }

  lemma {:induction false} TailExactly(s: string, v: Number, format: Format, limits: Limits, numbers: Numbers)
    ensures ParseTail(s, format, limits, numbers) == Success(v) <==> ReadsTail(s, v, format, limits, numbers)
  {
    hide ReadsNumber, ParseTail, Exemplifies, MarkAt;
    MarkIsFirst(s);
    var mark := ExemplarMark(s);
    if mark.None? {
      UnmarkedTail(s, v, format, limits, numbers);
    } else {
      assert MarkAt(s, mark.value);
      MarkedTail(s, mark.value, v, format, limits, numbers);
      forall n | MarkAt(s, n) && forall i :: i < n ==> !MarkAt(s, i) ensures n == mark.value {
        assert !(n < mark.value) && !(mark.value < n);
      }
    }
  }

  lemma {:induction false} UnmarkedTail(s: string, v: Number, format: Format, limits: Limits, numbers: Numbers)
    requires ExemplarMark(s).None?
    ensures ParseTail(s, format, limits, numbers) == Success(v) <==> ReadsNumber(s, v, format, numbers)
  {
    hide ReadsNumber, ValueAndTimestamp;
    NumberExactly(s, v, format, numbers);
  }

  lemma {:induction false} MarkedTail(s: string, m: nat, v: Number, format: Format, limits: Limits, numbers: Numbers)
    requires ExemplarMark(s) == Some(m)
    ensures ParseTail(s, format, limits, numbers) == Success(v) <==>
              && format == OpenMetricsFormat && ReadsNumber(s[..m], v, format, numbers)
              && Exemplifies(s[m + 3..], format, limits, numbers)
  {
    hide ReadsNumber, ValueAndTimestamp, Exemplifies, CheckExemplar, Trim;
    NumberOfTrimmed(s[..m], format, numbers);
    NumberExactly(s[..m], v, format, numbers);
    ExemplarExactly(s[m + 3..], format, limits, numbers);
  }

  // ---------- Names ----------

  lemma {:induction false} NameEndAt(name: string, rest: string)
    requires ValidName(name, true) && rest != "" && rest[0] in "{ \t"
    ensures NameEnd(name + rest) == Some(|name|)
  {
    hide ValidName;
    forall i | 0 <= i < |name| ensures name[i] !in "{ \t" {
      NamesHaveNoSpecials(name, true, i);
    }
    NoneBefore(name, rest);
  }

  lemma {:induction false} NoneBefore(name: string, rest: string)
    requires (forall i :: 0 <= i < |name| ==> name[i] !in "{ \t") && rest != "" && rest[0] in "{ \t"
    ensures NameEnd(name + rest) == Some(|name|)
  {
    if name == "" {
      assert name + rest == rest;
    } else {
      assert (name + rest)[1..] == name[1..] + rest && (name + rest)[0] == name[0];
      NoneBefore(name[1..], rest);
    }
  }

  /** No line is a sample unless a valid name stands before a brace, a blank or a tab. */
  lemma {:induction false} SampleHasName(line: string, format: Format, limits: Limits, numbers: Numbers)
    requires SampleOf(line, format, limits, numbers).Success?
    ensures
      var name := SampleOf(line, format, limits, numbers).value.name;
      ValidName(name, true) && |name| < |line| && line[..|name|] == name && line[|name|] in "{ \t"
  {
    hide ValidName, ParseTail, Trim, LabelsFrom, LabelEnd;
  }

  // ---------- Characters ----------

  /** ASCII letters and the underscore, digits behind the first character, and the colon in metric names. */
  lemma {:induction false} NameCharacters(s: string, colon: bool)
    ensures ValidName(s, colon) <==>
              && |s| > 0 && !(48 <= s[0] as int <= 57)
              && forall i :: 0 <= i < |s| ==>
                               var u := s[i] as int;
                               65 <= u <= 90 || 97 <= u <= 122 || u == 95 || 48 <= u <= 57 || (colon && u == 58)
  {
  }

  /** Of the ASCII characters the blank and those from tab to carriage return are white space. */
  lemma {:induction false} AsciiSpace(c: char)
    requires c as int < 128
    ensures IsSpace(c) <==> c in " \t\n\r" || c as int == 11 || c as int == 12
  {
  }

  /** The characters of a text from some code on. */
  function From(s: string, code: int): nat {
    if s == "" then 0 else From(Init(s), code) + if Last(s) as int >= code then 1 else 0
  }

  /** The length in UTF-8: one byte for each character, and one more from each of three codes on. */
  lemma {:induction false} Utf8LengthMeans(s: string)
    ensures Utf8Length(s) == |s| + From(s, 128) + From(s, 2048) + From(s, 65536)
  {
    if s != "" {
      Utf8LengthMeans(Init(s));
    }
  }
}
