/** Printing samples with the format's escapes and parsing them back. */
module PrometheusLaws {
  import opened Common
  import opened Exposition
  import opened Prometheus

  // ---------- Printing ----------

  /** The three escapes of a label value. */
  function EscapeValue(v: string): string {
    if v == "" then ""
    else
      var first := if v[0] == '\n' then "\\n" else if v[0] == '\\' || v[0] == '"' then ['\\', v[0]] else [v[0]];
      first + EscapeValue(v[1..])
  }

  function PrintLabel(l: Label): string {
    l.name + "=\"" + EscapeValue(l.value) + "\""
  }

  function PrintLabels(labels: seq<Label>): string {
    if labels == [] then ""
    else if |labels| == 1 then PrintLabel(labels[0])
    else PrintLabel(labels[0]) + "," + PrintLabels(labels[1..])
  }

  /** A line for a sample: `value` and `timestamp` are number texts. */
  function PrintSample(name: string, labels: seq<Label>, value: string, timestamp: Option<string>): string {
    name + "{" + PrintLabels(labels) + "} " + value + (if timestamp.Some? then " " + timestamp.value else "")
  }

  /** Label sets the limits allow, after `earlier` ones. */
  ghost predicate Printable(labels: seq<Label>, limits: Limits) {
    && |labels| <= limits.maxLabels
    && DistinctNames(labels)
    && forall l :: l in labels ==> ValidName(l.name, false) && |l.name| + Utf8Length(l.value) <= limits.maxLabelBytes
  }

  predicate Word(s: string) {
    s != "" && forall i :: 0 <= i < |s| ==> !IsSpace(s[i])
  }

  // ---------- Strings ----------

  lemma {:induction false} TrimNothing(s: string)
    requires s != "" && !IsSpace(s[0]) && !IsSpace(Last(s))
    ensures Trim(s) == s
  {
  }

  lemma {:induction false} TrimLeadingBlank(s: string)
    ensures Trim(" " + s) == Trim(s)
  {
    assert (" " + s)[1..] == s;
  }

  lemma {:induction false} NamesHaveNoSpecials(name: string, colon: bool, i: nat)
    requires ValidName(name, colon) && i < |name|
    ensures !IsSpace(name[i]) && name[i] !in "{}=\",#\\ \t\n"
  {
    assert NameChar(name[i], colon, i == 0);
  }

  lemma {:induction false} IndexOfFirst(a: string, c: char, b: string)
    requires c !in a
    ensures IndexOf(a + [c] + b, c) == Some(|a|)
  {
    if a != "" {
      assert (a + [c] + b)[1..] == a[1..] + [c] + b;
      assert forall x :: x in a[1..] ==> x in a;
      IndexOfFirst(a[1..], c, b);
    }
  }

  lemma {:induction false} NameEndFirst(a: string, b: string)
    requires forall i :: 0 <= i < |a| ==> a[i] !in "{ \t"
    ensures NameEnd(a + "{" + b) == Some(|a|)
  {
    if a != "" {
      assert (a + "{" + b)[1..] == a[1..] + "{" + b;
      NameEndFirst(a[1..], b);
    }
  }

  lemma {:induction false} NotIn(s: string, c: char)
    requires forall i :: 0 <= i < |s| ==> s[i] != c
    ensures c !in s
  {
  }

  // ---------- Values ----------

  lemma {:induction false} UnquoteEscape(e: char, tail: string)
    requires Unescaped(e).Some?
    ensures Unquote(['\\', e] + tail) == Prefixed(Unescaped(e).value, 2, Unquote(tail))
  {
    assert (['\\', e] + tail)[2..] == tail;
  }

  lemma {:induction false} UnquotePlain(c: char, tail: string)
    requires c != '"' && c != '\\'
    ensures Unquote([c] + tail) == Prefixed(c, 1, Unquote(tail))
  {
    assert ([c] + tail)[1..] == tail;
  }

  lemma {:induction false} UnquoteEnd(rest: string)
    ensures Unquote("\"" + rest) == Success(("", 1))
  {
  }

  /** A printed value is read back, wherever it stands. */
  lemma {:induction false} UnquoteReadsBack(v: string, rest: string)
    ensures Unquote(EscapeValue(v) + "\"" + rest) == Success((v, |EscapeValue(v)| + 1))
  {
    hide Unquote;
    var s := EscapeValue(v) + "\"" + rest;
    if v == "" {
      assert s == "\"" + rest;
      UnquoteEnd(rest);
    } else {
      var tail := EscapeValue(v[1..]) + "\"" + rest;
      UnquoteReadsBack(v[1..], rest);
      assert v == [v[0]] + v[1..];
      if v[0] == '\n' || v[0] == '\\' || v[0] == '"' {
        var e := if v[0] == '\n' then 'n' else v[0];
        assert s == ['\\', e] + tail;
        UnquoteEscape(e, tail);
      } else {
        assert s == [v[0]] + tail;
        UnquotePlain(v[0], tail);
      }
    }
  }

  function Shifted(n: nat, r: Option<nat>): Option<nat> {
    if r.Some? then Some(n + r.value) else None
  }

  lemma {:induction false} EscapeSkipped(e: char, tail: string)
    ensures LabelEnd(['\\', e] + tail, false, true) == Shifted(2, LabelEnd(tail, false, true))
  {
    var s := ['\\', e] + tail;
    assert s[1..] == [e] + tail;
    assert ([e] + tail)[1..] == tail;
  }

  lemma {:induction false} PlainSkipped(c: char, tail: string, quoted: bool)
    requires c != '"' && if quoted then c != '\\' else c != '}'
    ensures LabelEnd([c] + tail, false, quoted) == Shifted(1, LabelEnd(tail, false, quoted))
  {
    assert ([c] + tail)[1..] == tail;
  }

  lemma {:induction false} QuoteSkipped(tail: string, quoted: bool)
    ensures LabelEnd("\"" + tail, false, quoted) == Shifted(1, LabelEnd(tail, false, !quoted))
  {
    assert ("\"" + tail)[1..] == tail;
  }

  /** The scan for the brace skips a printed value, whatever is in it. */
  lemma {:induction false} LabelEndSkipsValue(v: string, rest: string)
    ensures LabelEnd(EscapeValue(v) + "\"" + rest, false, true) ==
        Shifted(|EscapeValue(v)| + 1, LabelEnd(rest, false, false))
  {
    hide LabelEnd;
    var s := EscapeValue(v) + "\"" + rest;
    if v == "" {
      assert s == "\"" + rest;
      QuoteSkipped(rest, true);
    } else {
      var tail := EscapeValue(v[1..]) + "\"" + rest;
      LabelEndSkipsValue(v[1..], rest);
      if v[0] == '\n' || v[0] == '\\' || v[0] == '"' {
        var e := if v[0] == '\n' then 'n' else v[0];
        assert s == ['\\', e] + tail;
        EscapeSkipped(e, tail);
      } else {
        assert s == [v[0]] + tail;
        PlainSkipped(v[0], tail, true);
      }
    }
  }

  /** Text without braces and quotes is skipped as well. */
  lemma {:induction false} LabelEndSkipsPlain(plain: string, rest: string)
    requires forall i :: 0 <= i < |plain| ==> plain[i] != '}' && plain[i] != '"'
    ensures LabelEnd(plain + rest, false, false) == Shifted(|plain|, LabelEnd(rest, false, false))
  {
    if plain == "" {
      assert plain + rest == rest;
    } else {
      assert plain + rest == [plain[0]] + (plain[1..] + rest);
      PlainSkipped(plain[0], plain[1..] + rest, false);
      LabelEndSkipsPlain(plain[1..], rest);
    }
  }

  // ---------- Labels ----------

  lemma {:induction false} PrintedLabelSplits(l: Label, rest: string)
    requires ValidName(l.name, false)
    ensures
      var s := PrintLabel(l) + rest;
      var quoted := "\"" + EscapeValue(l.value) + "\"" + rest;
      && IndexOf(s, '=') == Some(|l.name|) && s[..|l.name|] == l.name && s[|l.name| + 1..] == quoted
      && Trim(l.name) == l.name != ""
  {
    hide ValidName, IsSpace, Trim;
    var s := PrintLabel(l) + rest;
    var quoted := "\"" + EscapeValue(l.value) + "\"" + rest;
    assert s == l.name + "=" + quoted;
    forall i | 0 <= i < |l.name| ensures l.name[i] != '=' && !IsSpace(l.name[i]) {
      NamesHaveNoSpecials(l.name, false, i);
    }
    NotIn(l.name, '=');
    IndexOfFirst(l.name, '=', quoted);
    NameIsNotEmpty(l.name);
    TrimNothing(l.name);
  }

  lemma {:induction false} QuotedReadsBack(v: string, rest: string)
    requires rest == "" || (!IsSpace(rest[0]) && !IsSpace(Last(rest)))
    ensures
      var quoted := "\"" + EscapeValue(v) + "\"" + rest;
      && Trim(quoted) == quoted && Unquote(quoted[1..]) == Success((v, |EscapeValue(v)| + 1))
      && Trim(quoted[1 + (|EscapeValue(v)| + 1)..]) == rest
  {
    hide IsSpace, Trim, EscapeValue, Unquote;
    var quoted := "\"" + EscapeValue(v) + "\"" + rest;
    QuoteIsNoSpace();
    assert Last(quoted) == if rest == "" then '"' else Last(rest);
    TrimNothing(quoted);
    assert quoted[1..] == EscapeValue(v) + "\"" + rest;
    UnquoteReadsBack(v, rest);
    assert quoted[1 + (|EscapeValue(v)| + 1)..] == rest;
    TrimEmpty();
    if rest != "" {
      TrimNothing(rest);
    }
  }

  lemma {:induction false} OneLabelReadsBack(l: Label, rest: string, labels: seq<Label>, limits: Limits)
    requires ValidName(l.name, false) && !HasLabel(labels, l.name)
    requires |l.name| + Utf8Length(l.value) <= limits.maxLabelBytes
    requires rest == "" || (!IsSpace(rest[0]) && !IsSpace(Last(rest)))
    ensures OneLabel(PrintLabel(l) + rest, labels, limits) == Success((l, rest))
  {
    hide ValidName, IsSpace, HasLabel, Utf8Length, Trim, EscapeValue, Unquote, IndexOf, PrintLabel;
    PrintedLabelSplits(l, rest);
    QuotedReadsBack(l.value, rest);
    OneLabelOf(PrintLabel(l) + rest, labels, limits, l, "\"" + EscapeValue(l.value) + "\"" + rest,
               |EscapeValue(l.value)| + 1, rest);
  }

  lemma {:induction false} OneLabelOf(s: string, labels: seq<Label>, limits: Limits, l: Label, quoted: string, n: nat,
                                      rest: string)
    requires IndexOf(s, '=') == Some(|l.name|) && s[..|l.name|] == l.name && s[|l.name| + 1..] == quoted
    requires Trim(l.name) == l.name != "" && ValidName(l.name, false) && !HasLabel(labels, l.name)
    requires Trim(quoted) == quoted != "" && quoted[0] == '"' && Unquote(quoted[1..]) == Success((l.value, n))
    requires Trim(quoted[1 + n..]) == rest && |l.name| + Utf8Length(l.value) <= limits.maxLabelBytes
    ensures OneLabel(s, labels, limits) == Success((l, rest))
  {
    hide ValidName, IsSpace, HasLabel, Utf8Length, Trim, Unquote, IndexOf;
  }

  lemma {:induction false} QuoteIsNoSpace()
    ensures !IsSpace('"') && !IsSpace(',') && !IsSpace('{') && !IsSpace('}')
  {
  }

  lemma {:induction false} TrimEmpty()
    ensures Trim("") == ""
  {
  }

  lemma {:induction false} NameIsNotEmpty(name: string)
    requires ValidName(name, false)
    ensures name != ""
  {
  }

  lemma {:induction false} PrintedShape(labels: seq<Label>, limits: Limits)
    requires labels != [] && forall l :: l in labels ==> ValidName(l.name, false)
    ensures
      var s := PrintLabels(labels);
      s != "" && !IsSpace(s[0]) && Last(s) == '"'
  {
    assert labels[0] in labels;
    NamesHaveNoSpecials(labels[0].name, false, 0);
    if |labels| > 1 {
      PrintedShape(labels[1..], limits);
    }
  }

  ghost predicate FreshNames(labels: seq<Label>, earlier: seq<Label>) {
    forall i :: 0 <= i < |labels| ==> !HasLabel(earlier, labels[i].name)
  }

  lemma {:induction false} NamesStayFresh(labels: seq<Label>, earlier: seq<Label>)
    requires labels != [] && DistinctNames(labels) && FreshNames(labels, earlier)
    ensures FreshNames(labels[1..], earlier + [labels[0]]) && DistinctNames(labels[1..])
  {
    forall i | 0 <= i < |labels[1..]| ensures !HasLabel(earlier + [labels[0]], labels[1..][i].name) {
      assert labels[1..][i] == labels[i + 1] && labels[0].name != labels[i + 1].name;
      NotAmong(earlier, labels[0], labels[i + 1].name);
    }
  }

  lemma {:induction false} NotAmong(earlier: seq<Label>, l: Label, name: string)
    requires l.name != name && !HasLabel(earlier, name)
    ensures !HasLabel(earlier + [l], name)
  {
    forall j | 0 <= j < |earlier + [l]| ensures (earlier + [l])[j].name != name {
      assert j < |earlier| ==> earlier[j].name != name;
    }
  }

  lemma {:induction false} LabelsStep(s: string, l: Label, rest: string, earlier: seq<Label>, limits: Limits)
    requires s != "" && Trim(s) == s && OneLabel(s, earlier, limits) == Success((l, rest))
    requires |earlier| < limits.maxLabels && (rest != "" ==> rest[0] == ',')
    ensures LabelsFrom(s, earlier, limits) ==
            if rest == "" then Success(earlier + [l]) else LabelsFrom(rest[1..], earlier + [l], limits)
  {
    hide Trim, OneLabel;
  }

  function Behind(labels: seq<Label>): string
    requires labels != []
  {
    if |labels| == 1 then "" else "," + PrintLabels(labels[1..])
  }

  lemma {:induction false} PrintedSplits(labels: seq<Label>, limits: Limits)
    requires labels != [] && forall l :: l in labels ==> ValidName(l.name, false)
    ensures
      var s, rest := PrintLabels(labels), Behind(labels);
      && s != "" && Trim(s) == s && s == PrintLabel(labels[0]) + rest
      && (rest == "" || (rest[0] == ',' && !IsSpace(rest[0]) && !IsSpace(Last(rest)) && |labels| > 1
                         && rest[1..] == PrintLabels(labels[1..])))
      && (|labels| == 1 ==> rest == "")
  {
    hide IsSpace, ValidName, PrintLabel, Trim;
    PrintedShape(labels, limits);
    QuoteIsNoSpace();
    TrimNothing(PrintLabels(labels));
    if |labels| > 1 {
      forall l | l in labels[1..] ensures l in labels {}
      PrintedShape(labels[1..], limits);
      assert Last(Behind(labels)) == Last(PrintLabels(labels[1..]));
    }
  }

  /** A printed label set is read back in order, after the labels already read. */
  lemma {:induction false} LabelsReadBack(labels: seq<Label>, earlier: seq<Label>, limits: Limits)
    requires |earlier| + |labels| <= limits.maxLabels && DistinctNames(labels) && FreshNames(labels, earlier)
    requires forall l :: l in labels ==>
                           ValidName(l.name, false) && |l.name| + Utf8Length(l.value) <= limits.maxLabelBytes
    ensures LabelsFrom(PrintLabels(labels), earlier, limits) == Success(earlier + labels)
    decreases |labels|
  {
    hide OneLabel, LabelsFrom, IsSpace, ValidName, DistinctNames, FreshNames, Utf8Length, PrintLabel, Trim,
        PrintLabels, Behind;
    if labels == [] {
      NoLabels(earlier, limits);
      assert earlier + labels == earlier;
    } else {
      var first, others := labels[0], labels[1..];
      assert first in labels;
      PrintedSplits(labels, limits);
      FirstIsFresh(labels, earlier);
      OneLabelReadsBack(first, Behind(labels), earlier, limits);
      LabelsStep(PrintLabels(labels), first, Behind(labels), earlier, limits);
      NamesStayFresh(labels, earlier);
      assert earlier + [first] + others == earlier + labels;
      if others == [] {
        assert earlier + [first] == earlier + labels;
      } else {
        forall l | l in others ensures l in labels {}
        BehindIsNotEmpty(labels);
        LabelsReadBack(others, earlier + [first], limits);
      }
    }
  }

  lemma {:induction false} BehindIsNotEmpty(labels: seq<Label>)
    requires |labels| > 1
    ensures Behind(labels) != ""
  {
  }

  lemma {:induction false} NoLabels(earlier: seq<Label>, limits: Limits)
    ensures LabelsFrom(PrintLabels([]), earlier, limits) == Success(earlier)
  {
    TrimEmpty();
    assert PrintLabels([]) == "";
  }

  lemma {:induction false} FirstIsFresh(labels: seq<Label>, earlier: seq<Label>)
    requires labels != [] && FreshNames(labels, earlier)
    ensures !HasLabel(earlier, labels[0].name)
  {
  }

  lemma {:induction false} NothingEarlier(labels: seq<Label>)
    ensures FreshNames(labels, [])
  {
  }

  /** The closing brace is found behind the printed labels. */
  lemma {:induction false} LabelEndSkipsLabels(labels: seq<Label>, rest: string)
    requires forall l :: l in labels ==> ValidName(l.name, false)
    ensures LabelEnd(PrintLabels(labels) + rest, false, false) ==
        Shifted(|PrintLabels(labels)|, LabelEnd(rest, false, false))
  {
    hide LabelEnd, ValidName;
    if labels == [] {
      assert PrintLabels(labels) + rest == rest;
    } else {
      var first, others := labels[0], labels[1..];
      assert first in labels;
      if others == [] {
        LabelEndSkipsLabel(first, rest);
      } else {
        var later := "," + (PrintLabels(others) + rest);
        assert PrintLabels(labels) + rest == PrintLabel(first) + later;
        LabelEndSkipsLabel(first, later);
        LabelEndSkipsPlain(",", PrintLabels(others) + rest);
        forall l | l in others ensures l in labels {}
        LabelEndSkipsLabels(others, rest);
      }
    }
  }

  lemma {:induction false} LabelText(name: string, escaped: string, rest: string)
    ensures name + "=\"" + escaped + "\"" + rest == (name + "=") + ("\"" + (escaped + "\"" + rest))
  {
  }

  lemma {:induction false} LabelEndSkipsLabel(l: Label, rest: string)
    requires ValidName(l.name, false)
    ensures LabelEnd(PrintLabel(l) + rest, false, false) == Shifted(|PrintLabel(l)|, LabelEnd(rest, false, false))
  {
    hide ValidName, LabelEnd;
    var value := EscapeValue(l.value) + "\"" + rest;
    var plain := l.name + "=";
    LabelText(l.name, EscapeValue(l.value), rest);
    forall i | 0 <= i < |plain| ensures plain[i] != '}' && plain[i] != '"' {
      if i < |l.name| {
        NamesHaveNoSpecials(l.name, false, i);
      }
    }
    LabelEndSkipsPlain(plain, "\"" + value);
    QuoteSkipped(value, false);
    LabelEndSkipsValue(l.value, rest);
  }

  // ---------- Samples ----------

  lemma {:induction false} WordLengthOfWord(w: string, rest: string)
    requires Word(w) && (rest == "" || IsSpace(rest[0]))
    ensures WordLength(w + rest) == |w|
  {
    assert (w + rest)[0] == w[0] && !IsSpace(w[0]);
    if |w| == 1 {
      assert (w + rest)[1..] == rest;
    } else {
      assert (w + rest)[1..] == w[1..] + rest;
      WordLengthOfWord(w[1..], rest);
    }
  }

  lemma {:induction false} FieldsOfWord(w: string)
    requires Word(w)
    ensures Fields(w) == [w]
  {
    assert w + "" == w;
    WordLengthOfWord(w, "");
    assert w[..|w|] == w && w[|w|..] == "";
    assert Fields("") == [];
  }

  lemma {:induction false} FieldsOfTwo(v: string, t: string)
    requires Word(v) && Word(t)
    ensures Fields(v + " " + t) == [v, t]
  {
    var s := v + " " + t;
    assert s == v + (" " + t);
    WordLengthOfWord(v, " " + t);
    assert s[..|v|] == v && s[|v|..] == " " + t;
    assert (" " + t)[1..] == t;
    assert TrimLeft(" " + t) == TrimLeft(t) == t;
    FieldsOfWord(t);
    assert Fields(" " + t) == Fields(t);
    assert [v] + [t] == [v, t];
  }

  /** One blank cannot hide an exemplar mark. */
  lemma {:induction false} NoMark(s: string)
    requires forall i :: 0 <= i < |s| - 2 && s[i] == ' ' ==> s[i + 2] != ' '
    ensures ExemplarMark(s).None?
  {
    if |s| >= 3 {
      assert s[0] == ' ' ==> s[2] != ' ';
      forall i | 0 <= i < |s[1..]| - 2 && s[1..][i] == ' ' ensures s[1..][i + 2] != ' ' {
        assert s[i + 1] == ' ';
      }
      NoMark(s[1..]);
    }
  }

  lemma {:induction false} TailReadsBack(value: string, timestamp: Option<string>, format: Format, limits: Limits,
                                         numbers: Numbers)
    requires Word(value) && numbers.parseFloat(value).Some?
    requires timestamp.Some? ==> Word(timestamp.value) && ValidTimestamp(timestamp.value, format, numbers)
    ensures
      var s := value + (if timestamp.Some? then " " + timestamp.value else "");
      && ParseTail(s, format, limits, numbers) == Success(numbers.parseFloat(value).value)
      && s != "" && !IsSpace(s[0]) && !IsSpace(Last(s))
  {
    var s := value + (if timestamp.Some? then " " + timestamp.value else "");
    forall i | 0 <= i < |s| - 2 ensures s[i] == ' ' ==> s[i + 2] != ' ' {
      if i < |value| {
        assert !IsSpace(value[i]);
      } else {
        assert s[i + 2] == timestamp.value[i + 1 - |value|];
        assert !IsSpace(timestamp.value[i + 1 - |value|]);
      }
    }
    NoMark(s);
    if timestamp.Some? {
      assert s == value + " " + timestamp.value;
      FieldsOfTwo(value, timestamp.value);
    } else {
      assert s == value;
      FieldsOfWord(value);
    }
  }

  lemma {:induction false} PrintedParts(name: string, block: string, tail: string)
    requires ValidName(name, true) && tail != "" && !IsSpace(tail[0]) && !IsSpace(Last(tail))
    requires LabelEnd(block + "} " + tail, false, false) == Some(|block|)
    ensures
      var line := name + "{" + block + "} " + tail;
      var rest := "{" + block + "} " + tail;
      && NameEnd(line) == Some(|name|) && line[..|name|] == name
      && Trim(line[|name|..]) == rest && LabelEnd(rest[1..], false, false) == Some(|block|)
      && rest[1..|block| + 1] == block && Trim(rest[|block| + 2..]) == tail
      && Trim(line) == line
  {
    hide ValidName, IsSpace, LabelEnd;
    var line := name + "{" + block + "} " + tail;
    var rest := "{" + block + "} " + tail;
    forall i | 0 <= i < |name| ensures name[i] !in "{ \t" && !IsSpace(name[i]) {
      NamesHaveNoSpecials(name, true, i);
    }
    MetricNameIsNotEmpty(name);
    assert line == name + "{" + (block + "} " + tail);
    NameEndFirst(name, block + "} " + tail);
    assert line[|name|..] == rest && line[..|name|] == name;
    QuoteIsNoSpace();
    TrimNothing(rest);
    TrimNothing(line);
    assert rest[1..] == block + "} " + tail;
    assert rest[1..|block| + 1] == block;
    assert rest[|block| + 2..] == " " + tail;
    TrimLeadingBlank(tail);
    TrimNothing(tail);
  }

  lemma {:induction false} MetricNameIsNotEmpty(name: string)
    requires ValidName(name, true)
    ensures name != "" && NameChar(name[0], true, true)
  {
  }

  /** The parts of a line with a label block decide its sample. */
  lemma {:induction false} PartsDecide(line: string, name: string, rest: string, block: string, tail: string,
                                       labels: seq<Label>, value: Number, format: Format, limits: Limits,
                                       numbers: Numbers)
    requires ValidName(name, true) && NameEnd(line) == Some(|name|) && line[..|name|] == name
    requires Trim(line[|name|..]) == rest && |rest| >= |block| + 2 && rest[0] == '{'
    requires LabelEnd(rest[1..], false, false) == Some(|block|)
    requires rest[1..|block| + 1] == block && Trim(rest[|block| + 2..]) == tail
    requires LabelsFrom(block, [], limits) == Success(labels)
        && ParseTail(tail, format, limits, numbers) == Success(value)
    ensures SampleOf(line, format, limits, numbers) == Success(ScrapedSample(name, labels, value))
  {
    hide ValidName, Trim, LabelEnd, LabelsFrom, ParseTail, NameEnd;
  }

  /** Printing a sample and parsing the line gives back its name, its labels in order and its value. */
  lemma {:induction false} SampleReadsBack(name: string, labels: seq<Label>, value: string, timestamp: Option<string>,
                                           format: Format, limits: Limits, numbers: Numbers)
    requires ValidName(name, true) && Printable(labels, limits)
    requires Word(value) && numbers.parseFloat(value).Some?
    requires timestamp.Some? ==> Word(timestamp.value) && ValidTimestamp(timestamp.value, format, numbers)
    ensures
      var line := PrintSample(name, labels, value, timestamp);
      && SampleOf(line, format, limits, numbers) ==
           Success(ScrapedSample(name, labels, numbers.parseFloat(value).value))
      && Trim(line) == line && line != "" && line[0] == name[0]
  {
    hide ValidName, IsSpace, LabelsFrom, ParseTail, LabelEnd, DistinctNames, FreshNames, ValidTimestamp, Word, Trim,
         SampleOf, NameEnd, PrintLabels, Utf8Length;
    var block := PrintLabels(labels);
    var tail := value + (if timestamp.Some? then " " + timestamp.value else "");
    var line := PrintSample(name, labels, value, timestamp);
    assert line == name + "{" + block + "} " + tail;
    TailReadsBack(value, timestamp, format, limits, numbers);
    LabelEndSkipsLabels(labels, "} " + tail);
    ClosingBrace(" " + tail);
    assert "}" + (" " + tail) == "} " + tail;
    assert block + ("} " + tail) == block + "} " + tail;
    PrintedParts(name, block, tail);
    NothingEarlier(labels);
    LabelsReadBack(labels, [], limits);
    assert [] + labels == labels;
    MetricNameIsNotEmpty(name);
    PartsDecide(line, name, "{" + block + "} " + tail, block, tail, labels, numbers.parseFloat(value).value,
                format, limits, numbers);
  }

  lemma {:induction false} ClosingBrace(s: string)
    ensures LabelEnd("}" + s, false, false) == Some(0)
    ensures "}" + s == ['}'] + s
  {
  }

  // ---------- What is accepted ----------

  ghost predicate Usable(l: Label, limits: Limits) {
    ValidName(l.name, false) && |l.name| + Utf8Length(l.value) <= limits.maxLabelBytes
  }

  lemma {:induction false} OneLabelIsUsable(s: string, labels: seq<Label>, limits: Limits)
    requires OneLabel(s, labels, limits).Success?
    ensures
      var l := OneLabel(s, labels, limits).value.0;
      Usable(l, limits) && !HasLabel(labels, l.name)
  {
    hide ValidName, Trim, IndexOf, Unquote, Utf8Length, HasLabel;
  }

  /** Accepted labels have valid, distinct names and respect the limits. */
  lemma {:induction false} AcceptedIsPrintable(s: string, earlier: seq<Label>, limits: Limits)
    requires LabelsFrom(s, earlier, limits).Success? && Printable(earlier, limits)
    ensures Printable(LabelsFrom(s, earlier, limits).value, limits)
    decreases |s|
  {
    hide OneLabel, Trim, ValidName, Utf8Length, Printable;
    var t := Trim(s);
    if t != "" {
      OneLabelIsUsable(t, earlier, limits);
      var (l, rest) := OneLabel(t, earlier, limits).value;
      PrintableGrows(earlier, l, limits);
      if rest != "" {
        AcceptedIsPrintable(rest[1..], earlier + [l], limits);
      }
    }
  }

  lemma {:induction false} PrintableGrows(labels: seq<Label>, l: Label, limits: Limits)
    requires Printable(labels, limits) && Usable(l, limits) && !HasLabel(labels, l.name) && |labels| < limits.maxLabels
    ensures Printable(labels + [l], limits)
  {
    hide ValidName, Utf8Length;
  }

  /** Every accepted label block, printed again, parses to the same labels. */
  lemma {:induction false} AcceptedBlocksReprint(block: string, limits: Limits)
    requires LabelsFrom(block, [], limits).Success?
    ensures
      var labels := LabelsFrom(block, [], limits).value;
      LabelsFrom(PrintLabels(labels), [], limits) == Success(labels)
  {
    hide LabelsFrom, FreshNames, ValidName, Utf8Length;
    var labels := LabelsFrom(block, [], limits).value;
    AcceptedIsPrintable(block, [], limits);
    NothingEarlier(labels);
    LabelsReadBack(labels, [], limits);
    assert [] + labels == labels;
  }

  // ---------- The two views of quoting agree ----------

  predicate Blank(s: string) {
    forall i :: 0 <= i < |s| ==> IsSpace(s[i])
  }

  lemma {:induction false} TrimLeftParts(s: string) returns (left: string)
    ensures s == left + TrimLeft(s) && Blank(left)
  {
    hide IsSpace;
    if s != "" && IsSpace(s[0]) {
      var more := TrimLeftParts(s[1..]);
      left := [s[0]] + more;
      assert s == [s[0]] + s[1..];
    } else {
      left := "";
    }
  }

  lemma {:induction false} TrimRightParts(s: string) returns (right: string)
    ensures s == TrimRight(s) + right && Blank(right)
  {
    if s != "" && IsSpace(Last(s)) {
      var more := TrimRightParts(Init(s));
      right := more + [Last(s)];
      assert s == Init(s) + [Last(s)];
    } else {
      right := "";
    }
  }

  lemma {:induction false} TrimParts(s: string) returns (left: string, right: string)
    ensures s == left + Trim(s) + right && Blank(left) && Blank(right)
  {
    left := TrimLeftParts(s);
    right := TrimRightParts(TrimLeft(s));
  }

  lemma {:induction false} BlankIsPlain(s: string)
    requires Blank(s)
    ensures forall i :: 0 <= i < |s| ==> s[i] != '}' && s[i] != '"'
  {
  }

  lemma {:induction false} SkipsBlank(blank: string, rest: string)
    requires Blank(blank)
    ensures LabelEnd(blank + rest, false, false) == Shifted(|blank|, LabelEnd(rest, false, false))
  {
    BlankIsPlain(blank);
    LabelEndSkipsPlain(blank, rest);
  }

  /** Where the reading of a value goes on after its first character. */
  lemma {:induction false} UnquoteCases(s: string)
    requires Unquote(s).Success?
    ensures s != ""
    ensures s[0] == '"' ==> Unquote(s).value.1 == 1
    ensures s[0] == '\\' ==>
              |s| >= 2 && Unquote(s[2..]).Success? && Unquote(s).value.1 == 2 + Unquote(s[2..]).value.1
    ensures s[0] != '"' && s[0] != '\\' ==>
              Unquote(s[1..]).Success? && Unquote(s).value.1 == 1 + Unquote(s[1..]).value.1
  {
  }

  /** Whatever a value reads, the scan for the brace ends its quotes at the same place. */
  lemma {:induction false} SkipsReadValue(s: string, rest: string)
    requires Unquote(s).Success?
    ensures
      var n := Unquote(s).value.1;
      LabelEnd(s + rest, false, true) == Shifted(n, LabelEnd(s[n..] + rest, false, false))
    decreases |s|
  {
    hide LabelEnd, Unquote;
    UnquoteCases(s);
    var n := Unquote(s).value.1;
    if s[0] == '"' {
      assert s + rest == "\"" + (s[1..] + rest);
      QuoteSkipped(s[1..] + rest, true);
    } else if s[0] == '\\' {
      assert s + rest == ['\\', s[1]] + (s[2..] + rest);
      EscapeSkipped(s[1], s[2..] + rest);
      SkipsReadValue(s[2..], rest);
      assert s[2..][n - 2..] == s[n..];
    } else {
      assert s + rest == [s[0]] + (s[1..] + rest);
      PlainSkipped(s[0], s[1..] + rest, true);
      SkipsReadValue(s[1..], rest);
      assert s[1..][n - 1..] == s[n..];
    }
  }

  lemma {:induction false} SkipsHead(head: string, blank: string, rest: string)
    requires Blank(blank) && forall i :: 0 <= i < |head| ==> head[i] != '}' && head[i] != '"'
    ensures LabelEnd(head + blank + "\"" + rest, false, false) ==
            Shifted(|head| + |blank| + 1, LabelEnd(rest, false, true))
  {
    hide LabelEnd, Blank;
    assert head + blank + "\"" + rest == head + (blank + ("\"" + rest));
    LabelEndSkipsPlain(head, blank + ("\"" + rest));
    SkipsBlank(blank, "\"" + rest);
    QuoteSkipped(rest, false);
  }

  lemma {:induction false} SkipsBody(body: string, left: string, tail: string, right: string, rest: string)
    requires Unquote(body).Success? && Blank(left)
    requires body[Unquote(body).value.1..] == left + tail + right
    ensures LabelEnd(body + rest, false, true) ==
            Shifted(|body| - |tail| - |right|, LabelEnd(tail + (right + rest), false, false))
  {
    hide LabelEnd, Blank, Unquote;
    SkipsReadValue(body, rest);
    assert left + tail + right + rest == left + (tail + (right + rest));
    SkipsBlank(left, tail + (right + rest));
  }

  /** A label read from t is skipped up to what is left of t, with blanks at its end. */
  lemma {:induction false} SkipsReadLabel(t: string, labels: seq<Label>, limits: Limits, rest: string)
    returns (blank: string)
    requires OneLabel(t, labels, limits).Success?
    ensures
      var tail := OneLabel(t, labels, limits).value.1;
      && Blank(blank) && |tail| + |blank| <= |t|
      && LabelEnd(t + rest, false, false) ==
         Shifted(|t| - |tail| - |blank|, LabelEnd(tail + (blank + rest), false, false))
  {
    hide LabelEnd, ValidName, IsSpace, Trim, Unquote, Blank, HasLabel, Utf8Length, IndexOf;
    var eq := IndexOf(t, '=').value;
    var quoted := Trim(t[eq + 1..]);
    var body := quoted[1..];
    var n := Unquote(body).value.1;
    var tail := Trim(quoted[1 + n..]);
    var nl, nr := TrimParts(t[..eq]);
    var ql, qr := TrimParts(t[eq + 1..]);
    var tl, tr := TrimParts(quoted[1 + n..]);
    var head := t[..eq] + "=";
    NameTextIsPlain(t[..eq], nl, nr);
    blank := tr + qr;
    BlankConcat(tr, qr);
    LabelSplits(t, eq, ql, body, qr, rest);
    SkipsHead(head, ql, body + (qr + rest));
    assert body[n..] == quoted[1 + n..];
    SkipsBody(body, tl, tail, tr, qr + rest);
    assert tail + (tr + (qr + rest)) == tail + (blank + rest);
  }

  lemma {:induction false} LabelSplits(t: string, eq: nat, ql: string, body: string, qr: string, rest: string)
    requires eq < |t| && t[eq] == '=' && t[eq + 1..] == ql + ("\"" + body) + qr
    ensures t + rest == (t[..eq] + "=") + ql + "\"" + (body + (qr + rest))
    ensures |t| == eq + 2 + |ql| + |body| + |qr|
  {
    assert t == t[..eq] + "=" + t[eq + 1..];
  }

  lemma {:induction false} NameTextIsPlain(s: string, left: string, right: string)
    requires s == left + Trim(s) + right && Blank(left) && Blank(right) && ValidName(Trim(s), false)
    ensures forall i :: 0 <= i < |s + "="| ==> (s + "=")[i] != '}' && (s + "=")[i] != '"'
  {
    hide ValidName, IsSpace, Trim;
    BlankIsPlain(left);
    BlankIsPlain(right);
    var name := Trim(s);
    forall i | 0 <= i < |name| ensures name[i] != '}' && name[i] != '"' {
      NamesHaveNoSpecials(name, false, i);
    }
  }

  lemma {:induction false} BlankConcat(a: string, b: string)
    requires Blank(a) && Blank(b)
    ensures Blank(a + b)
  {
  }

  /** For every accepted label block the brace scan sees no brace inside it and leaves every quote where the label
      parser does. */
  lemma {:induction false} ScannersAgree(block: string, earlier: seq<Label>, limits: Limits, rest: string)
    requires LabelsFrom(block, earlier, limits).Success?
    ensures LabelEnd(block + rest, false, false) == Shifted(|block|, LabelEnd(rest, false, false))
    decreases |block|
  {
    hide LabelEnd, OneLabel, Trim, Blank;
    var left, right := TrimParts(block);
    var t := Trim(block);
    assert block + rest == left + (t + (right + rest));
    SkipsBlank(left, t + (right + rest));
    if t == "" {
      assert t + (right + rest) == right + rest;
      SkipsBlank(right, rest);
    } else {
      var (l, tail) := OneLabel(t, earlier, limits).value;
      var blank := SkipsReadLabel(t, earlier, limits, right + rest);
      BlankConcat(blank, right);
      var end := blank + right + rest;
      assert blank + (right + rest) == end;
      if tail == "" {
        assert tail + end == (blank + right) + rest;
        SkipsBlank(blank + right, rest);
      } else {
        assert tail + end == "," + (tail[1..] + end);
        LabelEndSkipsPlain(",", tail[1..] + end);
        ScannersAgree(tail[1..], earlier + [l], limits, end);
        assert end == (blank + right) + rest;
        SkipsBlank(blank + right, rest);
      }
    }
  }

  /** So the block of an accepted sample is cut exactly where its closing brace stands. */
  lemma {:induction false} BlockIsCutAtItsBrace(block: string, limits: Limits, rest: string)
    requires LabelsFrom(block, [], limits).Success?
    ensures LabelEnd(block + "}" + rest, false, false) == Some(|block|)
  {
    hide LabelsFrom, LabelEnd;
    assert block + "}" + rest == block + ("}" + rest);
    ScannersAgree(block, [], limits, "}" + rest);
    ClosingBrace(rest);
  }
}
