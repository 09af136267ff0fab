/** Why a text is refused: which limits a line can exceed, and which line, answer or ending decides. */
module PrometheusFaults {
  import opened Common
  import opened Exposition
  import opened Prometheus
  import opened PrometheusLines

  // ---------- Limits ----------

  predicate NotLower(limits: Limits, wide: Limits) {
    limits.maxLabels <= wide.maxLabels && limits.maxLabelBytes <= wide.maxLabelBytes
  }

  /** No text of this length can exceed these limits: a character has at most four bytes. */
  predicate Wide(wide: Limits, n: nat) {
    n <= wide.maxLabels && 4 * n <= wide.maxLabelBytes
  }

  /** The limits decide exactly if they are named as the fault. */
  predicate LimitsDecide<T(==)>(r: Result<T, ParseError>, unlimited: Result<T, ParseError>) {
    && (r == Failure(LimitExceeded) <==> r != unlimited) && unlimited != Failure(LimitExceeded)
    && (r.Failure? ==> r.error == LimitExceeded || r.error == Malformed)
  }

  lemma {:induction false} QuoteFault(s: string)
    ensures match Unquote(s)
            case Success((v, n)) => n <= |s| && |v| < |s|
            case Failure(e) => e == Malformed
    decreases |s|
  {
    if s != "" && s[0] != '"' {
      if s[0] == '\\' {
        if |s| >= 2 {
          QuoteFault(s[2..]);
        }
      } else {
        QuoteFault(s[1..]);
      }
    }
  }

  lemma {:induction false} FourBytes(s: string)
    ensures Utf8Length(s) <= 4 * |s|
  {
    if s != "" {
      FourBytes(Init(s));
    }
  }

  lemma {:induction false} LabelFault(s: string, labels: seq<Label>, limits: Limits, wide: Limits)
    requires NotLower(limits, wide) && Wide(wide, |s|)
    ensures LimitsDecide(OneLabel(s, labels, limits), OneLabel(s, labels, wide))
  {
    hide ValidName, Trim, Unquote, HasLabel, Utf8Length, IndexOf;
    var eq := IndexOf(s, '=');
    if eq.Some? && eq.value > 0 {
      var quoted := Trim(s[eq.value + 1..]);
      if quoted != "" {
        QuoteFault(quoted[1..]);
        if Unquote(quoted[1..]).Success? {
          FourBytes(Unquote(quoted[1..]).value.0);
        }
      }
    }
  }

  lemma {:induction false} LabelsFault(s: string, labels: seq<Label>, limits: Limits, wide: Limits)
    requires NotLower(limits, wide) && Wide(wide, |labels| + |s|)
    ensures LimitsDecide(LabelsFrom(s, labels, limits), LabelsFrom(s, labels, wide))
    decreases |s|, if limits == wide then 0 else 1
  {
    hide OneLabel, Trim;
    var t := Trim(s);
    if limits != wide {
      LabelsFault(s, labels, wide, wide);
    }
    if t != "" {
      LabelFault(t, labels, limits, wide);
      if OneLabel(t, labels, limits).Success? {
        var (next, rest) := OneLabel(t, labels, limits).value;
        if rest != "" {
          LabelsFault(rest[1..], labels + [next], limits, wide);
        }
      }
    }
  }

  lemma {:induction false} ExemplarFault(s: string, format: Format, limits: Limits, wide: Limits, numbers: Numbers)
    requires NotLower(limits, wide) && Wide(wide, |s|)
    ensures LimitsDecide(CheckExemplar(s, format, limits, numbers), CheckExemplar(s, format, wide, numbers))
  {
    hide LabelsFrom, Trim, Fields, LabelEnd;
    if s != "" && LabelEnd(s[1..], false, false).Some? {
      LabelsFault(s[1..LabelEnd(s[1..], false, false).value + 1], [], limits, wide);
    }
  }

  lemma {:induction false} TailFault(s: string, format: Format, limits: Limits, wide: Limits, numbers: Numbers)
    requires NotLower(limits, wide) && Wide(wide, |s|)
    ensures LimitsDecide(ParseTail(s, format, limits, numbers), ParseTail(s, format, wide, numbers))
  {
    hide CheckExemplar, Trim, Fields, ExemplarMark;
    var mark := ExemplarMark(s);
    if mark.Some? {
      ExemplarFault(Trim(s[mark.value + 3..]), format, limits, wide, numbers);
    }
  }

  /** A line is refused for the limits exactly if wider ones would change what is made of it; every other refused line
      is malformed. */
  lemma {:induction false} LineFault(line: string, format: Format, limits: Limits, wide: Limits, numbers: Numbers)
    requires NotLower(limits, wide) && Wide(wide, |line|)
    ensures LimitsDecide(SampleOf(line, format, limits, numbers), SampleOf(line, format, wide, numbers))
  {
    hide LabelsFrom, Trim, ParseTail, LabelEnd, NameEnd, ValidName;
    var end := NameEnd(line);
    if end.Some? {
      var rest := Trim(line[end.value..]);
      TailFault(rest, format, limits, wide, numbers);
      if rest != "" && LabelEnd(rest[1..], false, false).Some? {
        var n := LabelEnd(rest[1..], false, false).value;
        LabelsFault(rest[1..n + 1], [], limits, wide);
        TailFault(Trim(rest[n + 2..]), format, limits, wide, numbers);
      }
    }
  }

  // ---------- The line that decides ----------

  /** A text that cannot follow the regular ones before it, and why. */
  ghost predicate Spoils(texts: seq<string>, i: nat, samples: seq<ScrapedSample>, e: ParseError, format: Format,
                         limits: Limits, numbers: Numbers, handler: Handler)
    requires i < |texts|
  {
    var sample := SampleOf(texts[i], format, limits, numbers);
    && Regular(texts[..i], samples, format, limits, numbers, handler)
    && if Ended(texts[..i]) then e == Malformed
       else
         && texts[i] != "" && texts[i][0] != '#'
         && if sample.Failure? then e == sample.error
            else if |samples| == limits.maxSamples then e == LimitExceeded
            else handler(samples, sample.value).Some? && e == HandlerFailed(handler(samples, sample.value).value)
  }

  ghost predicate Spoilt(texts: seq<string>, e: ParseError, format: Format, limits: Limits, numbers: Numbers,
                         handler: Handler)
  {
    exists i, samples :: 0 <= i < |texts| && Spoils(texts, i, samples, e, format, limits, numbers, handler)
  }

  lemma {:induction false} SpoiltStays(texts: seq<string>, t: string, e: ParseError, format: Format, limits: Limits,
                                       numbers: Numbers, handler: Handler)
    requires Spoilt(texts, e, format, limits, numbers, handler)
    ensures Spoilt(texts + [t], e, format, limits, numbers, handler)
  {
    hide Regular, SampleOf, Ended;
    var i, samples :| 0 <= i < |texts| && Spoils(texts, i, samples, e, format, limits, numbers, handler);
    assert (texts + [t])[..i] == texts[..i] && (texts + [t])[i] == texts[i];
    assert Spoils(texts + [t], i, samples, e, format, limits, numbers, handler);
  }

  lemma {:induction false} SpoilsNow(texts: seq<string>, t: string, samples: seq<ScrapedSample>, e: ParseError,
                                     format: Format, limits: Limits, numbers: Numbers, handler: Handler)
    requires Spoils(texts + [t], |texts|, samples, e, format, limits, numbers, handler)
    ensures Spoilt(texts + [t], e, format, limits, numbers, handler)
  {
  }

  lemma {:induction false} ScanFault(lines: seq<string>, format: Format, limits: Limits, numbers: Numbers,
                                     handler: Handler)
    ensures
      var r := Scanned(lines, format, limits, numbers, handler);
      r.Failure? ==> Spoilt(Texts(lines), r.error, format, limits, numbers, handler)
  {
    hide Scanned, Texts, Regular, Ended, Spoilt, Trim, SampleOf;
    if lines == [] {
      NothingScanned(format, limits, numbers, handler);
    } else {
      var init, line := Init(lines), Last(lines);
      assert lines == init + [line];
      ScanFault(init, format, limits, numbers, handler);
      LineSpoils(init, line, format, limits, numbers, handler);
    }
  }

  lemma {:induction false} LineSpoils(init: seq<string>, line: string, format: Format, limits: Limits,
                                      numbers: Numbers, handler: Handler)
    requires
      var r := Scanned(init, format, limits, numbers, handler);
      r.Failure? ==> Spoilt(Texts(init), r.error, format, limits, numbers, handler)
    ensures
      var r := Scanned(init + [line], format, limits, numbers, handler);
      r.Failure? ==> Spoilt(Texts(init + [line]), r.error, format, limits, numbers, handler)
  {
    hide Texts, Regular, Ended, Spoilt, Trim, SampleOf;
    InitOfAppend(init, line);
    TextsNext(init, line);
    var before, after := Scanned(init, format, limits, numbers, handler),
        Scanned(init + [line], format, limits, numbers, handler);
    var texts, t := Texts(init), Trim(line);
    if before.Failure? {
      if t != "" {
        SpoiltStays(texts, t, before.error, format, limits, numbers, handler);
      }
    } else if after.Failure? {
      var (samples, ended) := before.value;
      ScannedExactly(init, samples, format, limits, numbers, handler);
      TrimmedText(line);
      assert (texts + [t])[..|texts|] == texts;
      assert Spoils(texts + [t], |texts|, samples, after.error, format, limits, numbers, handler) by {
        FewEnough(texts, samples, format, limits, numbers, handler);
      }
      SpoilsNow(texts, t, samples, after.error, format, limits, numbers, handler);
    }
  }

  lemma {:induction false} FewEnough(texts: seq<string>, samples: seq<ScrapedSample>, format: Format, limits: Limits,
                                     numbers: Numbers, handler: Handler)
    ensures Regular(texts, samples, format, limits, numbers, handler) ==> |samples| <= limits.maxSamples
  {
  }

  lemma {:induction false} TrimmedText(line: string)
    ensures Trim(line) == "" || Trim(line)[0] == '#' || Trim(line) != "# EOF"
  {
  }

  /** A parse fails for the first text that cannot follow; if there is none, for the error that ended the reading; and
      otherwise because the text does not end as it must. */
  lemma {:induction false} ParseFault(input: Input, format: Format, limits: Limits, numbers: Numbers, handler: Handler)
    ensures
      var r, texts := Parsed(input, format, limits, numbers, handler), Texts(input.lines);
      r.Failure? ==>
        || Spoilt(texts, r.error, format, limits, numbers, handler)
        || (&& (exists samples :: Regular(texts, samples, format, limits, numbers, handler))
            && r.error == if input.readError.Some? then input.readError.value else Malformed)
  {
    hide Scanned, Texts, Regular, Ended, Spoilt;
    ScanFault(input.lines, format, limits, numbers, handler);
    var scanned := Scanned(input.lines, format, limits, numbers, handler);
    if scanned.Success? {
      ScannedExactly(input.lines, scanned.value.0, format, limits, numbers, handler);
    }
  }
}
