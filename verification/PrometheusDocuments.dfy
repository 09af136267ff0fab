/** Whole expositions: printing samples line by line and parsing the text again. */
module PrometheusDocuments {
  import opened Common
  import opened Exposition
  import opened Prometheus
  import opened PrometheusLaws

  /** A sample with the number texts it is printed with. */
  datatype Printed = Printed(name: string, labels: seq<Label>, number: Number, value: string, timestamp: Option<string>)

  function LineOf(p: Printed): string {
    PrintSample(p.name, p.labels, p.value, p.timestamp)
  }

  ghost predicate Fit(p: Printed, format: Format, limits: Limits, numbers: Numbers) {
    && ValidName(p.name, true) && Printable(p.labels, limits)
    && Word(p.value) && numbers.parseFloat(p.value) == Some(p.number)
    && (p.timestamp.Some? ==> Word(p.timestamp.value) && ValidTimestamp(p.timestamp.value, format, numbers))
  }

  function Meant(p: Printed): ScrapedSample {
    ScrapedSample(p.name, p.labels, p.number)
  }

  function MeantAll(ps: seq<Printed>): (r: seq<ScrapedSample>)
    ensures |r| == |ps| && forall i :: 0 <= i < |r| ==> r[i] == Meant(ps[i])
  {
    if ps == [] then [] else MeantAll(Init(ps)) + [Meant(Last(ps))]
  }

  function PrintedLines(ps: seq<Printed>): seq<string> {
    if ps == [] then [] else PrintedLines(Init(ps)) + [LineOf(Last(ps))]
  }

  /** The text: a line feed after every line, and the end mark in OpenMetrics. */
  function Joined(lines: seq<string>): string {
    if lines == [] then "" else Joined(Init(lines)) + Last(lines) + "\n"
  }

  function Document(ps: seq<Printed>, format: Format): string {
    Joined(PrintedLines(ps) + if format == OpenMetricsFormat then [EOF_LINE] else [])
  }

  // ---------- Lines ----------

  function WithoutReturn(s: string): string {
    if s != "" && Last(s) == '\r' then Init(s) else s
  }

  /** The text cut at line feeds as the scanner cuts it: a last piece without one counts if it is not empty. */
  function Lines(text: string): seq<string>
    decreases |text|
  {
    if text == "" then []
    else
      var n := IndexOf(text, '\n');
      if n.None? then [WithoutReturn(text)] else [WithoutReturn(text[..n.value])] + Lines(text[n.value + 1..])
  }

  predicate OneLine(s: string) {
    '\n' !in s && (s == "" || Last(s) != '\r')
  }

  lemma {:induction false} LinesOfFirst(line: string, rest: string)
    requires OneLine(line)
    ensures Lines(line + "\n" + rest) == [line] + Lines(rest)
  {
    IndexOfFirst(line, '\n', rest);
    var text := line + "\n" + rest;
    assert text == line + ['\n'] + rest;
    assert text[..|line|] == line && text[|line| + 1..] == rest;
  }

  lemma {:induction false} LinesOfJoined(lines: seq<string>, rest: string)
    requires forall l :: l in lines ==> OneLine(l)
    ensures Lines(Joined(lines) + rest) == lines + Lines(rest)
  {
    hide Lines;
    if lines == [] {
      assert Joined(lines) + rest == rest && lines + Lines(rest) == Lines(rest);
    } else {
      var init, last := Init(lines), Last(lines);
      LastIsMember(lines);
      forall l | l in init ensures l in lines {}
      LinesOfJoined(init, last + "\n" + rest);
      LinesOfFirst(last, rest);
      assert Joined(lines) + rest == Joined(init) + (last + "\n" + rest);
      assert lines == init + [last];
      assert init + ([last] + Lines(rest)) == init + [last] + Lines(rest);
    }
  }

  // ---------- A printed line is one line ----------

  lemma {:induction false} EscapedHasNoLineFeed(v: string)
    ensures '\n' !in EscapeValue(v)
  {
    if v != "" {
      EscapedHasNoLineFeed(v[1..]);
    }
  }

  lemma {:induction false} LabelHasNoLineFeed(l: Label)
    requires ValidName(l.name, false)
    ensures '\n' !in PrintLabel(l)
  {
    hide ValidName;
    EscapedHasNoLineFeed(l.value);
    forall i | 0 <= i < |l.name| ensures l.name[i] != '\n' {
      NamesHaveNoSpecials(l.name, false, i);
    }
    NotIn(l.name, '\n');
  }

  lemma {:induction false} LabelsHaveNoLineFeed(labels: seq<Label>)
    requires forall l :: l in labels ==> ValidName(l.name, false)
    ensures '\n' !in PrintLabels(labels)
  {
    hide ValidName, PrintLabel;
    if labels != [] {
      assert labels[0] in labels;
      LabelHasNoLineFeed(labels[0]);
      if |labels| > 1 {
        forall l | l in labels[1..] ensures l in labels {}
        LabelsHaveNoLineFeed(labels[1..]);
      }
    }
  }

  lemma {:induction false} WordHasNoLineFeed(w: string)
    requires Word(w)
    ensures '\n' !in w && Last(w) != '\r'
  {
    assert IsSpace('\n') && IsSpace('\r');
  }

  /** Whatever the label values hold, a printed sample stays on its line. */
  lemma {:induction false} PrintedIsOneLine(p: Printed, format: Format, limits: Limits, numbers: Numbers)
    requires Fit(p, format, limits, numbers)
    ensures OneLine(LineOf(p))
  {
    hide ValidName, Word, ValidTimestamp, PrintLabels, DistinctNames, Utf8Length;
    forall i | 0 <= i < |p.name| ensures p.name[i] != '\n' {
      NamesHaveNoSpecials(p.name, true, i);
    }
    NotIn(p.name, '\n');
    LabelsHaveNoLineFeed(p.labels);
    WordHasNoLineFeed(p.value);
    WordIsNotEmpty(p.value);
    if p.timestamp.Some? {
      WordHasNoLineFeed(p.timestamp.value);
      WordIsNotEmpty(p.timestamp.value);
    }
  }

  lemma {:induction false} WordIsNotEmpty(w: string)
    requires Word(w)
    ensures w != ""
  {
  }

  // ---------- Parsing the lines ----------

  lemma {:induction false} LineMeans(p: Printed, format: Format, limits: Limits, numbers: Numbers)
    requires Fit(p, format, limits, numbers)
    ensures Meaning(LineOf(p), format, limits, numbers) == Measures(Meant(p)) && Trim(LineOf(p)) != ""
  {
    hide ValidName, Word, ValidTimestamp, Printable, SampleOf, Trim, PrintSample;
    SampleReadsBack(p.name, p.labels, p.value, p.timestamp, format, limits, numbers);
    MetricNameIsNotEmpty(p.name);
    assert EOF_LINE[0] == '#';
  }

  /** The handler takes these samples one after the other. */
  ghost predicate TakesAll(handler: Handler, samples: seq<ScrapedSample>) {
    samples != [] ==> TakesAll(handler, Init(samples)) && handler(Init(samples), Last(samples)).None?
  }

  lemma {:induction false} ScannedLine(lines: seq<string>, line: string, samples: seq<ScrapedSample>,
                                       sample: ScrapedSample, format: Format, limits: Limits, numbers: Numbers,
                                       handler: Handler)
    requires Scanned(lines, format, limits, numbers, handler) == Success((samples, false))
    requires Trim(line) != "" && Meaning(line, format, limits, numbers) == Measures(sample)
    requires |samples| < limits.maxSamples && handler(samples, sample).None?
    ensures Scanned(lines + [line], format, limits, numbers, handler) == Success((samples + [sample], false))
  {
    hide Meaning, Trim;
    InitOfAppend(lines, line);
  }

  lemma {:induction false} PrintedLinesScan(ps: seq<Printed>, format: Format, limits: Limits, numbers: Numbers,
                                            handler: Handler)
    requires |ps| <= limits.maxSamples && forall p :: p in ps ==> Fit(p, format, limits, numbers)
    requires TakesAll(handler, MeantAll(ps))
    ensures Scanned(PrintedLines(ps), format, limits, numbers, handler) == Success((MeantAll(ps), false))
  {
    hide Fit, Meaning, Trim, LineOf, Scanned;
    if ps == [] {
      NothingScanned(format, limits, numbers, handler);
      assert MeantAll(ps) == [];
    } else {
      var init, last := Init(ps), Last(ps);
      LastIsMember(ps);
      forall p | p in init ensures p in ps {}
      InitOfAppend(MeantAll(init), Meant(last));
      PrintedLinesScan(init, format, limits, numbers, handler);
      LineMeans(last, format, limits, numbers);
      ScannedLine(PrintedLines(init), LineOf(last), MeantAll(init), Meant(last), format, limits, numbers, handler);
    }
  }

  lemma {:induction false} EndMarkMeans(format: Format, limits: Limits, numbers: Numbers)
    ensures Trim(EOF_LINE) == EOF_LINE && Meaning(EOF_LINE, format, limits, numbers) == EndMark && OneLine(EOF_LINE)
  {
    TrimNothing(EOF_LINE);
  }

  lemma {:induction false} PrintedLinesAreLines(ps: seq<Printed>, format: Format, limits: Limits, numbers: Numbers)
    requires forall p :: p in ps ==> Fit(p, format, limits, numbers)
    ensures forall l :: l in PrintedLines(ps) ==> OneLine(l)
  {
    hide Fit, OneLine, LineOf;
    if ps != [] {
      LastIsMember(ps);
      forall p | p in Init(ps) ensures p in ps {}
      PrintedLinesAreLines(Init(ps), format, limits, numbers);
      PrintedIsOneLine(Last(ps), format, limits, numbers);
    }
  }

  /** The last byte a reader of the text delivers. */
  function LastByte(text: string): Option<char> {
    if text == "" then None else Some(Last(text))
  }

  lemma {:induction false} JoinedEndsWithLineFeed(lines: seq<string>)
    ensures LastByte(Joined(lines)) == if lines == [] then None else Some('\n')
  {
  }

  /** Printing any samples within the limits and parsing the text, with a handler that takes them, gives back exactly
      these samples, in order. */
  lemma {:induction false} DocumentReadsBack(ps: seq<Printed>, format: Format, limits: Limits, numbers: Numbers,
                                             handler: Handler)
    requires |ps| <= limits.maxSamples && forall p :: p in ps ==> Fit(p, format, limits, numbers)
    requires TakesAll(handler, MeantAll(ps))
    ensures
      var text := Document(ps, format);
      Parsed(Input(Lines(text), None, LastByte(text)), format, limits, numbers, handler) == Success(MeantAll(ps))
  {
    hide Fit, Meaning, Trim, LineOf, OneLine, Lines, Joined, PrintedLines, MeantAll;
    var lines := PrintedLines(ps) + if format == OpenMetricsFormat then [EOF_LINE] else [];
    PrintedLinesAreLines(ps, format, limits, numbers);
    EndMarkMeans(format, limits, numbers);
    LinesOfJoined(lines, "");
    assert Joined(lines) + "" == Joined(lines) && lines + Lines("") == lines by { NoLines(lines); }
    JoinedEndsWithLineFeed(lines);
    PrintedLinesScan(ps, format, limits, numbers, handler);
    if format == OpenMetricsFormat {
      InitOfAppend(PrintedLines(ps), EOF_LINE);
    } else {
      assert lines == PrintedLines(ps);
    }
  }

  lemma {:induction false} NoLines(lines: seq<string>)
    ensures lines + Lines("") == lines
  {
  }

  // ---------- What the samples of any exposition satisfy ----------

  lemma {:induction false} SampleNamesAreDistinct(line: string, format: Format, limits: Limits, numbers: Numbers)
    requires SampleOf(line, format, limits, numbers).Success?
    ensures DistinctNames(SampleOf(line, format, limits, numbers).value.labels)
  {
    hide LabelsFrom, ParseTail, Trim, LabelEnd, ValidName;
    var rest := Trim(line[NameEnd(line).value..]);
    if rest != "" && rest[0] == '{' {
      var block := rest[1..LabelEnd(rest[1..], false, false).value + 1];
      AcceptedIsPrintable(block, [], limits);
    }
  }

  /** No sample of a scanned exposition repeats a label name, and the sample limit holds. */
  lemma {:induction false} ScannedIsBounded(lines: seq<string>, format: Format, limits: Limits, numbers: Numbers,
                                            handler: Handler)
    requires Scanned(lines, format, limits, numbers, handler).Success?
    ensures
      var samples := Scanned(lines, format, limits, numbers, handler).value.0;
      |samples| <= limits.maxSamples && forall s :: s in samples ==> DistinctNames(s.labels)
  {
    hide SampleOf, Trim, DistinctNames;
    if lines != [] {
      ScannedIsBounded(Init(lines), format, limits, numbers, handler);
      if Meaning(Last(lines), format, limits, numbers).Measures? {
        SampleNamesAreDistinct(Trim(Last(lines)), format, limits, numbers);
      }
    }
  }
}
