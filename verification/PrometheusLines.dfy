/** Which texts parse, told from their trimmed lines: comments, blank lines, the end mark and how a text must end. */
module PrometheusLines {
  import opened Common
  import opened Exposition
  import opened Prometheus
  import opened PrometheusLaws
  import opened PrometheusDocuments

  // ---------- The lines that count ----------

  /** The trimmed lines that are not blank. */
  function Texts(lines: seq<string>): seq<string> {
    if lines == [] then []
    else Texts(Init(lines)) + if Trim(Last(lines)) == "" then [] else [Trim(Last(lines))]
  }

  /** The texts that are no comments. */
  function Data(texts: seq<string>): seq<string> {
    if texts == [] then []
    else Data(Init(texts)) + if Last(texts) != "" && Last(texts)[0] == '#' then [] else [Last(texts)]
  }

  /** Each of these texts is a sample line, and these are its samples. */
  ghost predicate Reads(data: seq<string>, samples: seq<ScrapedSample>, format: Format, limits: Limits,
                        numbers: Numbers)
  {
    |data| == |samples|
    && forall i :: 0 <= i < |data| ==> SampleOf(data[i], format, limits, numbers) == Success(samples[i])
  }

  /** The texts before the end mark, if that is the last text. */
  function Body(texts: seq<string>): seq<string> {
    if texts != [] && Last(texts) == "# EOF" then Init(texts) else texts
  }

  /** The end mark is the last text if it occurs, every text before it is a comment or a sample line, the samples are
      not too many, and the handler takes them. */
  ghost predicate Regular(texts: seq<string>, samples: seq<ScrapedSample>, format: Format, limits: Limits,
                          numbers: Numbers, handler: Handler)
  {
    && "# EOF" !in Body(texts) && Reads(Data(Body(texts)), samples, format, limits, numbers)
    && |samples| <= limits.maxSamples && TakesAll(handler, samples)
  }

  predicate Ended(texts: seq<string>) {
    texts != [] && Last(texts) == "# EOF"
  }

  // ---------- One more line ----------

  lemma {:induction false} TextsNext(lines: seq<string>, line: string)
    ensures Texts(lines + [line]) == if Trim(line) == "" then Texts(lines) else Texts(lines) + [Trim(line)]
  {
    hide Trim;
    InitOfAppend(lines, line);
    assert Texts(lines) + [] == Texts(lines);
  }

  lemma {:induction false} DataNext(texts: seq<string>, t: string)
    requires t != ""
    ensures Data(texts + [t]) == if t[0] == '#' then Data(texts) else Data(texts) + [t]
  {
    InitOfAppend(texts, t);
    assert Data(texts) + [] == Data(texts);
  }

  lemma {:induction false} BodyNext(texts: seq<string>, t: string)
    ensures Body(texts + [t]) == if t == "# EOF" then texts else texts + [t]
    ensures Ended(texts + [t]) <==> t == "# EOF"
  {
    InitOfAppend(texts, t);
  }

  /** Behind an end mark no further text is regular. */
  lemma {:induction false} NothingBehindEnd(texts: seq<string>, t: string, samples: seq<ScrapedSample>, format: Format,
                                            limits: Limits, numbers: Numbers, handler: Handler)
    requires Ended(texts)
    ensures !Regular(texts + [t], samples, format, limits, numbers, handler)
  {
    BodyNext(texts, t);
    LastIsMember(texts);
    assert "# EOF" in texts && "# EOF" in texts + [t];
  }

  lemma {:induction false} EndMarkNext(texts: seq<string>, samples: seq<ScrapedSample>, format: Format,
                                       limits: Limits, numbers: Numbers, handler: Handler)
    requires !Ended(texts)
    ensures Regular(texts + ["# EOF"], samples, format, limits, numbers, handler) <==>
              Regular(texts, samples, format, limits, numbers, handler)
  {
    hide Data, Reads;
    BodyNext(texts, "# EOF");
  }

  lemma {:induction false} CommentNext(texts: seq<string>, t: string, samples: seq<ScrapedSample>, format: Format,
                                       limits: Limits, numbers: Numbers, handler: Handler)
    requires !Ended(texts) && t != "" && t[0] == '#' && t != "# EOF"
    ensures Regular(texts + [t], samples, format, limits, numbers, handler) <==>
              Regular(texts, samples, format, limits, numbers, handler)
  {
    hide Data, Reads;
    BodyNext(texts, t);
    DataNext(texts, t);
  }

  /** A sample line is regular after regular texts exactly if it reads, fits and is taken. */
  lemma {:induction false} SampleNext(texts: seq<string>, t: string, samples: seq<ScrapedSample>, format: Format,
                                      limits: Limits, numbers: Numbers, handler: Handler)
    requires !Ended(texts) && t != "" && t[0] != '#'
    ensures Regular(texts + [t], samples, format, limits, numbers, handler) <==>
              && samples != [] && Regular(texts, Init(samples), format, limits, numbers, handler)
              && SampleOf(t, format, limits, numbers) == Success(Last(samples))
              && |samples| <= limits.maxSamples && handler(Init(samples), Last(samples)).None?
  {
    hide Data, SampleOf, Reads;
    BodyNext(texts, t);
    DataNext(texts, t);
    ReadsNext(Data(texts), t, samples, format, limits, numbers);
  }

  lemma {:induction false} ReadsNext(data: seq<string>, t: string, samples: seq<ScrapedSample>, format: Format,
                                     limits: Limits, numbers: Numbers)
    ensures Reads(data + [t], samples, format, limits, numbers) <==>
              && samples != [] && Reads(data, Init(samples), format, limits, numbers)
              && SampleOf(t, format, limits, numbers) == Success(Last(samples))
  {
    hide SampleOf;
    var all := data + [t];
    assert all[|data|] == t && forall i :: 0 <= i < |data| ==> all[i] == data[i];
    if samples != [] {
      assert samples == Init(samples) + [Last(samples)];
    }
  }

  // ---------- Whole texts ----------

  /** A scan reads exactly the samples of regular lines, and knows whether they end. */
  lemma {:induction false} ScannedExactly(lines: seq<string>, samples: seq<ScrapedSample>, format: Format,
                                          limits: Limits, numbers: Numbers, handler: Handler)
    ensures
      var scanned := Scanned(lines, format, limits, numbers, handler);
      && (scanned.Success? && scanned.value.0 == samples <==>
            Regular(Texts(lines), samples, format, limits, numbers, handler))
      && (scanned.Success? ==> scanned.value.1 == Ended(Texts(lines)))
  {
    hide Scanned, Texts, Regular, Ended;
    if lines == [] {
      NothingScannedExactly(samples, format, limits, numbers, handler);
    } else {
      var init, line := Init(lines), Last(lines);
      assert lines == init + [line];
      var before := Scanned(init, format, limits, numbers, handler);
      forall s
        ensures before.Success? && before.value.0 == s <==> Regular(Texts(init), s, format, limits, numbers, handler)
      {
        ScannedExactly(init, s, format, limits, numbers, handler);
      }
      ScannedExactly(init, [], format, limits, numbers, handler);
      LineExactly(init, line, samples, format, limits, numbers, handler);
    }
  }

  lemma {:induction false} NothingScannedExactly(samples: seq<ScrapedSample>, format: Format, limits: Limits,
                                                 numbers: Numbers, handler: Handler)
    ensures Scanned([], format, limits, numbers, handler) == Success(([], false)) && !Ended(Texts([]))
    ensures Regular(Texts([]), samples, format, limits, numbers, handler) <==> samples == []
  {
    assert Texts([]) == [] && Data([]) == [];
  }

  lemma {:induction false} LineExactly(init: seq<string>, line: string, samples: seq<ScrapedSample>, format: Format,
                                       limits: Limits, numbers: Numbers, handler: Handler)
    requires
      var before := Scanned(init, format, limits, numbers, handler);
      && (before.Success? ==> before.value.1 == Ended(Texts(init)))
      && forall s ::
           before.Success? && before.value.0 == s <==> Regular(Texts(init), s, format, limits, numbers, handler)
    ensures
      var lines := init + [line];
      var scanned := Scanned(lines, format, limits, numbers, handler);
      && (scanned.Success? && scanned.value.0 == samples <==>
            Regular(Texts(lines), samples, format, limits, numbers, handler))
      && (scanned.Success? ==> scanned.value.1 == Ended(Texts(lines)))
  {
    hide Scanned, Texts, Regular, Ended, Trim, SampleOf;
    ScanNext(init, line, format, limits, numbers, handler);
    TextsNext(init, line);
    var texts, t := Texts(init), Trim(line);
    var before := Scanned(init, format, limits, numbers, handler);
    assert before.Success? ==> Regular(texts, before.value.0, format, limits, numbers, handler);
    if t != "" {
      BodyNext(texts, t);
      if Ended(texts) {
        NothingBehindEnd(texts, t, samples, format, limits, numbers, handler);
        assert before.Success? || !Regular(texts, samples, format, limits, numbers, handler);
      } else if t == "# EOF" {
        EndMarkNext(texts, samples, format, limits, numbers, handler);
      } else if t[0] == '#' {
        CommentNext(texts, t, samples, format, limits, numbers, handler);
      } else {
        SampleNext(texts, t, samples, format, limits, numbers, handler);
        assert samples != [] ==> samples == Init(samples) + [Last(samples)];
        ScannedSample(init, t, samples, format, limits, numbers, handler);
      }
    }
  }

  /** What the program does with one more line. */
  lemma {:induction false} ScanNext(init: seq<string>, line: string, format: Format, limits: Limits, numbers: Numbers,
                                    handler: Handler)
    ensures
      var before, after, t := Scanned(init, format, limits, numbers, handler),
          Scanned(init + [line], format, limits, numbers, handler), Trim(line);
      if before.Failure? then after.Failure?
      else if t == "" then after == before
      else if before.value.1 then after.Failure?
      else if t == "# EOF" then after == Success((before.value.0, true))
      else if t[0] == '#' then after == before
      else
        match SampleOf(t, format, limits, numbers)
        case Failure(_) => after.Failure?
        case Success(sample) =>
          if |before.value.0| + 1 > limits.maxSamples || handler(before.value.0, sample).Some? then after.Failure?
          else after == Success((before.value.0 + [sample], false))
  {
    hide SampleOf, Trim;
    InitOfAppend(init, line);
  }

  lemma {:induction false} ScannedSample(init: seq<string>, t: string, samples: seq<ScrapedSample>, format: Format,
                                         limits: Limits, numbers: Numbers, handler: Handler)
    ensures
      var before, sample := Scanned(init, format, limits, numbers, handler), SampleOf(t, format, limits, numbers);
      before.Success? && sample.Success? ==>
        (before.value.0 + [sample.value] == samples <==>
           samples != [] && before.value.0 == Init(samples) && sample.value == Last(samples))
  {
    hide Scanned, SampleOf;
    if samples != [] {
      assert samples == Init(samples) + [Last(samples)];
    }
  }

  /** A text parses to these samples exactly if its lines are regular, no reading error ended it, and it ends as its
      format demands: with a line feed, or with the end mark. */
  lemma {:induction false} ParsedExactly(input: Input, format: Format, limits: Limits, numbers: Numbers,
                                         handler: Handler, samples: seq<ScrapedSample>)
    ensures Parsed(input, format, limits, numbers, handler) == Success(samples) <==>
              && Regular(Texts(input.lines), samples, format, limits, numbers, handler)
              && input.readError.None?
              && (format == TextFormat && input.lastByte.Some? ==> input.lastByte.value == '\n')
              && (format == OpenMetricsFormat ==> Ended(Texts(input.lines)))
  {
    hide Scanned, Texts, Regular, Ended, Parsed;
    ParsedScans(input, format, limits, numbers, handler, samples);
    ScannedExactly(input.lines, samples, format, limits, numbers, handler);
  }

  /** What a parse adds to the scan of the lines. */
  lemma {:induction false} ParsedScans(input: Input, format: Format, limits: Limits, numbers: Numbers,
                                       handler: Handler, samples: seq<ScrapedSample>)
    ensures
      var scanned := Scanned(input.lines, format, limits, numbers, handler);
      Parsed(input, format, limits, numbers, handler) == Success(samples) <==>
        && scanned.Success? && scanned.value.0 == samples && input.readError.None?
        && (format == TextFormat && input.lastByte.Some? ==> input.lastByte.value == '\n')
        && (format == OpenMetricsFormat ==> scanned.value.1)
  {
    hide Scanned;
  }

  // ---------- Lines that do not matter ----------

  lemma {:induction false} TextsConcat(a: seq<string>, b: seq<string>)
    ensures Texts(a + b) == Texts(a) + Texts(b)
  {
    hide Trim;
    if b == [] {
      assert a + b == a && Texts(b) == [];
    } else {
      InitOfConcat(a, b);
      TextsConcat(a, Init(b));
    }
  }

  lemma {:induction false} TextsAround(a: seq<string>, line: string, b: seq<string>)
    ensures Texts(a + [line] + b) == Texts(a) + (if Trim(line) == "" then [] else [Trim(line)]) + Texts(b)
    ensures Texts(a + b) == Texts(a) + Texts(b)
  {
    hide Trim;
    TextsConcat(a + [line], b);
    TextsConcat(a, b);
    TextsNext(a, line);
    assert Texts(a) + [] == Texts(a);
  }

  /** A blank line can stand anywhere. */
  lemma {:induction false} BlankLineIsIgnored(a: seq<string>, line: string, b: seq<string>, format: Format,
                                              limits: Limits, numbers: Numbers, handler: Handler,
                                              readError: Option<ParseError>, lastByte: Option<char>,
                                              samples: seq<ScrapedSample>)
    requires Trim(line) == ""
    ensures
      var with, without := Input(a + [line] + b, readError, lastByte), Input(a + b, readError, lastByte);
      Parsed(with, format, limits, numbers, handler) == Success(samples) <==>
      Parsed(without, format, limits, numbers, handler) == Success(samples)
  {
    hide Parsed, Texts, Regular, Trim;
    ParsedExactly(Input(a + [line] + b, readError, lastByte), format, limits, numbers, handler, samples);
    ParsedExactly(Input(a + b, readError, lastByte), format, limits, numbers, handler, samples);
    TextsAround(a, line, b);
    assert Texts(a) + [] == Texts(a);
  }

  lemma {:induction false} DataConcat(a: seq<string>, b: seq<string>)
    ensures Data(a + b) == Data(a) + Data(b)
  {
    if b == [] {
      assert a + b == a;
    } else {
      InitOfConcat(a, b);
      DataConcat(a, Init(b));
    }
  }

  lemma {:induction false} BodyAround(a: seq<string>, t: string, b: seq<string>)
    requires "# EOF" !in a && t != "" && t[0] == '#' && t != "# EOF"
    ensures Data(Body(a + [t] + b)) == Data(Body(a + b)) && Ended(a + [t] + b) == Ended(a + b)
    ensures "# EOF" in Body(a + [t] + b) <==> "# EOF" in Body(a + b)
  {
    var rest := Body(b);
    if b == [] {
      assert a + [t] + b == a + [t] && a + b == a;
      BodyNext(a, t);
      if a != [] {
        LastIsMember(a);
      }
      DataNext(a, t);
    } else {
      InitOfConcat(a + [t], b);
      InitOfConcat(a, b);
      assert Body(a + [t] + b) == a + [t] + rest && Body(a + b) == a + rest;
      DataConcat(a + [t], rest);
      DataConcat(a, rest);
      DataNext(a, t);
    }
  }

  /** A comment can stand anywhere before the end mark. */
  lemma {:induction false} CommentIsIgnored(a: seq<string>, line: string, b: seq<string>, format: Format,
                                            limits: Limits, numbers: Numbers, handler: Handler,
                                            readError: Option<ParseError>, lastByte: Option<char>,
                                            samples: seq<ScrapedSample>)
    requires Trim(line) != "" && Trim(line)[0] == '#' && Trim(line) != "# EOF"
    requires forall l :: l in a ==> Trim(l) != "# EOF"
    ensures
      var with, without := Input(a + [line] + b, readError, lastByte), Input(a + b, readError, lastByte);
      Parsed(with, format, limits, numbers, handler) == Success(samples) <==>
      Parsed(without, format, limits, numbers, handler) == Success(samples)
  {
    hide Parsed, Texts, Trim, Body, Data, Ended, Reads, TakesAll;
    ParsedExactly(Input(a + [line] + b, readError, lastByte), format, limits, numbers, handler, samples);
    ParsedExactly(Input(a + b, readError, lastByte), format, limits, numbers, handler, samples);
    TextsAround(a, line, b);
    NoEndMark(a);
    BodyAround(Texts(a), Trim(line), Texts(b));
  }

  lemma {:induction false} NoEndMark(lines: seq<string>)
    requires forall l :: l in lines ==> Trim(l) != "# EOF"
    ensures "# EOF" !in Texts(lines)
  {
    hide Trim;
    if lines != [] {
      assert lines == Init(lines) + [Last(lines)];
      NoEndMark(Init(lines));
    }
  }

  // ---------- Documents with comments ----------

  /** A line of a document: a sample, a comment, or nothing but blanks. */
  datatype Item = Sampled(p: Printed) | Remark(text: string) | Empty(text: string)

  ghost predicate Fitting(item: Item, format: Format, limits: Limits, numbers: Numbers) {
    match item
    case Sampled(p) => Fit(p, format, limits, numbers)
    case Remark(text) => OneLine(text) && Trim(text) != "" && Trim(text)[0] == '#' && Trim(text) != "# EOF"
    case Empty(text) => OneLine(text) && Trim(text) == ""
  }

  function TextOf(item: Item): string {
    match item
    case Sampled(p) => LineOf(p)
    case Remark(text) => text
    case Empty(text) => text
  }

  function LinesOf(items: seq<Item>): seq<string> {
    if items == [] then [] else LinesOf(Init(items)) + [TextOf(Last(items))]
  }

  function SamplesOf(items: seq<Item>): seq<ScrapedSample> {
    if items == [] then []
    else SamplesOf(Init(items)) + if Last(items).Sampled? then [Meant(Last(items).p)] else []
  }

  function DocumentOf(items: seq<Item>, format: Format): string {
    Joined(LinesOf(items) + if format == OpenMetricsFormat then ["# EOF"] else [])
  }

  lemma {:induction false} LinesOfAreLines(items: seq<Item>, format: Format, limits: Limits, numbers: Numbers)
    requires forall item :: item in items ==> Fitting(item, format, limits, numbers)
    ensures forall l :: l in LinesOf(items) ==> OneLine(l)
  {
    hide Fit, OneLine, LineOf, Trim;
    if items != [] {
      var item := Last(items);
      LastIsMember(items);
      forall i | i in Init(items) ensures i in items {}
      LinesOfAreLines(Init(items), format, limits, numbers);
      if item.Sampled? {
        PrintedIsOneLine(item.p, format, limits, numbers);
      }
    }
  }

  lemma {:induction false} PrintedText(p: Printed, format: Format, limits: Limits, numbers: Numbers)
    requires Fit(p, format, limits, numbers)
    ensures
      var t := Trim(LineOf(p));
      t != "" && t[0] != '#' && SampleOf(t, format, limits, numbers) == Success(Meant(p))
  {
    hide ValidName, Word, ValidTimestamp, Printable, SampleOf, Trim, PrintSample;
    SampleReadsBack(p.name, p.labels, p.value, p.timestamp, format, limits, numbers);
    MetricNameIsNotEmpty(p.name);
  }

  lemma {:induction false} NotAMark(t: string)
    requires t != "" && t[0] != '#'
    ensures t != "# EOF"
  {
  }

  lemma {:induction false} ItemsAreRegular(items: seq<Item>, format: Format, limits: Limits, numbers: Numbers,
                                           handler: Handler)
    requires forall item :: item in items ==> Fitting(item, format, limits, numbers)
    requires |SamplesOf(items)| <= limits.maxSamples && TakesAll(handler, SamplesOf(items))
    ensures Regular(Texts(LinesOf(items)), SamplesOf(items), format, limits, numbers, handler)
    ensures !Ended(Texts(LinesOf(items)))
  {
    hide Fit, Trim, LineOf, Regular, SampleOf, OneLine, Texts, Ended;
    if items == [] {
      NothingIsRegular(format, limits, numbers, handler);
    } else {
      var init, item := Init(items), Last(items);
      LastIsMember(items);
      forall i | i in init ensures i in items {}
      var t := Trim(TextOf(item));
      assert SamplesOf(init) + [] == SamplesOf(init);
      ItemsAreRegular(init, format, limits, numbers, handler);
      TextsNext(LinesOf(init), TextOf(item));
      var texts := Texts(LinesOf(init));
      if t != "" {
        BodyNext(texts, t);
      }
      match item
      case Sampled(p) =>
        PrintedText(p, format, limits, numbers);
        NotAMark(t);
        InitOfAppend(SamplesOf(init), Meant(p));
        SampleNext(texts, t, SamplesOf(items), format, limits, numbers, handler);
      case Remark(_) => CommentNext(texts, t, SamplesOf(items), format, limits, numbers, handler);
      case Empty(_) =>
    }
  }

  lemma {:induction false} NothingIsRegular(format: Format, limits: Limits, numbers: Numbers, handler: Handler)
    ensures Regular(Texts([]), [], format, limits, numbers, handler) && !Ended(Texts([]))
  {
    assert Texts([]) == [] && Data([]) == [];
  }

  /** A document of samples with comments and blank lines between them parses to exactly these samples, in order. */
  lemma {:induction false} CommentedDocumentReadsBack(items: seq<Item>, format: Format, limits: Limits,
                                                      numbers: Numbers, handler: Handler)
    requires forall item :: item in items ==> Fitting(item, format, limits, numbers)
    requires |SamplesOf(items)| <= limits.maxSamples && TakesAll(handler, SamplesOf(items))
    ensures
      var text := DocumentOf(items, format);
      Parsed(Input(Lines(text), None, LastByte(text)), format, limits, numbers, handler) == Success(SamplesOf(items))
  {
    hide Fitting, Trim, OneLine, Lines, Joined, LinesOf, SamplesOf, Parsed, Regular, Texts, Ended;
    var lines := LinesOf(items) + if format == OpenMetricsFormat then ["# EOF"] else [];
    LinesOfAreLines(items, format, limits, numbers);
    EndMarkMeans(format, limits, numbers);
    LinesOfJoined(lines, "");
    assert Joined(lines) + "" == Joined(lines) && lines + Lines("") == lines by { NoLines(lines); }
    JoinedEndsWithLineFeed(lines);
    ItemsAreRegular(items, format, limits, numbers, handler);
    var text := Joined(lines);
    ParsedExactly(Input(lines, None, LastByte(text)), format, limits, numbers, handler, SamplesOf(items));
    if format == OpenMetricsFormat {
      TextsNext(LinesOf(items), "# EOF");
      BodyNext(Texts(LinesOf(items)), "# EOF");
      EndMarkNext(Texts(LinesOf(items)), SamplesOf(items), format, limits, numbers, handler);
    } else {
      assert lines == LinesOf(items);
    }
  }
}
