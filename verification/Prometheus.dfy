/** The exposition parser: Prometheus text format 0.0.4 and OpenMetrics 1.0.0 lines, with bounds on labels and samples.
    Strings hold Unicode scalar values. */
module Prometheus {
  import opened Common
  import opened Exposition

  datatype Format = TextFormat | OpenMetricsFormat

  datatype Limits = Limits(maxSamples: nat, maxLabels: nat, maxLabelBytes: nat)

  datatype ParseError = Malformed | LimitExceeded | HandlerFailed(cause: string)

  /** Number parsing as the standard library does it: a 64-bit float, and whether a text is a 64-bit integer. */
  datatype Numbers = Numbers(parseFloat: string -> Option<Number>, isInt64: string -> bool)

  // ---------- Strings ----------

  predicate IsSpace(c: char) {
    var u := c as int;
    9 <= u <= 13 || u == 0x20 || u == 0x85 || u == 0xA0 || u == 0x1680 || 0x2000 <= u <= 0x200A
    || u == 0x2028 || u == 0x2029 || u == 0x202F || u == 0x205F || u == 0x3000
  }

  function TrimLeft(s: string): (r: string)
    ensures |r| <= |s| && (r != "" ==> !IsSpace(r[0]))
  {
    if s != "" && IsSpace(s[0]) then TrimLeft(s[1..]) else s
  }

  function TrimRight(s: string): (r: string)
    ensures |r| <= |s| && (r != "" ==> !IsSpace(Last(r)) && s != "" && r[0] == s[0])
  {
    if s != "" && IsSpace(Last(s)) then TrimRight(Init(s)) else s
  }

  function Trim(s: string): (r: string)
    ensures |r| <= |s| && (r != "" ==> !IsSpace(r[0]) && !IsSpace(Last(r)))
  {
    TrimRight(TrimLeft(s))
  }

  function IndexOf(s: string, c: char): (r: Option<nat>)
    ensures r.Some? ==> r.value < |s| && s[r.value] == c
  {
    if s == "" then None
    else if s[0] == c then Some(0)
    else
      var later := IndexOf(s[1..], c);
      if later.Some? then Some(later.value + 1) else None
  }

  /** Where the metric name ends: the first brace, blank or tab. */
  function NameEnd(s: string): (r: Option<nat>)
    ensures r.Some? ==> r.value < |s| && s[r.value] in "{ \t"
  {
    if s == "" then None
    else if s[0] in "{ \t" then Some(0)
    else
      var later := NameEnd(s[1..]);
      if later.Some? then Some(later.value + 1) else None
  }

  /** The first " # ". */
  function ExemplarMark(s: string): (r: Option<nat>)
    ensures r.Some? ==> r.value + 3 <= |s| && s[r.value] == ' '
  {
    if |s| < 3 then None
    else if s[0] == ' ' && s[1] == '#' && s[2] == ' ' then Some(0)
    else
      var later := ExemplarMark(s[1..]);
      if later.Some? then Some(later.value + 1) else None
  }

  function WordLength(s: string): (n: nat)
    ensures n <= |s| && (s != "" && !IsSpace(s[0]) ==> n > 0)
  {
    if s == "" || IsSpace(s[0]) then 0 else 1 + WordLength(s[1..])
  }

  /** The words between runs of white space. */
  function Fields(s: string): seq<string>
    decreases |s|
  {
    var s := TrimLeft(s);
    if s == "" then []
    else
      var n := WordLength(s);
      [s[..n]] + Fields(s[n..])
  }

  function Utf8Bytes(c: char): nat {
    var u := c as int;
    if u < 0x80 then 1 else if u < 0x800 then 2 else if u < 0x10000 then 3 else 4
  }

  function Utf8Length(s: string): nat {
    if s == "" then 0 else Utf8Length(Init(s)) + Utf8Bytes(Last(s))
  }

  predicate NameChar(c: char, colon: bool, first: bool) {
    'a' <= c <= 'z' || 'A' <= c <= 'Z' || c == '_' || (colon && c == ':') || (!first && '0' <= c <= '9')
  }

  predicate ValidName(s: string, colon: bool) {
    s != "" && forall i :: 0 <= i < |s| ==> NameChar(s[i], colon, i == 0)
  }

  // ---------- Quoting, seen twice ----------

  /** The scan for the closing brace: the offset of the first brace outside quotes. */
  function LabelEnd(s: string, escaped: bool, quoted: bool): (r: Option<nat>)
    ensures r.Some? ==> r.value < |s| && s[r.value] == '}'
  {
    if s == "" then None
    else if !escaped && s[0] == '}' && !quoted then Some(0)
    else
      var later :=
        if escaped then LabelEnd(s[1..], false, quoted)
        else if s[0] == '\\' && quoted then LabelEnd(s[1..], true, quoted)
        else if s[0] == '"' then LabelEnd(s[1..], false, !quoted)
        else LabelEnd(s[1..], false, quoted);
      if later.Some? then Some(later.value + 1) else None
  }

  method FindLabelEnd(s: string) returns (end: Option<nat>)
    requires s != ""
    ensures end == if LabelEnd(s[1..], false, false).None? then None
                   else Some(LabelEnd(s[1..], false, false).value + 1)
  {
    var escaped, quoted := false, false;
    var i := 1;
    while i < |s|
      invariant 1 <= i <= |s|
      invariant
        var whole, rest := LabelEnd(s[1..], false, false), LabelEnd(s[i..], escaped, quoted);
        whole == if rest.None? then None else Some(rest.value + i - 1)
    {
      assert s[i..][1..] == s[i + 1..];
      if escaped {
        escaped := false;
      } else if s[i] == '\\' && quoted {
        escaped := true;
      } else if s[i] == '"' {
        quoted := !quoted;
      } else if s[i] == '}' && !quoted {
        return Some(i);
      }
      i := i + 1;
    }
    end := None;
  }

  function Unescaped(c: char): Option<char> {
    if c == '\\' || c == '"' then Some(c) else if c == 'n' then Some('\n') else None
  }

  /** Reads a value after its opening quote; also the length up to and with the closing quote. */
  function Unquote(s: string): (r: Result<(string, nat), ParseError>)
    ensures r.Success? ==> 0 < r.value.1 <= |s|
    decreases |s|
  {
    if s == "" then Failure(Malformed)
    else if s[0] == '"' then Success(("", 1))
    else if s[0] == '\\' then
      if |s| < 2 || Unescaped(s[1]).None? then Failure(Malformed)
      else Prefixed(Unescaped(s[1]).value, 2, Unquote(s[2..]))
    else Prefixed(s[0], 1, Unquote(s[1..]))
  }

  function Prefixed(c: char, n: nat, r: Result<(string, nat), ParseError>): Result<(string, nat), ParseError> {
    if r.Success? then Success(([c] + r.value.0, n + r.value.1)) else r
  }

  /** What was read so far, put before what is still to be read. */
  function Continued(value: string, n: nat, r: Result<(string, nat), ParseError>): Result<(string, nat), ParseError> {
    if r.Success? then Success((value + r.value.0, n + r.value.1)) else r
  }

  method QuotedValue(s: string) returns (r: Result<(string, nat), ParseError>)
    requires s != "" && s[0] == '"'
    ensures r == Continued("", 1, Unquote(s[1..]))
  {
    var value := "";
    var i := 1;
    while i < |s|
      invariant 1 <= i <= |s|
      invariant Continued(value, i, Unquote(s[i..])) == Continued("", 1, Unquote(s[1..]))
    {
      assert s[i..][1..] == s[i + 1..];
      if s[i] == '\\' {
        if i + 1 >= |s| {
          return Failure(Malformed);
        }
        assert s[i..][2..] == s[i + 2..] && s[i..][1] == s[i + 1];
        ghost var before := value;
        match s[i + 1] {
          case '\\' => value := value + ['\\'];
          case '"' => value := value + ['"'];
          case 'n' => value := value + ['\n'];
          case _ => return Failure(Malformed);
        }
        ContinuedStep(before, i, Unescaped(s[i + 1]).value, 2, Unquote(s[i + 2..]));
        i := i + 2;
      } else {
        if s[i] == '"' {
          assert value + "" == value;
          return Success((value, i + 1));
        }
        ContinuedStep(value, i, s[i], 1, Unquote(s[i + 1..]));
        value := value + [s[i]];
        i := i + 1;
      }
    }
    r := Failure(Malformed);
  }

  lemma {:induction false} ContinuedStep(value: string, n: nat, c: char, m: nat, r: Result<(string, nat), ParseError>)
    ensures Continued(value, n, Prefixed(c, m, r)) == Continued(value + [c], n + m, r)
  {
    if r.Success? {
      assert value + ([c] + r.value.0) == value + [c] + r.value.0;
    }
  }

  // ---------- Label sets ----------

  /** One label of a trimmed, nonempty text, and the trimmed text behind it. */
  function OneLabel(s: string, labels: seq<Label>, limits: Limits): (r: Result<(Label, string), ParseError>)
    ensures r.Success? ==> |r.value.1| < |s|
  {
    var eq := IndexOf(s, '=');
    if eq.None? || eq.value == 0 then Failure(Malformed)
    else
      var name := Trim(s[..eq.value]);
      var quoted := Trim(s[eq.value + 1..]);
      if !ValidName(name, false) || HasLabel(labels, name) || quoted == "" || quoted[0] != '"' then Failure(Malformed)
      else
        match Unquote(quoted[1..])
        case Failure(e) => Failure(e)
        case Success((value, n)) =>
          if |name| + Utf8Length(value) > limits.maxLabelBytes then Failure(LimitExceeded)
          else Success((Label(name, value), Trim(quoted[1 + n..])))
  }

  /** The labels of a block, after those already read. */
  function LabelsFrom(s: string, labels: seq<Label>, limits: Limits): Result<seq<Label>, ParseError>
    decreases |s|
  {
    var s := Trim(s);
    if s == "" then Success(labels)
    else
      match OneLabel(s, labels, limits)
      case Failure(e) => Failure(e)
      case Success((next, rest)) =>
        if |labels| + 1 > limits.maxLabels then Failure(LimitExceeded)
        else if rest == "" then Success(labels + [next])
        else if rest[0] != ',' then Failure(Malformed)
        else LabelsFrom(rest[1..], labels + [next], limits)
  }

  method ParseLabels(block: string, limits: Limits) returns (r: Result<seq<Label>, ParseError>)
    ensures r == LabelsFrom(block, [], limits)
  {
    hide IsSpace, ValidName, Utf8Length, Unquote;
    var labels: seq<Label> := [];
    var s := block;
    while Trim(s) != ""
      invariant LabelsFrom(s, labels, limits) == LabelsFrom(block, [], limits)
      decreases |s|
    {
      var step := ReadLabel(Trim(s), labels, limits);
      if step.Failure? {
        return Failure(step.error);
      }
      var (next, rest) := step.value;
      labels := labels + [next];
      if |labels| > limits.maxLabels {
        return Failure(LimitExceeded);
      }
      if rest == "" {
        return Success(labels);
      }
      if rest[0] != ',' {
        return Failure(Malformed);
      }
      s := rest[1..];
    }
    r := Success(labels);
  }

  method ReadLabel(s: string, labels: seq<Label>, limits: Limits) returns (r: Result<(Label, string), ParseError>)
    ensures r == OneLabel(s, labels, limits)
  {
    hide IsSpace, ValidName, Utf8Length, Unquote;
    var eq := IndexOf(s, '=');
    if eq.None? || eq.value == 0 {
      return Failure(Malformed);
    }
    var name := Trim(s[..eq.value]);
    if !ValidName(name, false) || HasLabel(labels, name) {
      return Failure(Malformed);
    }
    var quoted := Trim(s[eq.value + 1..]);
    if quoted == "" || quoted[0] != '"' {
      return Failure(Malformed);
    }
    var value := QuotedValue(quoted);
    if value.Failure? {
      return Failure(value.error);
    }
    assert value.value.0 == Unquote(quoted[1..]).value.0;
    if |name| + Utf8Length(value.value.0) > limits.maxLabelBytes {
      return Failure(LimitExceeded);
    }
    r := Success((Label(name, value.value.0), Trim(quoted[value.value.1..])));
  }

  // ---------- Lines ----------

  predicate ValidTimestamp(text: string, format: Format, numbers: Numbers) {
    if format == TextFormat then numbers.isInt64(text)
    else numbers.parseFloat(text).Some? && numbers.parseFloat(text).value.Finite?
  }

  /** A value with an optional timestamp. */
  function ValueAndTimestamp(s: string, format: Format, numbers: Numbers): Result<Number, ParseError> {
    var fields := Fields(s);
    if |fields| < 1 || |fields| > 2 || numbers.parseFloat(fields[0]).None? then Failure(Malformed)
    else if |fields| == 2 && !ValidTimestamp(fields[1], format, numbers) then Failure(Malformed)
    else Success(numbers.parseFloat(fields[0]).value)
  }

  function CheckExemplar(s: string, format: Format, limits: Limits, numbers: Numbers): Result<(), ParseError> {
    if s == "" || s[0] != '{' then Failure(Malformed)
    else
      var end := LabelEnd(s[1..], false, false);
      if end.None? then Failure(Malformed)
      else
        match LabelsFrom(s[1..end.value + 1], [], limits)
        case Failure(e) => Failure(e)
        case Success(_) =>
          match ValueAndTimestamp(Trim(s[end.value + 2..]), format, numbers)
          case Failure(e) => Failure(e)
          case Success(_) => Success(())
  }

  /** What follows the name and the labels. */
  function ParseTail(rest: string, format: Format, limits: Limits, numbers: Numbers): Result<Number, ParseError> {
    var mark := ExemplarMark(rest);
    if mark.None? then ValueAndTimestamp(rest, format, numbers)
    else if format != OpenMetricsFormat then Failure(Malformed)
    else
      match CheckExemplar(Trim(rest[mark.value + 3..]), format, limits, numbers)
      case Failure(e) => Failure(e)
      case Success(_) => ValueAndTimestamp(Trim(rest[..mark.value]), format, numbers)
  }

  function SampleOf(line: string, format: Format, limits: Limits, numbers: Numbers): Result<ScrapedSample, ParseError> {
    var nameEnd := NameEnd(line);
    if nameEnd.None? || !ValidName(line[..nameEnd.value], true) then Failure(Malformed)
    else
      var name, rest := line[..nameEnd.value], Trim(line[nameEnd.value..]);
      if rest != "" && rest[0] == '{' then
        var end := LabelEnd(rest[1..], false, false);
        if end.None? then Failure(Malformed)
        else
          match LabelsFrom(rest[1..end.value + 1], [], limits)
          case Failure(e) => Failure(e)
          case Success(labels) =>
            Measured(name, labels, ParseTail(Trim(rest[end.value + 2..]), format, limits, numbers))
      else Measured(name, [], ParseTail(rest, format, limits, numbers))
  }

  function Measured(name: string, labels: seq<Label>, value: Result<Number, ParseError>)
    : Result<ScrapedSample, ParseError>
  {
    match value
    case Failure(e) => Failure(e)
    case Success(v) => Success(ScrapedSample(name, labels, v))
  }

  method ParseSample(line: string, format: Format, limits: Limits, numbers: Numbers)
    returns (r: Result<ScrapedSample, ParseError>)
    ensures r == SampleOf(line, format, limits, numbers)
  {
    hide LabelEnd, LabelsFrom, ValidName, Trim, ParseTail;
    var nameEnd := NameEnd(line);
    if nameEnd.None? {
      return Failure(Malformed);
    }
    var name := line[..nameEnd.value];
    if !ValidName(name, true) {
      return Failure(Malformed);
    }
    var rest := Trim(line[nameEnd.value..]);
    var labels: seq<Label> := [];
    if rest != "" && rest[0] == '{' {
      var end := FindLabelEnd(rest);
      if end.None? {
        return Failure(Malformed);
      }
      var parsed := ParseLabels(rest[1..end.value], limits);
      if parsed.Failure? {
        return Failure(parsed.error);
      }
      labels := parsed.value;
      rest := Trim(rest[end.value + 1..]);
    }
    var value := ParseTail(rest, format, limits, numbers);
    if value.Failure? {
      return Failure(value.error);
    }
    r := Success(ScrapedSample(name, labels, value.value));
  }

  // ---------- Whole expositions ----------

  const EOF_LINE := "# EOF"

  /** The lines as the scanner hands them out, the error it ends with (the reader's, or a line that is longer than its
      buffer), and the last byte read if any. */
  datatype Input = Input(lines: seq<string>, readError: Option<ParseError>, lastByte: Option<char>)

  /** What the caller's handler answers to a sample, after the samples it took before: an error or none. */
  type Handler = (seq<ScrapedSample>, ScrapedSample) -> Option<string>

  /** What a line adds: nothing, the end mark, or a sample. */
  datatype LineMeaning = Skipped | EndMark | Measures(sample: ScrapedSample) | Refused(error: ParseError)

  function Meaning(line: string, format: Format, limits: Limits, numbers: Numbers): LineMeaning {
    var line := Trim(line);
    if line == "" then Skipped
    else if line == EOF_LINE then EndMark
    else if line[0] == '#' then Skipped
    else
      match SampleOf(line, format, limits, numbers)
      case Success(sample) => Measures(sample)
      case Failure(e) => Refused(e)
  }

  /** The samples of the lines so far and whether the end mark was seen, or the error of the line that stopped it. */
  function Scanned(lines: seq<string>, format: Format, limits: Limits, numbers: Numbers, handler: Handler)
    : Result<(seq<ScrapedSample>, bool), ParseError>
  {
    if lines == [] then Success(([], false))
    else
      match Scanned(Init(lines), format, limits, numbers, handler)
      case Failure(e) => Failure(e)
      case Success((samples, sawEOF)) =>
        if Trim(Last(lines)) == "" then Success((samples, sawEOF))
        else if sawEOF then Failure(Malformed)
        else
          match Meaning(Last(lines), format, limits, numbers)
          case Skipped => Success((samples, false))
          case EndMark => Success((samples, true))
          case Refused(e) => Failure(e)
          case Measures(sample) =>
            if |samples| + 1 > limits.maxSamples then Failure(LimitExceeded)
            else if handler(samples, sample).Some? then Failure(HandlerFailed(handler(samples, sample).value))
            else Success((samples + [sample], false))
  }

  function Parsed(input: Input, format: Format, limits: Limits, numbers: Numbers, handler: Handler)
    : Result<seq<ScrapedSample>, ParseError>
  {
    match Scanned(input.lines, format, limits, numbers, handler)
    case Failure(e) => Failure(e)
    case Success((samples, sawEOF)) =>
      if input.readError.Some? then Failure(input.readError.value)
      else if format == TextFormat && input.lastByte.Some? && input.lastByte.value != '\n' then Failure(Malformed)
      else if format == OpenMetricsFormat && !sawEOF then Failure(Malformed)
      else Success(samples)
  }

  /** Parses line by line; `handled` are the samples the handler took even if the parse fails later. */
  method Parse(input: Input, format: Format, limits: Limits, numbers: Numbers, handler: Handler)
    returns (r: Result<nat, ParseError>, handled: seq<ScrapedSample>)
    ensures match Parsed(input, format, limits, numbers, handler)
            case Success(samples) => r == Success(|samples|) && handled == samples
            case Failure(e) => r == Failure(e)
    ensures exists n :: 0 <= n <= |input.lines|
                        && Scanned(input.lines[..n], format, limits, numbers, handler).Success?
                        && Scanned(input.lines[..n], format, limits, numbers, handler).value.0 == handled
  {
    hide SampleOf, Trim, Scanned;
    NothingScanned(format, limits, numbers, handler);
    var sawEOF := false;
    handled := [];
    var i := 0;
    assert input.lines[..0] == [];
    while i < |input.lines|
      invariant 0 <= i <= |input.lines|
      invariant Scanned(input.lines[..i], format, limits, numbers, handler) == Success((handled, sawEOF))
    {
      ScannedNext(input.lines, i, format, limits, numbers, handler);
      StopsForGood(input.lines, i + 1, format, limits, numbers, handler);
      var line := Trim(input.lines[i]);
      i := i + 1;
      if line == "" {
        continue;
      }
      if sawEOF {
        return Failure(Malformed), handled;
      }
      if line == EOF_LINE {
        sawEOF := true;
        continue;
      }
      if line[0] == '#' {
        continue;
      }
      var sample := ParseSample(line, format, limits, numbers);
      if sample.Failure? {
        return Failure(sample.error), handled;
      }
      if |handled| + 1 > limits.maxSamples {
        return Failure(LimitExceeded), handled;
      }
      var answer := handler(handled, sample.value);
      if answer.Some? {
        return Failure(HandlerFailed(answer.value)), handled;
      }
      handled := handled + [sample.value];
    }
    WholePrefix(input.lines);
    if input.readError.Some? {
      return Failure(input.readError.value), handled;
    }
    if format == TextFormat && input.lastByte.Some? && input.lastByte.value != '\n' {
      return Failure(Malformed), handled;
    }
    if format == OpenMetricsFormat && !sawEOF {
      return Failure(Malformed), handled;
    }
    r := Success(|handled|);
  }

  lemma {:induction false} NothingScanned(format: Format, limits: Limits, numbers: Numbers, handler: Handler)
    ensures Scanned([], format, limits, numbers, handler) == Success(([], false))
  {
  }

  lemma {:induction false} ScannedNext(lines: seq<string>, i: nat, format: Format, limits: Limits, numbers: Numbers,
                                       handler: Handler)
    requires i < |lines| && Scanned(lines[..i], format, limits, numbers, handler).Success?
    ensures
      var (samples, sawEOF) := Scanned(lines[..i], format, limits, numbers, handler).value;
      Scanned(lines[..i + 1], format, limits, numbers, handler) ==
        if Trim(lines[i]) == "" then Success((samples, sawEOF))
        else if sawEOF then Failure(Malformed)
        else
          match Meaning(lines[i], format, limits, numbers)
          case Skipped => Success((samples, false))
          case EndMark => Success((samples, true))
          case Refused(e) => Failure(e)
          case Measures(sample) =>
            if |samples| + 1 > limits.maxSamples then Failure(LimitExceeded)
            else if handler(samples, sample).Some? then Failure(HandlerFailed(handler(samples, sample).value))
            else Success((samples + [sample], false))
  {
    hide SampleOf, Trim, Meaning;
    InitOfPrefix(lines, i);
  }

  /** A refused line decides the whole parse. */
  lemma {:induction false} StopsForGood(lines: seq<string>, n: nat, format: Format, limits: Limits, numbers: Numbers,
                                        handler: Handler)
    requires n <= |lines|
    ensures Scanned(lines[..n], format, limits, numbers, handler).Failure? ==>
              Scanned(lines, format, limits, numbers, handler) == Scanned(lines[..n], format, limits, numbers, handler)
    decreases |lines| - n
  {
    hide SampleOf, Trim, Meaning;
    if n < |lines| {
      InitOfPrefix(lines, n);
      StopsForGood(lines, n + 1, format, limits, numbers, handler);
    } else {
      WholePrefix(lines);
    }
  }
}
