/** Which texts are label sets and sample lines, told character by character: escapes, gaps, commas and limits. */
module PrometheusBlocks {
  import opened Common
  import opened Exposition
  import opened Prometheus
  import opened PrometheusLaws
  import opened PrometheusTails

  // ---------- Quoted values ----------

  /** The text between the quotes spells the value: a backslash stands before a backslash, a quote or an n, and no other
      backslash or quote occurs. */
  predicate Writes(e: string, v: string) {
    if e == "" then v == ""
    else if v == "" then false
    else if e[0] == '\\' then
      && |e| >= 2 && Writes(e[2..], v[1..])
      && ((e[1] == '\\' && v[0] == '\\') || (e[1] == '"' && v[0] == '"') || (e[1] == 'n' && v[0] == '\n'))
    else e[0] != '"' && v[0] == e[0] && Writes(e[1..], v[1..])
  }

  lemma {:induction false} QuotedExactly(s: string, v: string, n: nat)
    ensures Unquote(s) == Success((v, n)) <==> 0 < n <= |s| && s[n - 1] == '"' && Writes(s[..n - 1], v)
    decreases |s|
  {
    if s != "" && s[0] != '"' && 0 < n <= |s| {
      var step := if s[0] == '\\' then 2 else 1;
      if |s| >= step && n > step && v != "" {
        QuotedExactly(s[step..], v[1..], n - step);
        assert s[..n - 1][step..] == s[step..][..n - 1 - step];
        assert v == [v[0]] + v[1..];
      }
      if Unquote(s) == Success((v, n)) {
        UnquotedIsLonger(s, step);
      }
    }
  }

  lemma {:induction false} UnquotedIsLonger(s: string, step: nat)
    requires s != "" && s[0] != '"' && step == if s[0] == '\\' then 2 else 1
    ensures Unquote(s).Success? ==> Unquote(s).value.1 > step && Unquote(s).value.0 != ""
  {
  }

  // ---------- Trimming ----------

  lemma {:induction false} TrimRightOf(s: string, gap: string)
    requires Blank(gap) && (s == "" || !IsSpace(Last(s)))
    ensures TrimRight(s + gap) == s
  {
    hide IsSpace;
    if gap == "" {
      assert s + gap == s;
    } else {
      assert Init(s + gap) == s + Init(gap) && Last(s + gap) == Last(gap);
      TrimRightOf(s, Init(gap));
    }
  }

  /** Only the blanks around a text are cut. */
  lemma {:induction false} TrimOf(left: string, s: string, right: string)
    requires Blank(left) && Blank(right) && (s == "" || (!IsSpace(s[0]) && !IsSpace(Last(s))))
    ensures Trim(left + s + right) == s
  {
    hide IsSpace, Blank;
    if s == "" {
      BlankConcat(left, right);
      assert left + s + right == left + right && (left + right) + "" == left + right;
      TrimLeftOf(left + right, "");
    } else {
      assert left + s + right == left + (s + right);
      TrimLeftOf(left, s + right);
      TrimRightOf(s, right);
    }
  }

  lemma {:induction false} TrimAround(left: string, s: string, right: string)
    requires Blank(left) && Blank(right)
    ensures Trim(left + s + right) == Trim(s)
  {
    hide IsSpace, Blank, Trim;
    var a, b := TrimParts(s);
    BlankConcat(left, a);
    BlankConcat(b, right);
    assert left + s + right == (left + a) + Trim(s) + (b + right);
    TrimOf(left + a, Trim(s), b + right);
  }

  // ---------- One label ----------

  /** A label at the start of a text, as its parts: gaps, the name, the value as it is written, and what is behind. */
  datatype Parts = Parts(before: string, inner: string, outer: string, written: string, after: string, rest: string)

  function Joined(p: Parts, name: string): string {
    p.before + name + p.inner + "=" + p.outer + "\"" + p.written + "\"" + p.after + p.rest
  }

  predicate Gaps(p: Parts) {
    Blank(p.before) && Blank(p.inner) && Blank(p.outer) && Blank(p.after)
  }

  ghost predicate OneSpelled(s: string, l: Label, p: Parts) {
    s == Joined(p, l.name) && Gaps(p) && Writes(p.written, l.value)
  }

  /** A label set: labels with white space anywhere between their parts, commas between them, and perhaps one behind the
      last. */
  ghost predicate Spelled(s: string, labels: seq<Label>)
    decreases |labels|
  {
    if labels == [] then Blank(s)
    else
      exists p: Parts ::
        && OneSpelled(s, labels[0], p)
        && if p.rest == "" then |labels| == 1 else p.rest[0] == ',' && Spelled(p.rest[1..], labels[1..])
  }

  predicate Short(l: Label, limits: Limits) {
    |l.name| + Utf8Length(l.value) <= limits.maxLabelBytes
  }

  lemma {:induction false} EqualsAt(name: string, gap: string, behind: string)
    requires ValidName(name, false) && Blank(gap)
    ensures
      var s := name + gap + "=" + behind;
      && IndexOf(s, '=') == Some(|name + gap|) && s[..|name + gap|] == name + gap
      && s[|name + gap| + 1..] == behind && |name + gap| > 0
  {
    hide ValidName;
    forall i | 0 <= i < |name| ensures name[i] != '=' {
      NamesHaveNoSpecials(name, false, i);
    }
    forall i | 0 <= i < |gap| ensures gap[i] != '=' {
      assert IsSpace(gap[i]);
    }
    NotIn(name + gap, '=');
    IndexOfFirst(name + gap, '=', behind);
    NameIsNotEmpty(name);
    assert ['='] == "=";
  }

  /** A spelled label with a valid new name is read, unless it is too long. */
  lemma {:induction false} SpelledIsRead(s: string, l: Label, p: Parts, earlier: seq<Label>, limits: Limits)
    requires OneSpelled(s, l, p) && ValidName(l.name, false) && !HasLabel(earlier, l.name)
    requires p.rest == "" || p.rest[0] == ','
    ensures Trim(s) != ""
    ensures OneLabel(Trim(s), earlier, limits) ==
            if Short(l, limits) then Success((l, Trim(p.rest))) else Failure(LimitExceeded)
  {
    hide ValidName, IsSpace, Trim, Unquote, Blank, HasLabel, Utf8Length, IndexOf, Writes, TrimRight;
    var u := TrimRight(p.after + p.rest);
    var w := TrimRightParts(p.after + p.rest);
    var quoted := "\"" + p.written + "\"" + u;
    CoreIsTrimmed(s, l, p, u, w);
    EqualsAt(l.name, p.inner, p.outer + quoted);
    assert Trim(s) == l.name + p.inner + "=" + (p.outer + quoted);
    NameIsTrimmed(l.name, p.inner);
    QuotedIsTrimmed(p.outer, p.written, u);
    ValueIsRead(p.written, l.value, u);
    RestIsTrimmed(p, u, w);
    LabelOf(Trim(s), |l.name + p.inner|, quoted, |p.written| + 1, l, Trim(p.rest), earlier, limits);
  }

  lemma {:induction false} ValueIsRead(written: string, value: string, u: string)
    requires Writes(written, value)
    ensures
      var quoted := "\"" + written + "\"" + u;
      Unquote(quoted[1..]) == Success((value, |written| + 1)) && quoted[1 + (|written| + 1)..] == u
  {
    hide Writes, Unquote;
    var body := written + "\"" + u;
    assert ("\"" + written + "\"" + u)[1..] == body;
    QuotedExactly(body, value, |written| + 1);
    assert body[..|written|] == written;
  }

  lemma {:induction false} LabelOf(t: string, eq: nat, quoted: string, n: nat, l: Label, rest: string,
                                   earlier: seq<Label>, limits: Limits)
    requires IndexOf(t, '=') == Some(eq) && eq > 0 && Trim(t[..eq]) == l.name && Trim(t[eq + 1..]) == quoted
    requires quoted != "" && quoted[0] == '"' && Unquote(quoted[1..]) == Success((l.value, n))
    requires Trim(quoted[1 + n..]) == rest && ValidName(l.name, false) && !HasLabel(earlier, l.name)
    ensures OneLabel(t, earlier, limits) == if Short(l, limits) then Success((l, rest)) else Failure(LimitExceeded)
  {
    hide ValidName, IsSpace, Trim, Unquote, HasLabel, Utf8Length, IndexOf;
  }

  lemma {:induction false} RestIsTrimmed(p: Parts, u: string, w: string)
    requires p.after + p.rest == u + w && Blank(w) && Gaps(p)
    ensures Trim(u) == Trim(p.rest)
  {
    hide IsSpace, Trim, Blank;
    NoGap();
    assert "" + u + w == u + w && p.after + p.rest + "" == p.after + p.rest;
    TrimAround("", u, w);
    TrimAround(p.after, p.rest, "");
  }

  lemma {:induction false} NameIsTrimmed(name: string, gap: string)
    requires ValidName(name, false) && Blank(gap)
    ensures Trim(name + gap) == name
  {
    hide ValidName, IsSpace, Trim, Blank;
    NameIsNotEmpty(name);
    NamesHaveNoSpecials(name, false, 0);
    NamesHaveNoSpecials(name, false, |name| - 1);
    NoGap();
    assert "" + name + gap == name + gap;
    TrimOf("", name, gap);
  }

  lemma {:induction false} QuotedIsTrimmed(gap: string, written: string, u: string)
    requires Blank(gap) && (u == "" || !IsSpace(Last(u)))
    ensures
      var quoted := "\"" + written + "\"" + u;
      Trim(gap + quoted) == quoted && quoted != "" && quoted[0] == '"'
  {
    hide IsSpace, Trim, Blank;
    var quoted := "\"" + written + "\"" + u;
    QuoteIsNoSpace();
    NoGap();
    assert Last(quoted) == if u == "" then '"' else Last(u);
    assert gap + quoted + "" == gap + quoted;
    TrimOf(gap, quoted, "");
  }

  /** Where the blanks around a label and what is behind it end. */
  lemma {:induction false} CoreIsTrimmed(s: string, l: Label, p: Parts, u: string, w: string)
    requires OneSpelled(s, l, p) && ValidName(l.name, false)
    requires p.after + p.rest == u + w && Blank(w) && (u == "" || !IsSpace(Last(u)))
    ensures Trim(s) == l.name + p.inner + "=" + p.outer + "\"" + p.written + "\"" + u
    ensures Trim(s) != ""
  {
    hide ValidName, IsSpace, Trim, Blank, Writes;
    var front := l.name + p.inner + "=" + p.outer + "\"" + p.written + "\"";
    var core := front + u;
    NameIsNotEmpty(l.name);
    NamesHaveNoSpecials(l.name, false, 0);
    QuoteIsNoSpace();
    assert core[0] == l.name[0] && Last(core) == if u == "" then '"' else Last(u);
    assert s == p.before + front + (p.after + p.rest);
    assert s == p.before + core + w;
    TrimOf(p.before, core, w);
  }

  /** A label that is read is spelled at the start of the text. */
  lemma {:induction false} ReadIsSpelled(s: string, earlier: seq<Label>, limits: Limits)
    returns (p: Parts, right: string)
    requires OneLabel(Trim(s), earlier, limits).Success?
    ensures
      var (l, rest) := OneLabel(Trim(s), earlier, limits).value;
      && OneSpelled(s, l, p) && ValidName(l.name, false) && !HasLabel(earlier, l.name) && Short(l, limits)
      && Blank(right) && p.rest == (if rest == "" then "" else rest + right)
  {
    hide ValidName, IsSpace, Trim, Unquote, Blank, HasLabel, Utf8Length, IndexOf, Writes;
    var t := Trim(s);
    var (l, rest) := OneLabel(t, earlier, limits).value;
    var eq := IndexOf(t, '=').value;
    var quoted := Trim(t[eq + 1..]);
    var n := Unquote(quoted[1..]).value.1;
    var sl, sr := TrimParts(s);
    var nl, nr := TrimParts(t[..eq]);
    var ql, qr := TrimParts(t[eq + 1..]);
    var tl, tr := TrimParts(quoted[1 + n..]);
    QuotedExactly(quoted[1..], l.value, n);
    var written := quoted[1..][..n - 1];
    assert quoted == "\"" + written + "\"" + (tl + rest + tr);
    BlankConcat(sl, nl);
    right := tr + qr + sr;
    BlankConcat(tr, qr);
    BlankConcat(tr + qr, sr);
    p := if rest == "" then Parts(sl + nl, nr, ql, written, tl + right, "")
         else Parts(sl + nl, nr, ql, written, tl, rest + right);
    BlankConcat(tl, right);
    Assembled(s, t, eq, l.name, quoted, written, sl, sr, nl, nr, ql, qr, tl, tr, rest);
  }

  lemma {:induction false} Assembled(s: string, t: string, eq: nat, name: string, quoted: string, written: string,
                                     sl: string, sr: string, nl: string, nr: string, ql: string, qr: string,
                                     tl: string, tr: string, rest: string)
    requires s == sl + t + sr && eq < |t| && t[eq] == '='
    requires t[..eq] == nl + name + nr && t[eq + 1..] == ql + quoted + qr
    requires quoted == "\"" + written + "\"" + (tl + rest + tr)
    ensures s == Joined(Parts(sl + nl, nr, ql, written, tl, rest + (tr + qr + sr)), name)
    ensures rest == "" ==> s == Joined(Parts(sl + nl, nr, ql, written, tl + (tr + qr + sr), ""), name)
  {
    hide Joined;
    var core, right := "\"" + written + "\"", tr + qr + sr;
    assert t == t[..eq] + "=" + t[eq + 1..];
    HeadRegrouped(sl, nl, name, nr, ql, quoted, qr, sr);
    TailRegrouped(core, tl, rest, tr, qr, sr);
    assert s == (sl + nl) + name + nr + "=" + ql + core + (tl + (rest + right));
    if rest == "" {
      assert tl + (rest + right) == (tl + right) + "";
    }
    JoinedParts(sl + nl, nr, ql, written, tl, rest + right, name);
    JoinedParts(sl + nl, nr, ql, written, tl + right, "", name);
  }

  lemma {:induction false} HeadRegrouped(sl: string, nl: string, name: string, nr: string, ql: string, quoted: string,
                                         qr: string, sr: string)
    ensures sl + (nl + name + nr + "=" + (ql + quoted + qr)) + sr ==
            (sl + nl) + name + nr + "=" + ql + (quoted + qr + sr)
  {
  }

  lemma {:induction false} TailRegrouped(core: string, tl: string, rest: string, tr: string, qr: string, sr: string)
    ensures core + (tl + rest + tr) + qr + sr == core + (tl + (rest + (tr + qr + sr)))
  {
  }

  lemma {:induction false} JoinedParts(before: string, inner: string, outer: string, written: string, after: string,
                                       rest: string, name: string)
    ensures Joined(Parts(before, inner, outer, written, after, rest), name) ==
            before + name + inner + "=" + outer + ("\"" + written + "\"") + (after + rest)
  {
  }

  // ---------- Label sets ----------

  /** Trimming what is behind a label first makes no difference. */
  lemma {:induction false} BehindComma(rest: string)
    requires rest != "" && rest[0] == ','
    ensures Trim(rest) != "" && Trim(rest)[0] == ',' && Trim(Trim(rest)[1..]) == Trim(rest[1..])
  {
    hide IsSpace, Trim, Blank;
    QuoteIsNoSpace();
    NoGap();
    var w := TrimRightParts(rest[1..]);
    var core := "," + TrimRight(rest[1..]);
    assert core[0] == ',' && Last(core) == if TrimRight(rest[1..]) == "" then ',' else Last(TrimRight(rest[1..]));
    assert rest == "" + core + w;
    TrimOf("", core, w);
    assert core[1..] == TrimRight(rest[1..]);
    assert rest[1..] == "" + core[1..] + w;
    TrimAround("", core[1..], w);
  }

  lemma {:induction false} SameTrimmed(s: string, t: string, earlier: seq<Label>, limits: Limits)
    requires Trim(s) == Trim(t)
    ensures LabelsFrom(s, earlier, limits) == LabelsFrom(t, earlier, limits)
  {
    hide Trim, OneLabel;
  }

  ghost predicate AllShort(labels: seq<Label>, limits: Limits) {
    forall i :: 0 <= i < |labels| ==> Short(labels[i], limits)
  }

  /** Valid names, none of them twice. */
  ghost predicate Proper(labels: seq<Label>, earlier: seq<Label>) {
    && DistinctNames(labels) && FreshNames(labels, earlier)
    && forall i :: 0 <= i < |labels| ==> ValidName(labels[i].name, false)
  }

  lemma {:induction false} ProperRest(labels: seq<Label>, earlier: seq<Label>)
    requires labels != [] && Proper(labels, earlier)
    ensures Proper(labels[1..], earlier + [labels[0]]) && !HasLabel(earlier, labels[0].name)
  {
    hide ValidName;
    NamesStayFresh(labels, earlier);
    FirstIsFresh(labels, earlier);
  }

  lemma {:induction false} ShortRest(labels: seq<Label>, limits: Limits)
    requires labels != []
    ensures AllShort(labels, limits) <==> Short(labels[0], limits) && AllShort(labels[1..], limits)
  {
    hide Short;
    if Short(labels[0], limits) && AllShort(labels[1..], limits) {
      forall i | 0 <= i < |labels| ensures Short(labels[i], limits) {
        if i > 0 {
          assert labels[i] == labels[1..][i - 1];
        }
      }
    }
    if AllShort(labels, limits) {
      assert forall i :: 0 <= i < |labels[1..]| ==> labels[1..][i] == labels[i + 1];
    }
  }

  /** A spelled set with proper names is read within the limits, and refused for the limits beyond them. */
  lemma {:induction false} SpelledIsParsed(s: string, labels: seq<Label>, earlier: seq<Label>, limits: Limits)
    requires Spelled(s, labels) && Proper(labels, earlier) && |earlier| <= limits.maxLabels
    ensures LabelsFrom(s, earlier, limits) ==
            if |earlier| + |labels| <= limits.maxLabels && AllShort(labels, limits) then Success(earlier + labels)
            else Failure(LimitExceeded)
    decreases |labels|
  {
    hide OneLabel, Trim, Short, OneSpelled, Proper, Blank, AllShort;
    if labels == [] {
      BlankIsNothing(s, earlier, limits);
      EmptyIsShort(limits);
      assert earlier + labels == earlier;
    } else {
      var l := labels[0];
      var p: Parts :| OneSpelled(s, l, p)
                      && if p.rest == "" then |labels| == 1 else p.rest[0] == ',' && Spelled(p.rest[1..], labels[1..]);
      ProperFirst(labels, earlier);
      ProperRest(labels, earlier);
      SpelledIsRead(s, l, p, earlier, limits);
      ShortRest(labels, limits);
      if p.rest == "" {
        TrimEmpty();
        assert labels == [l];
        EmptyIsShort(limits);
      } else {
        BehindComma(p.rest);
        SameTrimmed(Trim(p.rest)[1..], p.rest[1..], earlier + [l], limits);
        if |earlier| < limits.maxLabels {
          SpelledIsParsed(p.rest[1..], labels[1..], earlier + [l], limits);
          assert earlier + [l] + labels[1..] == earlier + labels;
        }
      }
    }
  }

  lemma {:induction false} ProperFirst(labels: seq<Label>, earlier: seq<Label>)
    requires labels != [] && Proper(labels, earlier)
    ensures ValidName(labels[0].name, false)
  {
  }

  lemma {:induction false} EmptyIsShort(limits: Limits)
    ensures AllShort([], limits)
  {
  }

  lemma {:induction false} BlankIsNothing(s: string, earlier: seq<Label>, limits: Limits)
    ensures Blank(s) ==> Trim(s) == "" && LabelsFrom(s, earlier, limits) == Success(earlier)
    ensures Trim(s) == "" ==> Blank(s)
  {
    hide IsSpace, Trim, Blank;
    if Blank(s) {
      NoGap();
      TrimEmpty();
      assert s == s + "" + "";
      TrimAround(s, "", "");
    }
    if Trim(s) == "" {
      var a, b := TrimParts(s);
      BlankConcat(a, b);
      assert s == a + b;
    }
  }

  /** A set that is read is spelled by the text. */
  lemma {:induction false} ParsedIsSpelled(s: string, earlier: seq<Label>, limits: Limits) returns (labels: seq<Label>)
    requires LabelsFrom(s, earlier, limits).Success?
    ensures LabelsFrom(s, earlier, limits) == Success(earlier + labels) && Spelled(s, labels)
    decreases |s|
  {
    hide OneLabel, Trim, Blank, OneSpelled, Short;
    if Trim(s) == "" {
      labels := [];
      BlankIsNothing(s, earlier, limits);
      assert earlier + [] == earlier;
    } else {
      var (l, rest) := OneLabel(Trim(s), earlier, limits).value;
      var p, right := ReadIsSpelled(s, earlier, limits);
      if rest == "" {
        labels := [l];
      } else {
        var more := ParsedIsSpelled(rest[1..], earlier + [l], limits);
        SpelledGrows(rest[1..], right, more);
        assert p.rest[1..] == rest[1..] + right;
        labels := [l] + more;
        assert labels[1..] == more;
        assert earlier + [l] + more == earlier + labels;
      }
    }
  }

  /** More white space at the end changes nothing. */
  lemma {:induction false} SpelledGrows(s: string, w: string, labels: seq<Label>)
    requires Spelled(s, labels) && Blank(w)
    ensures Spelled(s + w, labels)
    decreases |labels|
  {
    hide Blank, OneSpelled;
    if labels == [] {
      BlankConcat(s, w);
    } else {
      var l := labels[0];
      var p: Parts :| OneSpelled(s, l, p)
                      && if p.rest == "" then |labels| == 1 else p.rest[0] == ',' && Spelled(p.rest[1..], labels[1..]);
      var q := PartsGrow(s, l, p, w);
      if p.rest != "" {
        SpelledGrows(p.rest[1..], w, labels[1..]);
        assert q.rest[1..] == p.rest[1..] + w && q.rest[0] == p.rest[0];
      }
    }
  }

  lemma {:induction false} PartsGrow(s: string, l: Label, p: Parts, w: string) returns (q: Parts)
    requires OneSpelled(s, l, p) && Blank(w)
    ensures OneSpelled(s + w, l, q) && q.rest == if p.rest == "" then "" else p.rest + w
  {
    hide Blank, Writes, Joined;
    q := if p.rest == "" then p.(after := p.after + w) else p.(rest := p.rest + w);
    BlankConcat(p.after, w);
    JoinedGrows(p, l.name, w);
  }

  lemma {:induction false} JoinedGrows(p: Parts, name: string, w: string)
    ensures Joined(p, name) + w == Joined(p.(rest := p.rest + w), name)
    ensures p.rest == "" ==> Joined(p, name) + w == Joined(p.(after := p.after + w), name)
  {
    var front := p.before + name + p.inner + "=" + p.outer + "\"" + p.written + "\"";
    assert Joined(p, name) == front + (p.after + p.rest);
    assert p.after + p.rest + w == p.after + (p.rest + w);
    if p.rest == "" {
      assert p.after + p.rest + w == (p.after + w) + "";
    }
  }

  /** A block is read as these labels exactly if it spells them, their names are valid and distinct, and they are within
      the limits. */
  lemma {:induction false} BlockExactly(s: string, labels: seq<Label>, limits: Limits)
    ensures LabelsFrom(s, [], limits) == Success(labels) <==> Spelled(s, labels) && Printable(labels, limits)
  {
    hide LabelsFrom, Spelled, ValidName, Utf8Length;
    NothingEarlier(labels);
    assert [] + labels == labels;
    if LabelsFrom(s, [], limits) == Success(labels) {
      AcceptedIsPrintable(s, [], limits);
      var spelled := ParsedIsSpelled(s, [], limits);
      assert [] + spelled == spelled;
    }
    if Spelled(s, labels) && Printable(labels, limits) {
      PrintableIsProper(labels, limits);
      SpelledIsParsed(s, labels, [], limits);
    }
  }

  lemma {:induction false} PrintableIsProper(labels: seq<Label>, limits: Limits)
    requires FreshNames(labels, [])
    ensures Printable(labels, limits) <==>
              Proper(labels, []) && AllShort(labels, limits) && |labels| <= limits.maxLabels
  {
    hide ValidName, Utf8Length;
    assert forall i :: 0 <= i < |labels| ==> labels[i] in labels;
  }

  // ---------- Sample lines ----------

  /** Braces around a text that spells the labels, and what is behind them. */
  ghost predicate Braced(t: string, block: string, tail: string, labels: seq<Label>, limits: Limits) {
    t == "{" + block + "}" + tail && Spelled(block, labels) && Printable(labels, limits)
  }

  /** What is behind a metric name: labels in braces or none, and a value. */
  ghost predicate ReadsBehindName(t: string, labels: seq<Label>, v: Number, format: Format, limits: Limits,
                                  numbers: Numbers)
  {
    if t != "" && t[0] == '{' then
      exists block, tail ::
        Braced(t, block, tail, labels, limits) && ReadsTail(Trim(tail), v, format, limits, numbers)
    else labels == [] && ReadsTail(t, v, format, limits, numbers)
  }

  /** The braces of a spelled set are those the scan finds. */
  lemma {:induction false} BracesAreFound(t: string, block: string, tail: string, labels: seq<Label>, limits: Limits)
    requires Braced(t, block, tail, labels, limits)
    ensures LabelEnd(t[1..], false, false) == Some(|block|) && t[1..|block| + 1] == block && t[|block| + 2..] == tail
    ensures LabelsFrom(block, [], limits) == Success(labels)
  {
    hide Spelled, Printable, LabelsFrom, LabelEnd;
    BlockExactly(block, labels, limits);
    BlockIsCutAtItsBrace(block, limits, tail);
    assert t[1..] == block + "}" + tail;
  }

  lemma {:induction false} FoundIsBraced(t: string, labels: seq<Label>, limits: Limits)
    requires t != "" && t[0] == '{' && LabelEnd(t[1..], false, false).Some?
    requires LabelsFrom(t[1..LabelEnd(t[1..], false, false).value + 1], [], limits) == Success(labels)
    ensures
      var end := LabelEnd(t[1..], false, false).value;
      Braced(t, t[1..end + 1], t[end + 2..], labels, limits)
  {
    hide Spelled, Printable, LabelsFrom, LabelEnd;
    var end := LabelEnd(t[1..], false, false).value;
    assert t[1..][end] == t[end + 1];
    BlockExactly(t[1..end + 1], labels, limits);
    assert t == "{" + t[1..end + 1] + "}" + t[end + 2..];
  }

  /** A line is this sample exactly if a valid name stands before a brace, a blank or a tab, and the labels and the
      value are spelled behind it. */
  lemma {:induction false} SampleExactly(line: string, sample: ScrapedSample, format: Format, limits: Limits,
                                         numbers: Numbers)
    ensures SampleOf(line, format, limits, numbers) == Success(sample) <==>
              exists rest ::
                && line == sample.name + rest && ValidName(sample.name, true) && rest != "" && rest[0] in "{ \t"
                && ReadsBehindName(Trim(rest), sample.labels, sample.value, format, limits, numbers)
  {
    hide ValidName, SampleOf, Trim, ReadsBehindName;
    if SampleOf(line, format, limits, numbers) == Success(sample) {
      SampleHasName(line, format, limits, numbers);
      var rest := line[|sample.name|..];
      assert line == sample.name + rest;
      NamedLine(sample.name, rest, sample, format, limits, numbers);
    }
    if rest :|
      && line == sample.name + rest && ValidName(sample.name, true) && rest != "" && rest[0] in "{ \t"
      && ReadsBehindName(Trim(rest), sample.labels, sample.value, format, limits, numbers)
    {
      NamedLine(sample.name, rest, sample, format, limits, numbers);
    }
  }

  lemma {:induction false} NamedLine(name: string, rest: string, sample: ScrapedSample, format: Format, limits: Limits,
                                     numbers: Numbers)
    requires ValidName(name, true) && rest != "" && rest[0] in "{ \t"
    ensures SampleOf(name + rest, format, limits, numbers) == Success(sample) <==>
              && sample.name == name
              && ReadsBehindName(Trim(rest), sample.labels, sample.value, format, limits, numbers)
  {
    hide ValidName, ParseTail, Trim, NameEnd, LabelEnd, LabelsFrom, Braced, ReadsTail;
    NameEndAt(name, rest);
    assert (name + rest)[..|name|] == name && (name + rest)[|name|..] == rest;
    var t := Trim(rest);
    if t != "" && t[0] == '{' {
      BracedLine(t, sample, format, limits, numbers);
    } else {
      TailExactly(t, sample.value, format, limits, numbers);
    }
  }

  lemma {:induction false} BracedLine(t: string, sample: ScrapedSample, format: Format, limits: Limits,
                                      numbers: Numbers)
    requires t != "" && t[0] == '{'
    ensures
      var end := LabelEnd(t[1..], false, false);
      ReadsBehindName(t, sample.labels, sample.value, format, limits, numbers) <==>
        && end.Some? && LabelsFrom(t[1..end.value + 1], [], limits) == Success(sample.labels)
        && ParseTail(Trim(t[end.value + 2..]), format, limits, numbers) == Success(sample.value)
  {
    hide ParseTail, Trim, LabelEnd, LabelsFrom, Braced, ReadsTail;
    var end := LabelEnd(t[1..], false, false);
    if end.Some? && LabelsFrom(t[1..end.value + 1], [], limits) == Success(sample.labels) {
      FoundIsBraced(t, sample.labels, limits);
      TailExactly(Trim(t[end.value + 2..]), sample.value, format, limits, numbers);
    }
    if block, tail :| Braced(t, block, tail, sample.labels, limits)
                      && ReadsTail(Trim(tail), sample.value, format, limits, numbers) {
      BracesAreFound(t, block, tail, sample.labels, limits);
      TailExactly(Trim(tail), sample.value, format, limits, numbers);
    }
  }

  /** An exemplar is a label set in braces and a value with an optional timestamp. */
  lemma {:induction false} ExemplarSpelled(s: string, format: Format, limits: Limits, numbers: Numbers)
    ensures Exemplifies(s, format, limits, numbers) <==>
              exists block, tail, labels ::
                Braced(Trim(s), block, tail, labels, limits) && ReadsSomeNumber(tail, format, numbers)
  {
    hide Trim, LabelEnd, LabelsFrom, Braced, ReadsNumber;
    var t := Trim(s);
    if Exemplifies(s, format, limits, numbers) {
      var end := LabelEnd(t[1..], false, false).value;
      FoundIsBraced(t, LabelsFrom(t[1..end + 1], [], limits).value, limits);
    }
    if block, tail, labels :| Braced(t, block, tail, labels, limits) && ReadsSomeNumber(tail, format, numbers) {
      BracesAreFound(t, block, tail, labels, limits);
      BracedStarts(t, block, tail, labels, limits);
    }
  }

  lemma {:induction false} BracedStarts(t: string, block: string, tail: string, labels: seq<Label>, limits: Limits)
    requires Braced(t, block, tail, labels, limits)
    ensures t != "" && t[0] == '{'
  {
  }
}
