/** The Caddy series identity: sorted labels, each part quoted as Go's strconv.Quote does. */
module Identity {
  import opened Common
  import opened Exposition

  // ---------- Quoting ----------

  const HEX := "0123456789abcdef"

  function Hex(n: nat, width: nat): (r: string)
    ensures |r| == width
  {
    if width == 0 then "" else Hex(n / 16, width - 1) + [HEX[n % 16]]
  }

  /** Letters of the single-character escapes \a \b \f \n \r \t \v. */
  function ControlLetter(code: int): char {
    match code
    case 7 => 'a'
    case 8 => 'b'
    case 12 => 'f'
    case 10 => 'n'
    case 13 => 'r'
    case 9 => 't'
    case 11 => 'v'
    case _ => '0'
  }

  /** One rune inside a quoted string; `printable` is the Unicode table that decides what is kept as it is. */
  function EscapeRune(c: char, printable: char -> bool): string {
    var code := c as int;
    if c == '"' || c == '\\' then ['\\', c]
    else if printable(c) then [c]
    else if 7 <= code <= 13 then ['\\', ControlLetter(code)]
    else if code < 0x20 || code == 0x7f then "\\x" + Hex(code, 2)
    else if code < 0x10000 then "\\u" + Hex(code, 4)
    else "\\U" + Hex(code, 8)
  }

  function EscapeAll(s: string, printable: char -> bool): string {
    if s == "" then "" else EscapeRune(s[0], printable) + EscapeAll(s[1..], printable)
  }

  function Quote(s: string, printable: char -> bool): string {
    "\"" + EscapeAll(s, printable) + "\""
  }

  // ---------- Unique decoding ----------

  lemma {:induction false} HexInjective(m: nat, n: nat, width: nat)
    requires Hex(m, width) == Hex(n, width)
    ensures width == 2 && m < 0x100 && n < 0x100 ==> m == n
    ensures width == 4 && m < 0x10000 && n < 0x10000 ==> m == n
    ensures width == 8 && m < 0x1_0000_0000 && n < 0x1_0000_0000 ==> m == n
  {
    HexInjectiveBelow(m, n, width);
    assert Power16(2) == 0x100 && Power16(4) == 0x10000 && Power16(8) == 0x1_0000_0000;
  }

  function Power16(k: nat): nat {
    if k == 0 then 1 else 16 * Power16(k - 1)
  }

  lemma {:induction false} HexInjectiveBelow(m: nat, n: nat, width: nat)
    requires Hex(m, width) == Hex(n, width)
    ensures m < Power16(width) && n < Power16(width) ==> m == n
  {
    if width > 0 {
      var a, b := Hex(m / 16, width - 1), Hex(n / 16, width - 1);
      assert (a + [HEX[m % 16]])[..width - 1] == a && (b + [HEX[n % 16]])[..width - 1] == b;
      assert (a + [HEX[m % 16]])[width - 1] == HEX[m % 16] && (b + [HEX[n % 16]])[width - 1] == HEX[n % 16];
      HexDigitInjective(m % 16, n % 16);
      HexInjectiveBelow(m / 16, n / 16, width - 1);
    }
  }

  lemma {:induction false} HexDigitInjective(m: nat, n: nat)
    requires m < 16 && n < 16 && HEX[m] == HEX[n]
    ensures m == n
  {
  }

  lemma {:induction false} SplitAt<T>(a: seq<T>, x: seq<T>, b: seq<T>, y: seq<T>)
    requires a + x == b + y && |a| == |b|
    ensures a == b && x == y
  {
    assert (a + x)[..|a|] == a && (b + y)[..|b|] == b;
    assert (a + x)[|a|..] == x && (b + y)[|b|..] == y;
  }

  /** The second character of an escape tells its length. */
  lemma {:induction false} EscapeShape(c: char, printable: char -> bool)
    ensures
      var e := EscapeRune(c, printable);
      |e| >= 1 && e[0] != '"' &&
      if e[0] != '\\' then e == [c]
      else
        |e| >= 2 && |e| == if e[1] == 'x' then 4 else if e[1] == 'u' then 6 else if e[1] == 'U' then 10 else 2
  {
  }

  lemma {:induction false} EscapeInjective(c: char, d: char, printable: char -> bool)
    requires EscapeRune(c, printable) == EscapeRune(d, printable)
    ensures c == d
  {
    var e, f := EscapeRune(c, printable), EscapeRune(d, printable);
    EscapeShape(c, printable);
    EscapeShape(d, printable);
    if e[0] == '\\' && |e| > 2 {
      HexTail(c, printable);
      HexTail(d, printable);
      HexInjective(c as int, d as int, |e| - 2);
    } else if e[0] == '\\' {
      assert e[1] == f[1];
    }
  }

  lemma {:induction false} HexTail(c: char, printable: char -> bool)
    requires |EscapeRune(c, printable)| > 2
    ensures
      var e := EscapeRune(c, printable);
      && |e| - 2 in {2, 4, 8} && e[2..] == Hex(c as int, |e| - 2)
      && (|e| == 4 ==> c as int < 0x100) && (|e| == 6 ==> c as int < 0x10000)
           && (|e| == 10 ==> c as int < 0x1_0000_0000)
  {
    var e := EscapeRune(c, printable);
    var h := Hex(c as int, |e| - 2);
    assert (e[..2] + h)[2..] == h;
  }

  /** Escapes form a prefix code: one rune can be read off a string in one way only. */
  lemma {:induction false} RunePrefixFree(c: char, x: string, d: char, y: string, printable: char -> bool)
    requires EscapeRune(c, printable) + x == EscapeRune(d, printable) + y
    ensures c == d && x == y
  {
    var e, f := EscapeRune(c, printable), EscapeRune(d, printable);
    EscapeShape(c, printable);
    EscapeShape(d, printable);
    assert (e + x)[0] == (f + y)[0];
    if e[0] == '\\' {
      assert (e + x)[1] == (f + y)[1];
    }
    SplitAt(e, x, f, y);
    EscapeInjective(c, d, printable);
  }

  lemma {:induction false} BodyDecodes(a: string, x: string, b: string, y: string, printable: char -> bool)
    requires EscapeAll(a, printable) + "\"" + x == EscapeAll(b, printable) + "\"" + y
    ensures a == b && x == y
  {
    hide EscapeRune;
    var s, t := EscapeAll(a, printable) + "\"" + x, EscapeAll(b, printable) + "\"" + y;
    if a == "" && b == "" {
      assert s == "\"" + x && t == "\"" + y;
      SplitAt("\"", x, "\"", y);
    } else if a == "" {
      BodyStart(b, y, printable);
    } else if b == "" {
      BodyStart(a, x, printable);
    } else {
      var rest, rest' := EscapeAll(a[1..], printable) + "\"" + x, EscapeAll(b[1..], printable) + "\"" + y;
      assert s == EscapeRune(a[0], printable) + rest && t == EscapeRune(b[0], printable) + rest';
      RunePrefixFree(a[0], rest, b[0], rest', printable);
      BodyDecodes(a[1..], x, b[1..], y, printable);
    }
  }

  lemma {:induction false} BodyStart(a: string, rest: string, printable: char -> bool)
    requires a != ""
    ensures
      var s := EscapeAll(a, printable) + "\"" + rest;
      s != "" && s[0] != '"'
  {
    EscapeShape(a[0], printable);
    assert |EscapeAll(a, printable)| > 0;
  }

  /** A quoted string can be read off in one way only. */
  lemma {:induction false} QuoteDecodes(a: string, x: string, b: string, y: string, printable: char -> bool)
    requires Quote(a, printable) + x == Quote(b, printable) + y
    ensures a == b && x == y
  {
    var s, t := EscapeAll(a, printable) + "\"" + x, EscapeAll(b, printable) + "\"" + y;
    assert Quote(a, printable) + x == "\"" + s && Quote(b, printable) + y == "\"" + t;
    SplitAt("\"", s, "\"", t);
    BodyDecodes(a, x, b, y, printable);
  }

  // ---------- The identity key ----------

  function Joined(labels: seq<Label>, printable: char -> bool): string {
    if labels == [] then ""
    else Quote(labels[0].name, printable) + Quote(labels[0].value, printable) + Joined(labels[1..], printable)
  }

  lemma {:induction false} JoinedDecodes(a: seq<Label>, b: seq<Label>, printable: char -> bool)
    requires Joined(a, printable) == Joined(b, printable)
    ensures a == b
  {
    hide Quote;
    if a != [] && b != [] {
      var p := printable;
      var x, y := Quote(a[0].value, p) + Joined(a[1..], p), Quote(b[0].value, p) + Joined(b[1..], p);
      assert Joined(a, p) == Quote(a[0].name, p) + x && Joined(b, p) == Quote(b[0].name, p) + y;
      QuoteDecodes(a[0].name, x, b[0].name, y, p);
      QuoteDecodes(a[0].value, Joined(a[1..], p), b[0].value, Joined(b[1..], p), p);
      JoinedDecodes(a[1..], b[1..], p);
      assert a == [a[0]] + a[1..] && b == [b[0]] + b[1..];
    } else if a != [] {
      QuoteIsNotEmpty(a[0].name, printable);
    } else if b != [] {
      QuoteIsNotEmpty(b[0].name, printable);
    }
  }

  lemma {:induction false} QuoteIsNotEmpty(s: string, printable: char -> bool)
    ensures |Quote(s, printable)| >= 2
  {
  }

  // ---------- Sorting by name ----------

  /** strings.Compare(a, b) < 0. */
  predicate Less(a: string, b: string) {
    b != "" && (a == "" || a[0] < b[0] || (a[0] == b[0] && Less(a[1..], b[1..])))
  }

  lemma {:induction false} LessIsStrict(a: string, b: string)
    ensures !Less(a, a)
    ensures Less(a, b) ==> !Less(b, a)
    ensures a != b ==> Less(a, b) || Less(b, a)
    decreases |a|
  {
    if a != "" {
      LessIsStrict(a[1..], a[1..]);
      if b != "" {
        LessIsStrict(a[1..], b[1..]);
        assert a == [a[0]] + a[1..] && b == [b[0]] + b[1..];
      }
    }
  }

  lemma {:induction false} LessIsTransitive(a: string, b: string, c: string)
    requires Less(a, b) && Less(b, c)
    ensures Less(a, c)
  {
    if a != "" && a[0] == b[0] == c[0] {
      LessIsTransitive(a[1..], b[1..], c[1..]);
    }
  }

  function Insert(l: Label, sorted: seq<Label>): seq<Label> {
    if sorted == [] || !Less(sorted[0].name, l.name) then [l] + sorted
    else [sorted[0]] + Insert(l, sorted[1..])
  }

  /** The labels by name; the parser only lets distinct names through. */
  function SortByName(labels: seq<Label>): seq<Label> {
    if labels == [] then [] else Insert(labels[0], SortByName(labels[1..]))
  }

  function IdentityKey(labels: seq<Label>, printable: char -> bool): string {
    Joined(SortByName(labels), printable)
  }

  ghost predicate NamesAscend(labels: seq<Label>) {
    forall i, j :: 0 <= i < j < |labels| ==> Less(labels[i].name, labels[j].name)
  }

  lemma {:induction false} InsertKeeps(l: Label, sorted: seq<Label>)
    ensures multiset(Insert(l, sorted)) == multiset(sorted) + multiset{l}
  {
    if sorted != [] && Less(sorted[0].name, l.name) {
      InsertKeeps(l, sorted[1..]);
      assert sorted == [sorted[0]] + sorted[1..];
    }
  }

  lemma {:induction false} SortKeeps(labels: seq<Label>)
    ensures multiset(SortByName(labels)) == multiset(labels)
  {
    if labels != [] {
      SortKeeps(labels[1..]);
      InsertKeeps(labels[0], SortByName(labels[1..]));
      assert labels == [labels[0]] + labels[1..];
    }
  }

  lemma {:induction false} InsertAscends(l: Label, sorted: seq<Label>)
    requires NamesAscend(sorted) && forall m :: m in sorted ==> m.name != l.name
    ensures NamesAscend(Insert(l, sorted))
    ensures forall m :: m in Insert(l, sorted) <==> m == l || m in sorted
  {
    if sorted != [] {
      LessIsStrict(l.name, sorted[0].name);
      if Less(sorted[0].name, l.name) {
        InsertAscends(l, sorted[1..]);
        assert sorted == [sorted[0]] + sorted[1..];
        var rest := Insert(l, sorted[1..]);
        forall j | 0 <= j < |rest| ensures Less(sorted[0].name, rest[j].name) {
          assert rest[j] in rest;
          if rest[j] != l {
            FirstIsLeast(sorted, rest[j]);
            NotInTail(sorted);
          }
        }
      } else {
        forall j | 0 < j < |sorted| ensures Less(l.name, sorted[j].name) {
          LessIsTransitive(l.name, sorted[0].name, sorted[j].name);
        }
      }
    }
  }

  lemma {:induction false} SortAscends(labels: seq<Label>)
    requires DistinctNames(labels)
    ensures NamesAscend(SortByName(labels))
    ensures forall m :: m in SortByName(labels) <==> m in labels
  {
    if labels != [] {
      SortAscends(labels[1..]);
      assert labels == [labels[0]] + labels[1..];
      InsertAscends(labels[0], SortByName(labels[1..]));
    }
  }

  /** Two ascending lists with the same members are equal. */
  lemma {:induction false} AscendingUnique(a: seq<Label>, b: seq<Label>)
    requires NamesAscend(a) && NamesAscend(b) && forall l :: l in a <==> l in b
    ensures a == b
  {
    if a != [] && b != [] {
      assert a[0] in b && b[0] in a;
      FirstIsLeast(a, b[0]);
      FirstIsLeast(b, a[0]);
      LessIsStrict(a[0].name, b[0].name);
      assert a[0] == b[0];
      assert a == [a[0]] + a[1..] && b == [b[0]] + b[1..];
      NotInTail(a);
      NotInTail(b);
      forall l ensures l in a[1..] <==> l in b[1..] {
        assert l in a <==> l == a[0] || l in a[1..];
        assert l in b <==> l == b[0] || l in b[1..];
      }
      AscendingUnique(a[1..], b[1..]);
    } else if a != [] {
      LastIsMember(a);
    } else if b != [] {
      LastIsMember(b);
    }
  }

  lemma {:induction false} FirstIsLeast(a: seq<Label>, l: Label)
    requires NamesAscend(a) && l in a
    ensures a != [] && (l == a[0] || Less(a[0].name, l.name))
  {
  }

  lemma {:induction false} NotInTail(a: seq<Label>)
    requires NamesAscend(a) && a != []
    ensures a[0] !in a[1..]
  {
    if a[0] in a[1..] {
      var i :| 0 < i < |a| && a[i] == a[0];
      LessIsStrict(a[0].name, a[0].name);
    }
  }

  /** The key identifies the label set: equal keys are exactly permutations of one another. */
  lemma {:induction false} KeyIdentifiesLabels(a: seq<Label>, b: seq<Label>, printable: char -> bool)
    requires DistinctNames(a) && DistinctNames(b)
    ensures IdentityKey(a, printable) == IdentityKey(b, printable) <==> multiset(a) == multiset(b)
  {
    SortKeeps(a);
    SortKeeps(b);
    if IdentityKey(a, printable) == IdentityKey(b, printable) {
      JoinedDecodes(SortByName(a), SortByName(b), printable);
    }
    if multiset(a) == multiset(b) {
      SortAscends(a);
      SortAscends(b);
      forall l ensures l in a <==> l in b {
        assert l in multiset(a) <==> l in multiset(b);
      }
      AscendingUnique(SortByName(a), SortByName(b));
    }
  }
}
