/** The quoted form of a string, told by what its escapes denote in a Go string literal. */
module IdentityTexts {
  import opened Common
  import opened Identity

  predicate HexFigure(c: char) {
    48 <= c as int <= 57 || 97 <= c as int <= 102
  }

  function HexCode(c: char): int {
    if c as int <= 57 then c as int - 48 else c as int - 87
  }

  /** What hexadecimal digits stand for. */
  function HexNumber(s: string): int {
    if s == "" then 0 else 16 * HexNumber(Init(s)) + HexCode(Last(s))
  }

  predicate HexFigures(s: string) {
    forall i :: 0 <= i < |s| ==> HexFigure(s[i])
  }

  /** The text is this character or one of its escapes. */
  predicate Denotes(e: string, c: char) {
    var code := c as int;
    if |e| == 1 then e[0] == c && c != '"' && c != '\\'
    else if |e| == 2 then
      && e[0] == '\\'
      && match e[1]
         case '"' => code == 34
         case '\\' => code == 92
         case 'a' => code == 7
         case 'b' => code == 8
         case 't' => code == 9
         case 'n' => code == 10
         case 'v' => code == 11
         case 'f' => code == 12
         case 'r' => code == 13
         case _ => false
    else
      && (|e| == 4 || |e| == 6 || |e| == 10) && e[0] == '\\'
      && e[1] == (if |e| == 4 then 'x' else if |e| == 6 then 'u' else 'U')
      && HexFigures(e[2..]) && HexNumber(e[2..]) == code
  }

  lemma {:induction false} HexReadsBack(n: nat, width: nat)
    requires n < Power16(width)
    ensures HexFigures(Hex(n, width)) && HexNumber(Hex(n, width)) == n
  {
    if width > 0 {
      HexReadsBack(n / 16, width - 1);
      HexDigit(n % 16);
      InitOfAppend(Hex(n / 16, width - 1), HEX[n % 16]);
    }
  }

  lemma {:induction false} HexDigit(n: nat)
    requires n < 16
    ensures HexFigure(HEX[n]) && HexCode(HEX[n]) == n
  {
  }

  lemma {:induction false} HexEscape(letter: char, code: nat, width: nat)
    requires code < Power16(width) && width > 0
    ensures
      var e := ['\\', letter] + Hex(code, width);
      |e| == 2 + width && e[0] == '\\' && e[1] == letter && HexFigures(e[2..]) && HexNumber(e[2..]) == code
  {
    HexReadsBack(code, width);
    assert (['\\', letter] + Hex(code, width))[2..] == Hex(code, width);
  }

  /** Every character is written as itself, if that is printable, or as its shortest escape. */
  lemma {:induction false} EscapeDenotes(c: char, printable: char -> bool)
    ensures
      var e, code := EscapeRune(c, printable), c as int;
      && Denotes(e, c)
      && (|e| == 1 <==> printable(c) && c != '"' && c != '\\')
      && (|e| == 4 ==> (code < 32 || code == 127) && !(7 <= code <= 13))
      && (|e| == 6 ==> !(code < 32 || code == 127) && code < 65536)
      && (|e| == 10 ==> code >= 65536)
  {
    hide Hex, HexNumber, HexFigures, Power16;
    var code := c as int;
    assert Power16(2) == 0x100 && Power16(4) == 0x10000 && Power16(8) == 0x1_0000_0000 by {
      Powers();
    }
    if code < 0x100 {
      HexEscape('x', code, 2);
    }
    if code < 0x10000 {
      HexEscape('u', code, 4);
    }
    HexEscape('U', code, 8);
    assert "\\x" == ['\\', 'x'] && "\\u" == ['\\', 'u'] && "\\U" == ['\\', 'U'];
  }

  lemma {:induction false} Powers()
    ensures Power16(2) == 0x100 && Power16(4) == 0x10000 && Power16(8) == 0x1_0000_0000
  {
    assert Power16(6) == 0x100_0000;
  }

  function Flattened(parts: seq<string>): string {
    if parts == [] then "" else parts[0] + Flattened(parts[1..])
  }

  /** A quoted string is the escapes of its characters, in order, between two quotes. */
  lemma {:induction false} QuoteDenotes(s: string, printable: char -> bool) returns (parts: seq<string>)
    ensures |parts| == |s| && forall i :: 0 <= i < |s| ==> Denotes(parts[i], s[i])
    ensures Quote(s, printable) == ['"'] + Flattened(parts) + ['"']
  {
    hide EscapeRune, Denotes;
    if s == "" {
      parts := [];
    } else {
      var more := QuoteDenotes(s[1..], printable);
      EscapeDenotes(s[0], printable);
      parts := [EscapeRune(s[0], printable)] + more;
      assert parts[1..] == more;
      var rest := EscapeAll(s[1..], printable);
      assert Flattened(more) == rest by {
        assert (['"'] + Flattened(more) + ['"'])[1..|Flattened(more)| + 1] == Flattened(more);
        assert ("\"" + rest + "\"")[1..|rest| + 1] == rest;
        assert |['"'] + Flattened(more) + ['"']| == |Flattened(more)| + 2;
      }
      assert "\"" == ['"'];
    }
  }
}
