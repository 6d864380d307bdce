/**
 * HTML escaping as done by `escapeHtml` in script.js: a guard for falsy
 * values, a conversion to string, then five `replaceAll` calls in a fixed
 * order, `&` first.
 */
module Escape {

  /**
   * Integers a JavaScript number holds exactly (|n| < 2^53). All of them are
   * below 10^21, so `String(n)` spells them in plain decimal digits.
   */
  type SafeInt = n: int | -0x20_0000_0000_0000 < n < 0x20_0000_0000_0000

  /** The JavaScript values the helper can be handed. Numbers are safe integers here. */
  datatype JsValue = Undefined | Null | Bool(b: bool) | Number(n: SafeInt) | Str(s: string)

  /** JavaScript truthiness restricted to the values above. */
  predicate Falsy(v: JsValue)
  {
    match v
    case Undefined => true
    case Null => true
    case Bool(b) => !b
    case Number(n) => n == 0
    case Str(s) => s == ""
  }

  function DigitChar(d: nat): (c: char)
    requires d < 10
    ensures '0' <= c <= '9'
    ensures c as int - '0' as int == d
  {
    "0123456789"[d]
  }

  /** Decimal spelling of a natural number, most significant digit first, without exponent. */
  function NatToDecimal(n: nat): (r: string)
    ensures |r| >= 1
    ensures forall i :: 0 <= i < |r| ==> '0' <= r[i] <= '9'
  {
    if n < 10 then [DigitChar(n)] else NatToDecimal(n / 10) + [DigitChar(n % 10)]
  }

  /** The number a run of decimal digits denotes, most significant digit first. */
  function DigitsValue(s: string): int
  {
    if s == [] then 0 else 10 * DigitsValue(s[..|s| - 1]) + (s[|s| - 1] as int - '0' as int)
  }

  /** The spelling denotes `n` and has no leading zero. */
  lemma {:induction false} NatToDecimalValue(n: nat)
    ensures DigitsValue(NatToDecimal(n)) == n
    ensures |NatToDecimal(n)| > 1 ==> NatToDecimal(n)[0] != '0'
    decreases n
  {
    var r := NatToDecimal(n);
    if n < 10 {
      assert r[..|r| - 1] == [];
    } else {
      NatToDecimalValue(n / 10);
      assert r[..|r| - 1] == NatToDecimal(n / 10);
    }
  }

  /** `String(n)` for an integer `n` with |n| < 10^21; from 10^21 up JavaScript uses exponent form. */
  function IntToDecimal(n: int): string
  {
    if n < 0 then "-" + NatToDecimal(-n) else NatToDecimal(n)
  }

  /** A minus sign exactly for negative numbers, followed by the digits of the magnitude. */
  lemma IntToDecimalValue(n: int)
    ensures n < 0 ==> IntToDecimal(n)[0] == '-' && DigitsValue(IntToDecimal(n)[1..]) == -n
    ensures n >= 0 ==> DigitsValue(IntToDecimal(n)) == n && IntToDecimal(n)[0] != '-'
  {
    if n < 0 {
      NatToDecimalValue(-n);
      assert IntToDecimal(n)[1..] == NatToDecimal(-n);
    } else {
      NatToDecimalValue(n);
    }
  }

  /** `String(v)` for the values above. */
  function ToJsString(v: JsValue): string
  {
    match v
    case Undefined => "undefined"
    case Null => "null"
    case Bool(b) => if b then "true" else "false"
    case Number(n) => IntToDecimal(n)
    case Str(s) => s
  }

  /** `s.replaceAll(c, rep)` for a one-character pattern `c`. */
  function ReplaceAll(s: string, c: char, rep: string): string
  {
    if s == [] then [] else (if s[0] == c then rep else [s[0]]) + ReplaceAll(s[1..], c, rep)
  }

  /** The chain of five replacements applied to an already converted string. */
  function EscapeHtml(s: string): string
  {
    var amp := ReplaceAll(s, '&', "&amp;");
    var lt := ReplaceAll(amp, '<', "&lt;");
    var gt := ReplaceAll(lt, '>', "&gt;");
    var quot := ReplaceAll(gt, '"', "&quot;");
    ReplaceAll(quot, '\'', "&#039;")
  }

  /** `escapeHtml(text)`: falsy values other than 0 give the empty string. */
  function EscapeValue(v: JsValue): (r: string)
    ensures r == "" <==> Falsy(v) && v != Number(0)
  {
    if Falsy(v) && v != Number(0) then "" else EscapeHtml(ToJsString(v))
  }

  // ---------------------------------------------------------------------
  // Reference definitions: one character at a time, and the inverse.

  predicate Special(c: char)
  {
    c == '&' || c == '<' || c == '>' || c == '"' || c == '\''
  }

  /** The entity each special character becomes; other characters stay. */
  function EscapeChar(c: char): string
  {
    if c == '&' then "&amp;"
    else if c == '<' then "&lt;"
    else if c == '>' then "&gt;"
    else if c == '"' then "&quot;"
    else if c == '\'' then "&#039;"
    else [c]
  }

  function Charwise(s: string): string
  {
    if s == [] then [] else EscapeChar(s[0]) + Charwise(s[1..])
  }

  /** Decoding of the five entities the escaper produces. */
  function Unescape(s: string): string
  {
    if s == [] then []
    else if |s| >= 5 && s[..5] == "&amp;" then "&" + Unescape(s[5..])
    else if |s| >= 4 && s[..4] == "&lt;" then "<" + Unescape(s[4..])
    else if |s| >= 4 && s[..4] == "&gt;" then ">" + Unescape(s[4..])
    else if |s| >= 6 && s[..6] == "&quot;" then "\"" + Unescape(s[6..])
    else if |s| >= 6 && s[..6] == "&#039;" then "'" + Unescape(s[6..])
    else [s[0]] + Unescape(s[1..])
  }

  /** Position `i` of `s` starts one of the five entities. */
  predicate EntityAt(s: string, i: nat)
  {
    i <= |s| &&
    var t := s[i..];
    (|t| >= 5 && t[..5] == "&amp;") || (|t| >= 4 && t[..4] == "&lt;") ||
    (|t| >= 4 && t[..4] == "&gt;") || (|t| >= 6 && t[..6] == "&quot;") ||
    (|t| >= 6 && t[..6] == "&#039;")
  }

  // ---------------------------------------------------------------------
  // Lemmas

  lemma {:induction false} ReplaceAllConcat(a: string, b: string, c: char, rep: string)
    ensures ReplaceAll(a + b, c, rep) == ReplaceAll(a, c, rep) + ReplaceAll(b, c, rep)
  {
    if a != [] {
      var head := if a[0] == c then rep else [a[0]];
      assert (a + b)[0] == a[0];
      assert (a + b)[1..] == a[1..] + b;
      ReplaceAllConcat(a[1..], b, c, rep);
      calc {
        ReplaceAll(a + b, c, rep);
        head + ReplaceAll(a[1..] + b, c, rep);
        head + (ReplaceAll(a[1..], c, rep) + ReplaceAll(b, c, rep));
        (head + ReplaceAll(a[1..], c, rep)) + ReplaceAll(b, c, rep);
      }
    } else {
      assert a + b == b;
    }
  }

  /** A replacement whose pattern does not occur changes nothing. */
  lemma {:induction false} ReplaceAllAbsent(s: string, c: char, rep: string)
    requires forall i :: 0 <= i < |s| ==> s[i] != c
    ensures ReplaceAll(s, c, rep) == s
  {
    if s != [] {
      assert s[0] != c;
      ReplaceAllAbsent(s[1..], c, rep);
      assert s == [s[0]] + s[1..];
    }
  }

  lemma ReplaceAllChar(x: char, c: char, rep: string)
    ensures ReplaceAll([x], c, rep) == if x == c then rep else [x]
  {
  }

  lemma EscapeHtmlOfChar(c: char)
    ensures EscapeHtml([c]) == EscapeChar(c)
  {
    ReplaceAllChar(c, '&', "&amp;");
    var amp := ReplaceAll([c], '&', "&amp;");
    if c == '<' { ReplaceAllChar(c, '<', "&lt;"); } else { ReplaceAllAbsent(amp, '<', "&lt;"); }
    var lt := ReplaceAll(amp, '<', "&lt;");
    if c == '>' { ReplaceAllChar(c, '>', "&gt;"); } else { ReplaceAllAbsent(lt, '>', "&gt;"); }
    var gt := ReplaceAll(lt, '>', "&gt;");
    if c == '"' { ReplaceAllChar(c, '"', "&quot;"); } else { ReplaceAllAbsent(gt, '"', "&quot;"); }
    var quot := ReplaceAll(gt, '"', "&quot;");
    if c == '\'' { ReplaceAllChar(c, '\'', "&#039;"); } else { ReplaceAllAbsent(quot, '\'', "&#039;"); }
  }

  lemma {:induction false} EscapeHtmlConcat(a: string, b: string)
    ensures EscapeHtml(a + b) == EscapeHtml(a) + EscapeHtml(b)
  {
    ReplaceAllConcat(a, b, '&', "&amp;");
    var a1, b1 := ReplaceAll(a, '&', "&amp;"), ReplaceAll(b, '&', "&amp;");
    ReplaceAllConcat(a1, b1, '<', "&lt;");
    var a2, b2 := ReplaceAll(a1, '<', "&lt;"), ReplaceAll(b1, '<', "&lt;");
    ReplaceAllConcat(a2, b2, '>', "&gt;");
    var a3, b3 := ReplaceAll(a2, '>', "&gt;"), ReplaceAll(b2, '>', "&gt;");
    ReplaceAllConcat(a3, b3, '"', "&quot;");
    var a4, b4 := ReplaceAll(a3, '"', "&quot;"), ReplaceAll(b3, '"', "&quot;");
    ReplaceAllConcat(a4, b4, '\'', "&#039;");
  }

  /** Replacing `&` first makes the chain act one character at a time. */
  lemma {:induction false} EscapeHtmlIsCharwise(s: string)
    ensures EscapeHtml(s) == Charwise(s)
  {
    if s != [] {
      assert s == [s[0]] + s[1..];
      EscapeHtmlConcat([s[0]], s[1..]);
      EscapeHtmlOfChar(s[0]);
      EscapeHtmlIsCharwise(s[1..]);
    }
  }

  /** The output holds none of `<`, `>`, `"`, `'`. */
  lemma {:induction false} EscapeHtmlHasNoMarkup(s: string)
    ensures forall i :: 0 <= i < |EscapeHtml(s)| ==> EscapeHtml(s)[i] !in "<>\"'"
  {
    EscapeHtmlIsCharwise(s);
    CharwiseHasNoMarkup(s);
  }

  lemma {:induction false} CharwiseHasNoMarkup(s: string)
    ensures forall i :: 0 <= i < |Charwise(s)| ==> Charwise(s)[i] !in "<>\"'"
  {
    if s != [] {
      CharwiseHasNoMarkup(s[1..]);
      var e, r := EscapeChar(s[0]), Charwise(s[1..]);
      assert Charwise(s) == e + r;
      forall i | 0 <= i < |e + r| ensures (e + r)[i] !in "<>\"'" {
        if i >= |e| { assert (e + r)[i] == r[i - |e|]; }
      }
    }
  }

  /** Every `&` of the output begins one of the five entities. */
  lemma {:induction false} EscapeHtmlAmpersandsAreEntities(s: string)
    ensures forall i :: 0 <= i < |EscapeHtml(s)| && EscapeHtml(s)[i] == '&' ==> EntityAt(EscapeHtml(s), i)
  {
    EscapeHtmlIsCharwise(s);
    CharwiseAmpersandsAreEntities(s);
  }

  lemma {:induction false} CharwiseAmpersandsAreEntities(s: string)
    ensures forall i :: 0 <= i < |Charwise(s)| && Charwise(s)[i] == '&' ==> EntityAt(Charwise(s), i)
  {
    if s != [] {
      CharwiseAmpersandsAreEntities(s[1..]);
      var e, r := EscapeChar(s[0]), Charwise(s[1..]);
      assert Charwise(s) == e + r;
      forall i | 0 <= i < |e + r| && (e + r)[i] == '&' ensures EntityAt(e + r, i) {
        if i >= |e| {
          assert (e + r)[i] == r[i - |e|];
          assert (e + r)[i..] == r[i - |e|..];
        } else {
          assert i == 0;
          assert (e + r)[i..][..|e|] == e;
        }
      }
    }
  }

  /** Escaping never shortens its input. */
  lemma {:induction false} EscapeHtmlLength(s: string)
    ensures |EscapeHtml(s)| >= |s|
    ensures |EscapeHtml(s)| == |s| <==> forall i :: 0 <= i < |s| ==> !Special(s[i])
  {
    EscapeHtmlIsCharwise(s);
    CharwiseLength(s);
  }

  lemma {:induction false} CharwiseLength(s: string)
    ensures |Charwise(s)| >= |s|
    ensures |Charwise(s)| == |s| <==> forall i :: 0 <= i < |s| ==> !Special(s[i])
  {
    if s != [] {
      CharwiseLength(s[1..]);
      assert forall i :: 1 <= i < |s| ==> s[i] == s[1..][i - 1];
    }
  }

  /** A string without special characters is left as it is. */
  lemma {:induction false} EscapeHtmlIdentity(s: string)
    requires forall i :: 0 <= i < |s| ==> !Special(s[i])
    ensures EscapeHtml(s) == s
  {
    EscapeHtmlIsCharwise(s);
    CharwiseIdentity(s);
  }

  lemma {:induction false} CharwiseIdentity(s: string)
    requires forall i :: 0 <= i < |s| ==> !Special(s[i])
    ensures Charwise(s) == s
  {
    if s != [] {
      assert !Special(s[0]);
      CharwiseIdentity(s[1..]);
      assert s == [s[0]] + s[1..];
    }
  }

  /** Decoding the escaped text gives back the original text. */
  lemma {:induction false} UnescapeEscapeHtml(s: string)
    ensures Unescape(EscapeHtml(s)) == s
  {
    EscapeHtmlIsCharwise(s);
    UnescapeCharwise(s);
  }

  lemma {:induction false} UnescapeCharwise(s: string)
    ensures Unescape(Charwise(s)) == s
  {
    if s != [] {
      UnescapeCharwise(s[1..]);
      UnescapeEscapeChar(s[0], Charwise(s[1..]));
      assert s == [s[0]] + s[1..];
    }
  }

  /** Decoding consumes exactly the encoding of one character. */
  lemma UnescapeEscapeChar(c: char, r: string)
    ensures Unescape(EscapeChar(c) + r) == [c] + Unescape(r)
  {
    var e := EscapeChar(c);
    var t := e + r;
    assert t[|e|..] == r;
    assert t[..|e|] == e;
    if c == '&' {
    } else if c == '<' {
      assert t[1] == 'l';
    } else if c == '>' {
      assert t[1] == 'g';
    } else if c == '"' {
      assert t[1] == 'q';
    } else if c == '\'' {
      assert t[1] == '#';
    } else {
      assert t[0] == c && c != '&';
      assert t[1..] == r;
      assert |t| >= 4 ==> t[..4][0] == t[0];
      assert |t| >= 5 ==> t[..5][0] == t[0];
      assert |t| >= 6 ==> t[..6][0] == t[0];
    }
  }

  /** The number 0 is the one falsy value that is kept. */
  lemma EscapeValueZero()
    ensures EscapeValue(Number(0)) == "0"
  {
  }

  /** A truthy value never escapes to the empty string. */
  lemma EscapeValueTruthy(v: JsValue)
    requires !Falsy(v)
    ensures |EscapeValue(v)| >= |ToJsString(v)| >= 1
  {
    EscapeHtmlLength(ToJsString(v));
  }

  /** Escaping a number changes nothing: its spelling has no special character. */
  lemma EscapeValueNumber(n: SafeInt)
    ensures EscapeValue(Number(n)) == IntToDecimal(n)
  {
    var s := IntToDecimal(n);
    if n < 0 {
      assert forall i :: 1 <= i < |s| ==> s[i] == NatToDecimal(-n)[i - 1];
    }
    EscapeHtmlIdentity(s);
  }
}
