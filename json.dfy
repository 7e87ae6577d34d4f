/** JSON values as `JSON.parse` produces them, and `JSON.stringify(value, null, 2)`. */
module Json {
  import opened Wrappers

  /** A JSON value. Object members keep their order; numbers only pass through the
      core, so they are modelled as integers. */
  datatype Json =
    | JNull
    | JBool(b: bool)
    | JNumber(n: int)
    | JString(s: string)
    | JArray(items: seq<Json>)
    | JObject(fields: seq<(string, Json)>)

  // ---------------------------------------------------------------------------
  // String literals

  const Hex := "0123456789abcdef"

  function HexValue(c: char): (r: Option<nat>)
    ensures r.Some? ==> r.value < 16
  {
    if '0' <= c <= '9' then Some(c as int - '0' as int)
    else if 'a' <= c <= 'f' then Some(c as int - 'a' as int + 10)
    else if 'A' <= c <= 'F' then Some(c as int - 'A' as int + 10)
    else None
  }

  /** How `JSON.stringify` writes one character inside a string literal. */
  function EscapeChar(c: char): (r: string)
    ensures |r| > 0
  {
    if c == '"' then "\\\""
    else if c == '\\' then "\\\\"
    else if c == '\U{0008}' then "\\b"
    else if c == '\U{000C}' then "\\f"
    else if c == '\n' then "\\n"
    else if c == '\r' then "\\r"
    else if c == '\t' then "\\t"
    else if c < ' ' then "\\u00" + [Hex[c as int / 16], Hex[c as int % 16]]
    else [c]
  }

  function Escape(s: string): (r: string)
  {
    if s == [] then [] else EscapeChar(s[0]) + Escape(s[1..])
  }

  /** The string literal `JSON.stringify` writes for `s`. */
  function Quote(s: string): string
  {
    "\"" + Escape(s) + "\""
  }

  function Prepend(c: char, r: Option<string>): Option<string>
  {
    match r
    case Some(t) => Some([c] + t)
    case None => None
  }

  /** The body of a JSON string literal read back, as `JSON.parse` does. */
  function Unescape(s: string): Option<string>
    decreases |s|
  {
    if s == [] then Some([])
    else if s[0] == '"' || s[0] < ' ' then None
    else if s[0] != '\\' then Prepend(s[0], Unescape(s[1..]))
    else if |s| < 2 then None
    else if s[1] == '"' then Prepend('"', Unescape(s[2..]))
    else if s[1] == '\\' then Prepend('\\', Unescape(s[2..]))
    else if s[1] == '/' then Prepend('/', Unescape(s[2..]))
    else if s[1] == 'b' then Prepend('\U{0008}', Unescape(s[2..]))
    else if s[1] == 'f' then Prepend('\U{000C}', Unescape(s[2..]))
    else if s[1] == 'n' then Prepend('\n', Unescape(s[2..]))
    else if s[1] == 'r' then Prepend('\r', Unescape(s[2..]))
    else if s[1] == 't' then Prepend('\t', Unescape(s[2..]))
    else if s[1] == 'u' && |s| >= 6 then
      match (HexValue(s[2]), HexValue(s[3]), HexValue(s[4]), HexValue(s[5]))
      case (Some(a), Some(b), Some(c), Some(d)) =>
        var v := a * 4096 + b * 256 + c * 16 + d;
        if 0xD800 <= v < 0xE000 then None else Prepend(v as char, Unescape(s[6..]))
      case _ => None
    else None
  }

  lemma UnescapeChar(c: char, rest: string)
    ensures Unescape(EscapeChar(c) + rest) == Prepend(c, Unescape(rest))
  {
    if c in {'"', '\\', '\U{0008}', '\U{000C}', '\n', '\r', '\t'} {
      UnescapeShort(c, rest);
    } else if c < ' ' {
      UnescapeControl(c, rest);
    } else {
      var e := EscapeChar(c) + rest;
      assert e[0] == c && e[1..] == rest;
    }
  }

  /** The two-character escapes. */
  lemma UnescapeShort(c: char, rest: string)
    requires c in {'"', '\\', '\U{0008}', '\U{000C}', '\n', '\r', '\t'}
    ensures Unescape(EscapeChar(c) + rest) == Prepend(c, Unescape(rest))
  {
    var e := EscapeChar(c) + rest;
    assert |EscapeChar(c)| == 2 && e[0] == '\\';
    assert e[2..] == rest;
  }

  /** The other control characters, written as `\u00` and two hex digits. */
  lemma UnescapeControl(c: char, rest: string)
    requires c < ' ' && c !in {'\U{0008}', '\U{000C}', '\n', '\r', '\t'}
    ensures Unescape(EscapeChar(c) + rest) == Prepend(c, Unescape(rest))
  {
    var hi, lo := c as int / 16, c as int % 16;
    assert c as int == 16 * hi + lo && 0 <= hi < 2 && 0 <= lo < 16;
    var e := EscapeChar(c) + rest;
    assert EscapeChar(c) == "\\u00" + [Hex[hi], Hex[lo]];
    assert e[0] == '\\' && e[1] == 'u' && |e| >= 6 && e[6..] == rest;
    assert HexValue(e[2]) == Some(0) && HexValue(e[3]) == Some(0);
    HexDigit(hi);
    HexDigit(lo);
    assert HexValue(e[4]) == Some(hi) && HexValue(e[5]) == Some(lo);
    UnescapeHex(e, 0, 0, hi, lo);
  }

  /** One `\uXXXX` escape outside the surrogate range. */
  lemma UnescapeHex(e: string, a: nat, b: nat, c: nat, d: nat)
    requires |e| >= 6 && e[0] == '\\' && e[1] == 'u'
    requires HexValue(e[2]) == Some(a) && HexValue(e[3]) == Some(b)
    requires HexValue(e[4]) == Some(c) && HexValue(e[5]) == Some(d)
    requires !(0xD800 <= a * 4096 + b * 256 + c * 16 + d < 0xE000)
    ensures Unescape(e) == Prepend((a * 4096 + b * 256 + c * 16 + d) as char, Unescape(e[6..]))
  {
  }

  lemma HexDigit(d: nat)
    requires d < 16
    ensures HexValue(Hex[d]) == Some(d)
  {
  }

  /** Reading back what `Escape` wrote gives the original string. */
  lemma {:induction false} UnescapeEscape(s: string)
    ensures Unescape(Escape(s)) == Some(s)
  {
    if s != [] {
      UnescapeEscape(s[1..]);
      UnescapeChar(s[0], Escape(s[1..]));
      assert [s[0]] + s[1..] == s;
    }
  }

  /** `Escape` never writes a raw control character, as a JSON string literal demands. */
  lemma {:induction false} EscapeHasNoControl(s: string)
    ensures forall i :: 0 <= i < |Escape(s)| ==> Escape(s)[i] >= ' '
  {
    if s != [] {
      EscapeHasNoControl(s[1..]);
      var e := EscapeChar(s[0]);
      EscapeCharNoControl(s[0]);
      assert Escape(s) == e + Escape(s[1..]);
    }
  }

  lemma EscapeCharNoControl(c: char)
    ensures forall i :: 0 <= i < |EscapeChar(c)| ==> EscapeChar(c)[i] >= ' '
  {
    if c < ' ' && c !in {'\U{0008}', '\U{000C}', '\n', '\r', '\t'} {
      assert Hex[c as int / 16] >= ' ' && Hex[c as int % 16] >= ' ';
    }
  }

  // ---------------------------------------------------------------------------
  // Serialisation with two-space indentation

  function DecimalDigits(n: nat): (r: string)
    ensures |r| > 0
    ensures forall i :: 0 <= i < |r| ==> '0' <= r[i] <= '9'
  {
    if n < 10 then [Hex[n]] else DecimalDigits(n / 10) + [Hex[n % 10]]
  }

  predicate AllDigits(k: string)
  {
    forall i :: 0 <= i < |k| ==> '0' <= k[i] <= '9'
  }

  /** The number a string of decimal digits spells. */
  function DigitsValue(k: string): nat
    requires AllDigits(k)
    decreases |k|
  {
    if k == [] then 0 else DigitsValue(k[..|k| - 1]) * 10 + (k[|k| - 1] as int - '0' as int)
  }

  /** The digits printed for `n` spell `n`, and only zero itself is printed with a
      leading `0`. */
  lemma {:induction false} DecimalDigitsValue(n: nat)
    ensures DigitsValue(DecimalDigits(n)) == n
    ensures DecimalDigits(n)[0] == '0' <==> n == 0
  {
    var r := DecimalDigits(n);
    if n >= 10 {
      var init := DecimalDigits(n / 10);
      DecimalDigitsValue(n / 10);
      assert r[..|r| - 1] == init;
      assert r[|r| - 1] == Hex[n % 10];
      assert r[0] == init[0];
    }
  }

  function NumberText(n: int): string
  {
    if n < 0 then "-" + DecimalDigits(-n) else DecimalDigits(n)
  }

  /** A number leaf prints as its digits, after a `-` when it is negative. */
  lemma NumberTextValue(n: int)
    ensures n >= 0 ==> NumberText(n) == DecimalDigits(n) && DigitsValue(NumberText(n)) == n
    ensures n < 0 ==> NumberText(n)[0] == '-' && NumberText(n)[1..] == DecimalDigits(-n)
                      && DigitsValue(NumberText(n)[1..]) == -n
  {
    if n >= 0 {
      DecimalDigitsValue(n);
    } else {
      DecimalDigitsValue(-n);
      assert NumberText(n)[1..] == DecimalDigits(-n);
    }
  }

  function Join(sep: string, parts: seq<string>): string
  {
    if parts == [] then []
    else if |parts| == 1 then parts[0]
    else parts[0] + sep + Join(sep, parts[1..])
  }

  /** `JSON.stringify(v, null, 2)` when `indent` is `""`; nested values are written at
      the indentation of their container plus two spaces. */
  function Stringify(v: Json, indent: string): string
    decreases v
  {
    match v
    case JNull => "null"
    case JBool(b) => if b then "true" else "false"
    case JNumber(n) => NumberText(n)
    case JString(s) => Quote(s)
    case JArray(items) =>
      if items == [] then "[]"
      else
        var inner := indent + "  ";
        "[\n"
        + Join(",\n", seq(|items|, i requires 0 <= i < |items| => inner + Stringify(items[i], inner)))
        + "\n" + indent + "]"
    case JObject(fields) =>
      if fields == [] then "{}"
      else
        var inner := indent + "  ";
        "{\n"
        + Join(",\n", seq(|fields|, i requires 0 <= i < |fields| =>
                            inner + Quote(fields[i].0) + ": " + Stringify(fields[i].1, inner)))
        + "\n" + indent + "}"
  }

  /** A string leaf is written as a literal that reads back as the same string. */
  lemma StringLeafReadsBack(s: string, indent: string)
    ensures var t := Stringify(JString(s), indent);
            |t| >= 2 && t[0] == '"' && t[|t| - 1] == '"' && Unescape(t[1..|t| - 1]) == Some(s)
  {
    var t := Stringify(JString(s), indent);
    assert t[1..|t| - 1] == Escape(s);
    UnescapeEscape(s);
  }
}
