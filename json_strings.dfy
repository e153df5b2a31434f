/** JSON string literals as Python's `json.dumps` writes them with its
    default `ensure_ascii=True` (section 7 of RFC 8259), and as `json.loads`
    reads them back.  Every character outside printable ASCII is written as a
    `\uXXXX` escape in lower-case hex, characters above U+FFFF as a UTF-16
    surrogate pair. */
module JsonStrings {
  import opened Base

  predicate IsHexDigit(c: char) {
    '0' <= c <= '9' || 'a' <= c <= 'f' || 'A' <= c <= 'F'
  }

  predicate AllHex(s: string) {
    forall i :: 0 <= i < |s| ==> IsHexDigit(s[i])
  }

  function HexDigitValue(c: char): (d: nat)
    requires IsHexDigit(c)
    ensures d < 16
  {
    if '0' <= c <= '9' then c as int - '0' as int
    else if 'a' <= c <= 'f' then c as int - 'a' as int + 10
    else c as int - 'A' as int + 10
  }

  function LowerHexDigit(d: nat): (c: char)
    requires d < 16
    ensures IsHexDigit(c) && HexDigitValue(c) == d
  {
    if d < 10 then (d + '0' as int) as char else (d - 10 + 'a' as int) as char
  }

  /** The last `k` hex digits of `n`, most significant first. */
  function HexN(n: nat, k: nat): (s: string)
    ensures |s| == k && AllHex(s)
  {
    if k == 0 then [] else HexN(n / 16, k - 1) + [LowerHexDigit(n % 16)]
  }

  function Power16(k: nat): nat {
    if k == 0 then 1 else 16 * Power16(k - 1)
  }

  function HexValue(s: string): (n: nat)
    requires AllHex(s)
    ensures n < Power16(|s|)
  {
    if s == [] then 0 else HexValue(s[..|s| - 1]) * 16 + HexDigitValue(s[|s| - 1])
  }

  lemma {:induction false} HexRoundTrip(n: nat, k: nat)
    requires n < Power16(k)
    ensures HexValue(HexN(n, k)) == n
  {
    if k > 0 {
      HexRoundTrip(n / 16, k - 1);
      var s := HexN(n, k);
      assert s[..|s| - 1] == HexN(n / 16, k - 1);
    }
  }

  /** Four lower-case hex digits: the body of a `\uXXXX` escape. */
  function Hex4(n: nat): (s: string)
    requires n < 0x1_0000
    ensures |s| == 4 && AllHex(s) && HexValue(s) == n
  {
    assert Power16(4) == 0x1_0000;
    HexRoundTrip(n, 4);
    HexN(n, 4)
  }

  /** The escape of one character inside a JSON string literal. */
  function EscapeChar(c: char): (e: string)
    ensures |e| > 0 && e[0] != '"'
  {
    var n := c as int;
    if c == '"' then "\\\""
    else if c == '\\' then "\\\\"
    else if n == 8 then "\\b"
    else if n == 12 then "\\f"
    else if n == 10 then "\\n"
    else if n == 13 then "\\r"
    else if n == 9 then "\\t"
    else if 0x20 <= n <= 0x7e then [c]
    else if n < 0x1_0000 then "\\u" + Hex4(n)
    else
      var m := n - 0x1_0000;
      "\\u" + Hex4(0xD800 + m / 0x400) + "\\u" + Hex4(0xDC00 + m % 0x400)
  }

  function Escape(s: string): string {
    if s == [] then [] else EscapeChar(s[0]) + Escape(s[1..])
  }

  /** `json.dumps` of a string. */
  function Quote(s: string): (q: string)
    ensures |q| >= 2 && q[0] == '"'
  {
    "\"" + Escape(s) + "\""
  }

  /** Reads one (possibly escaped) character of a string literal body; `None`
      is the decode error `json.loads` raises. */
  function ParseChar(s: string): (r: Option<(char, string)>)
    requires |s| > 0
    ensures r.Some? ==> |r.value.1| < |s|
  {
    if s[0] == '\\' then
      if |s| < 2 then None
      else if s[1] == '"' then Some(('"', s[2..]))
      else if s[1] == '\\' then Some(('\\', s[2..]))
      else if s[1] == '/' then Some(('/', s[2..]))
      else if s[1] == 'b' then Some((8 as char, s[2..]))
      else if s[1] == 'f' then Some((12 as char, s[2..]))
      else if s[1] == 'n' then Some((10 as char, s[2..]))
      else if s[1] == 'r' then Some((13 as char, s[2..]))
      else if s[1] == 't' then Some((9 as char, s[2..]))
      else if s[1] == 'u' && |s| >= 6 && AllHex(s[2..6]) then
        var u := HexValue(s[2..6]);
        assert Power16(4) == 0x1_0000;
        if 0xD800 <= u < 0xDC00 then
          if |s| >= 12 && s[6] == '\\' && s[7] == 'u' && AllHex(s[8..12])
             && 0xDC00 <= HexValue(s[8..12]) < 0xE000
          then
            var code := 0x1_0000 + (u - 0xD800) * 0x400 + (HexValue(s[8..12]) - 0xDC00);
            Some((code as char, s[12..]))
          else None
        else if 0xDC00 <= u < 0xE000 then None
        else Some((u as char, s[6..]))
      else None
    else if (s[0] as int) < 0x20 then None
    else Some((s[0], s[1..]))
  }

  /** Reads a string literal body up to and including its closing quote. */
  function ParseStringBody(s: string): (r: Option<(string, string)>)
    ensures r.Some? ==> |r.value.1| < |s|
    decreases |s|
  {
    if s == [] then None
    else if s[0] == '"' then Some(([], s[1..]))
    else
      match ParseChar(s)
      case None => None
      case Some((c, t)) =>
        match ParseStringBody(t)
        case None => None
        case Some((body, rest)) => Some(([c] + body, rest))
  }

  /** Every escape reads back as the character it escapes. */
  lemma {:induction false} EscapeCharRoundTrip(c: char, t: string)
    ensures ParseChar(EscapeChar(c) + t) == Some((c, t))
  {
    var n := c as int;
    var s := EscapeChar(c) + t;
    if c == '"' || c == '\\' || n == 8 || n == 12 || n == 10 || n == 13 || n == 9 {
      assert s[2..] == t;
    } else if 0x20 <= n <= 0x7e {
      assert s[1..] == t;
    } else if n < 0x1_0000 {
      UnicodeEscapeAt(Hex4(n), t);
    } else {
      SurrogatePairRoundTrip(c, t);
    }
  }

  /** The positions `ParseChar` inspects in a `\uXXXX` escape followed by
      `t`. */
  lemma {:induction false} UnicodeEscapeAt(h: string, t: string)
    requires |h| == 4
    ensures var s := "\\u" + h + t;
      |s| == 6 + |t| && s[0] == '\\' && s[1] == 'u' && s[2..6] == h && s[6..] == t
  {
  }

  /** A character above U+FFFF reads back from its surrogate pair. */
  lemma {:induction false} SurrogatePairRoundTrip(c: char, t: string)
    requires c as int >= 0x1_0000
    ensures ParseChar(EscapeChar(c) + t) == Some((c, t))
  {
    var n := c as int;
    var m := n - 0x1_0000;
    var hi, lo := 0xD800 + m / 0x400, 0xDC00 + m % 0x400;
    var h1, h2 := Hex4(hi), Hex4(lo);
    var s := EscapeChar(c) + t;
    assert EscapeChar(c) == "\\u" + h1 + "\\u" + h2;
    var u := "\\u" + h2 + t;
    AppendAssoc("\\u" + h1 + "\\u", h2, t);
    AppendAssoc("\\u" + h1, "\\u", h2 + t);
    AppendAssoc("\\u", h2, t);
    assert s == "\\u" + h1 + u;
    UnicodeEscapeAt(h1, u);
    UnicodeEscapeAt(h2, t);
    assert s[6] == u[0] && s[7] == u[1];
    assert s[8..12] == u[2..6];
    assert s[12..] == u[6..];
    assert 0x1_0000 + (hi - 0xD800) * 0x400 + (lo - 0xDC00) == n;
  }

  /** `json.loads` reads the body of a quoted string back exactly. */
  lemma {:induction false} EscapeRoundTrip(str: string, rest: string)
    ensures ParseStringBody(Escape(str) + "\"" + rest) == Some((str, rest))
  {
    if str == [] {
      assert Escape(str) + "\"" + rest == "\"" + rest;
    } else {
      var e, es := EscapeChar(str[0]), Escape(str[1..]);
      var tail := es + "\"" + rest;
      AppendAssoc(e + es, "\"", rest);
      AppendAssoc(e, es, "\"" + rest);
      AppendAssoc(es, "\"", rest);
      assert Escape(str) + "\"" + rest == e + tail;
      EscapeCharRoundTrip(str[0], tail);
      EscapeRoundTrip(str[1..], rest);
      assert [str[0]] + str[1..] == str;
    }
  }
}
