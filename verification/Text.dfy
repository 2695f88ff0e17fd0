/**
 The text encodings under an RHP frame: UTF-8 (section 3 of RFC 3629), JSON
 string escaping as serde_json writes it (section 7 of RFC 8259), and decimal
 numbers, each with a decoder and its round trip.
 */
module Text {
  import opened Bytes

  // ---- UTF-8 -----------------------------------------------------------

  function EncodeChar(c: char): (bs: seq<byte>)
    ensures 1 <= |bs| <= 4
  {
    var n := c as int;
    if n < 0x80 then [n]
    else if n < 0x800 then [0xC0 + n / 64, 0x80 + n % 64]
    else if n < 0x1_0000 then [0xE0 + n / 4096, 0x80 + n / 64 % 64, 0x80 + n % 64]
    else [0xF0 + n / 262144, 0x80 + n / 4096 % 64, 0x80 + n / 64 % 64, 0x80 + n % 64]
  }

  function Utf8(s: string): seq<byte> {
    if s == [] then [] else EncodeChar(s[0]) + Utf8(s[1..])
  }

  predicate IsTail(b: byte) {
    0x80 <= b < 0xC0
  }

  predicate IsScalar(n: int) {
    0 <= n < 0xD800 || 0xE000 <= n < 0x11_0000
  }

  /** The first character of `bs` and its length; `None` for anything but a shortest encoding. */
  function DecodeChar(bs: seq<byte>): (r: Option<(char, nat)>)
    ensures r.Some? ==> 1 <= r.value.1 <= |bs|
  {
    if bs == [] then None
    else if bs[0] < 0x80 then Some((bs[0] as char, 1))
    else if 0xC2 <= bs[0] < 0xE0 && |bs| >= 2 && IsTail(bs[1]) then
      Some((((bs[0] as int - 0xC0) * 64 + (bs[1] as int - 0x80)) as char, 2))
    else if 0xE0 <= bs[0] < 0xF0 && |bs| >= 3 && IsTail(bs[1]) && IsTail(bs[2]) then
      var n := (bs[0] as int - 0xE0) * 4096 + (bs[1] as int - 0x80) * 64 + (bs[2] as int - 0x80);
      if n >= 0x800 && IsScalar(n) then Some((n as char, 3)) else None
    else if 0xF0 <= bs[0] < 0xF8 && |bs| >= 4 && IsTail(bs[1]) && IsTail(bs[2]) && IsTail(bs[3]) then
      var n := (bs[0] as int - 0xF0) * 262144 + (bs[1] as int - 0x80) * 4096 + (bs[2] as int - 0x80) * 64
               + (bs[3] as int - 0x80);
      if n >= 0x1_0000 && IsScalar(n) then Some((n as char, 4)) else None
    else None
  }

  function FromUtf8(bs: seq<byte>): Option<string>
    decreases |bs|
  {
    if bs == [] then Some([])
    else
      match DecodeChar(bs)
      case None => None
      case Some((c, n)) =>
        match FromUtf8(bs[n..])
        case None => None
        case Some(rest) => Some([c] + rest)
  }

  lemma Split64(n: nat)
    ensures n == n / 64 * 64 + n % 64
    ensures n / 4096 == n / 64 / 64 && n / 262144 == n / 4096 / 64
  {
  }

  lemma DecodeTwo(c: char, bs: seq<byte>)
    requires 0x80 <= c as int < 0x800 && EncodeChar(c) <= bs
    ensures DecodeChar(bs) == Some((c, 2))
  {
    var n := c as int;
    assert bs[0] == EncodeChar(c)[0] && bs[1] == EncodeChar(c)[1];
    Split64(n);
  }

  lemma DecodeThree(c: char, bs: seq<byte>)
    requires 0x800 <= c as int < 0x1_0000 && EncodeChar(c) <= bs
    ensures DecodeChar(bs) == Some((c, 3))
  {
    var n := c as int;
    assert bs[0] == EncodeChar(c)[0] && bs[1] == EncodeChar(c)[1] && bs[2] == EncodeChar(c)[2];
    Split64(n);
    Split64(n / 64);
  }

  lemma DecodeFour(c: char, bs: seq<byte>)
    requires 0x1_0000 <= c as int && EncodeChar(c) <= bs
    ensures DecodeChar(bs) == Some((c, 4))
  {
    var n := c as int;
    assert bs[0] == EncodeChar(c)[0] && bs[1] == EncodeChar(c)[1];
    assert bs[2] == EncodeChar(c)[2] && bs[3] == EncodeChar(c)[3];
    Split64(n);
    Split64(n / 64);
    Split64(n / 4096);
  }

  lemma DecodeCharInverts(c: char, rest: seq<byte>)
    ensures DecodeChar(EncodeChar(c) + rest) == Some((c, |EncodeChar(c)|))
  {
    var bs := EncodeChar(c) + rest;
    assert bs[0] == EncodeChar(c)[0];
    if 0x80 <= c as int < 0x800 {
      DecodeTwo(c, bs);
    } else if 0x800 <= c as int < 0x1_0000 {
      DecodeThree(c, bs);
    } else if 0x1_0000 <= c as int {
      DecodeFour(c, bs);
    }
  }

  /** UTF-8 loses nothing, for every string. */
  lemma {:induction false} Utf8RoundTrips(s: string)
    ensures FromUtf8(Utf8(s)) == Some(s)
    decreases |s|
  {
    if s != [] {
      var e, rest := EncodeChar(s[0]), Utf8(s[1..]);
      DecodeCharInverts(s[0], rest);
      assert (e + rest)[|e|..] == rest;
      Utf8RoundTrips(s[1..]);
      assert [s[0]] + s[1..] == s;
    }
  }

  lemma {:induction false} Utf8Concat(s: string, t: string)
    ensures Utf8(s + t) == Utf8(s) + Utf8(t)
    decreases |s|
  {
    if s == [] {
      assert s + t == t;
    } else {
      assert (s + t)[1..] == s[1..] + t;
      Utf8Concat(s[1..], t);
    }
  }

  predicate IsAscii(s: string) {
    forall c | c in s :: c < '\U{80}'
  }

  lemma {:induction false} AsciiKeepsLength(s: string)
    requires IsAscii(s)
    ensures |Utf8(s)| == |s|
    decreases |s|
  {
    if s != [] {
      assert s[0] in s && forall c | c in s[1..] :: c in s;
      AsciiKeepsLength(s[1..]);
    }
  }

  /**
   The bytes of a character, as the table of RFC 3629 gives them: one, two, three or four
   by its range, a first byte that tells how many, and six bits in each byte behind it.
   */
  lemma Utf8Shape(c: char)
    ensures var n, e := c as int, EncodeChar(c);
            && (forall i | 1 <= i < |e| :: IsTail(e[i]))
            && (|e| == 1 <==> n < 0x80) && (|e| == 2 <==> 0x80 <= n < 0x800)
            && (|e| == 3 <==> 0x800 <= n < 0x1_0000) && (|e| == 4 <==> 0x1_0000 <= n)
            && (|e| == 1 ==> e[0] == n)
            && (|e| == 2 ==> n == (e[0] as int - 0xC0) * 64 + (e[1] as int - 0x80))
            && (|e| == 3 ==> n == (e[0] as int - 0xE0) * 4096 + (e[1] as int - 0x80) * 64 + (e[2] as int - 0x80))
            && (|e| == 4 ==> n == (e[0] as int - 0xF0) * 262144 + (e[1] as int - 0x80) * 4096
                                  + (e[2] as int - 0x80) * 64 + (e[3] as int - 0x80))
  {
    var n := c as int;
    Split64(n);
    Split64(n / 64);
    Split64(n / 4096);
  }

  // ---- JSON strings ----------------------------------------------------

  const HEX := "0123456789abcdef"

  /** serde_json's escapes: short forms where JSON has them, \u00xx for other controls. */
  function EscapeChar(c: char): string {
    if c == '\"' then "\\\""
    else if c == '\\' then "\\\\"
    else if c == '\U{08}' then "\\b"
    else if c == '\U{0C}' then "\\f"
    else if c == '\n' then "\\n"
    else if c == '\r' then "\\r"
    else if c == '\t' then "\\t"
    else if c < ' ' then "\\u00" + [HEX[c as int / 16], HEX[c as int % 16]]
    else [c]
  }

  function Escape(s: string): string {
    if s == [] then [] else EscapeChar(s[0]) + Escape(s[1..])
  }

  function HexValue(c: char): Option<nat> {
    if '0' <= c <= '9' then Some(c as nat - '0' as nat)
    else if 'a' <= c <= 'f' then Some(c as nat - 'a' as nat + 10)
    else if 'A' <= c <= 'F' then Some(c as nat - 'A' as nat + 10)
    else None
  }

  function ShortEscape(c: char): Option<char> {
    match c
    case '\"' => Some('\"')
    case '\\' => Some('\\')
    case '/' => Some('/')
    case 'b' => Some('\U{08}')
    case 'f' => Some('\U{0C}')
    case 'n' => Some('\n')
    case 'r' => Some('\r')
    case 't' => Some('\t')
    case _ => None
  }

  /** The first character of a JSON string body and how much text it took; surrogates are refused. */
  function UnescapeChar(s: string): (r: Option<(char, nat)>)
    ensures r.Some? ==> 1 <= r.value.1 <= |s|
  {
    if s == [] || s[0] < ' ' || s[0] == '\"' then None
    else if s[0] != '\\' then Some((s[0], 1))
    else if |s| < 2 then None
    else if s[1] != 'u' then
      match ShortEscape(s[1])
      case Some(c) => Some((c, 2))
      case None => None
    else if |s| < 6 then None
    else
      match (HexValue(s[2]), HexValue(s[3]), HexValue(s[4]), HexValue(s[5]))
      case (Some(a), Some(b), Some(c), Some(d)) =>
        var n := a * 4096 + b * 256 + c * 16 + d;
        if IsScalar(n) then Some((n as char, 6)) else None
      case _ => None
  }

  /** A JSON string body up to its closing quote, and the text after the quote. */
  function Unescape(s: string): (r: Option<(string, string)>)
    ensures r.Some? ==> |r.value.1| < |s|
    decreases |s|
  {
    if s == [] then None
    else if s[0] == '\"' then Some(([], s[1..]))
    else
      match UnescapeChar(s)
      case None => None
      case Some((c, n)) =>
        match Unescape(s[n..])
        case None => None
        case Some((body, rest)) => Some(([c] + body, rest))
  }

  lemma HexInverts(n: nat)
    requires n < 16
    ensures HexValue(HEX[n]) == Some(n)
  {
  }

  lemma UnescapeCharInverts(c: char, rest: string)
    ensures UnescapeChar(EscapeChar(c) + rest) == Some((c, |EscapeChar(c)|))
    ensures EscapeChar(c) != [] && EscapeChar(c)[0] != '\"'
  {
    if c < ' ' && |EscapeChar(c)| == 6 {
      HexInverts(c as int / 16);
      HexInverts(c as int % 16);
    }
  }

  /**
   Section 7 of RFC 8259: a character is written as itself exactly if it is no control,
   quote or backslash; the others have the two-letter escapes of its table, or \u00
   and the two hexadecimal digits of the code.
   */
  lemma EscapeShape(c: char)
    ensures EscapeChar(c) == [c] <==> c >= ' ' && c != '\"' && c != '\\'
    ensures EscapeChar('\"') == "\\\"" && EscapeChar('\\') == "\\\\" && EscapeChar('\n') == "\\n"
    ensures EscapeChar('\r') == "\\r" && EscapeChar('\t') == "\\t"
    ensures EscapeChar('\U{08}') == "\\b" && EscapeChar('\U{0C}') == "\\f"
    ensures c < ' ' && c !in "\n\r\t\U{08}\U{0C}" ==>
              var e := EscapeChar(c);
              && |e| == 6 && e[..4] == "\\u00" && HexValue(e[4]).Some? && HexValue(e[5]).Some?
              && HexValue(e[4]).value * 16 + HexValue(e[5]).value == c as int
  {
    if c < ' ' && c !in "\n\r\t\U{08}\U{0C}" {
      assert '\n' in "\n\r\t\U{08}\U{0C}" && '\r' in "\n\r\t\U{08}\U{0C}" && '\t' in "\n\r\t\U{08}\U{0C}";
      assert '\U{08}' in "\n\r\t\U{08}\U{0C}" && '\U{0C}' in "\n\r\t\U{08}\U{0C}";
      HexInverts(c as int / 16);
      HexInverts(c as int % 16);
    }
  }

  /** A string without controls, quotes and backslashes is written as it is. */
  lemma {:induction false} PlainIsKept(s: string)
    requires forall c | c in s :: c >= ' ' && c != '\"' && c != '\\'
    ensures Escape(s) == s
    decreases |s|
  {
    if s != [] {
      assert s[0] in s && forall c | c in s[1..] :: c in s;
      EscapeShape(s[0]);
      PlainIsKept(s[1..]);
      hide EscapeChar;
    }
  }

  /** Escaping loses nothing, for every string and whatever follows the closing quote. */
  lemma {:induction false} EscapeRoundTrips(s: string, rest: string)
    ensures Unescape(Escape(s) + "\"" + rest) == Some((s, rest))
    decreases |s|
  {
    if s == [] {
      assert Escape(s) + "\"" + rest == ['\"'] + rest;
    } else {
      var e, tail := EscapeChar(s[0]), Escape(s[1..]) + "\"" + rest;
      assert Escape(s) + "\"" + rest == e + tail;
      UnescapeCharInverts(s[0], tail);
      assert (e + tail)[0] == e[0] && (e + tail)[|e|..] == tail;
      hide EscapeChar, UnescapeChar;
      EscapeRoundTrips(s[1..], rest);
      assert [s[0]] + s[1..] == s;
    }
  }

  // ---- Decimal numbers -------------------------------------------------

  function Digit(n: nat): char
    requires n < 10
  {
    ('0' as int + n) as char
  }

  predicate IsDigit(c: char) {
    '0' <= c <= '9'
  }

  function Decimal(n: nat): (s: string)
    ensures s != [] && forall c | c in s :: IsDigit(c)
  {
    if n < 10 then [Digit(n)] else Decimal(n / 10) + [Digit(n % 10)]
  }

  /** The number that a string of digits stands for. */
  function DigitsValue(s: string): nat
    requires forall c | c in s :: IsDigit(c)
  {
    if s == [] then 0
    else
      assert IsDigit(s[|s| - 1]) && forall c | c in s[..|s| - 1] :: c in s;
      DigitsValue(s[..|s| - 1]) * 10 + (s[|s| - 1] as nat - '0' as nat)
  }

  lemma {:induction false} DecimalRoundTrips(n: nat)
    ensures DigitsValue(Decimal(n)) == n
  {
    var s := Decimal(n);
    if n < 10 {
      assert s[..|s| - 1] == [];
    } else {
      assert s[..|s| - 1] == Decimal(n / 10);
      DecimalRoundTrips(n / 10);
    }
  }

  function Pow10(k: nat): nat {
    if k == 0 then 1 else 10 * Pow10(k - 1)
  }

  lemma {:induction false} DecimalLength(n: nat, k: nat)
    requires 1 <= k && n < Pow10(k)
    ensures |Decimal(n)| <= k
    decreases k
  {
    if n >= 10 {
      DecimalLength(n / 10, k - 1);
    }
  }

  /** The digits at the front of a text. */
  function LeadingDigits(s: string): (k: nat)
    ensures k <= |s| && forall i | 0 <= i < k :: IsDigit(s[i])
    ensures k < |s| ==> !IsDigit(s[k])
  {
    if s == [] || !IsDigit(s[0]) then 0 else 1 + LeadingDigits(s[1..])
  }

  lemma LeadingDigitsOf(d: string, rest: string)
    requires forall c | c in d :: IsDigit(c)
    requires rest != [] ==> !IsDigit(rest[0])
    ensures LeadingDigits(d + rest) == |d|
  {
    var s := d + rest;
    assert forall i | 0 <= i < |d| :: IsDigit(s[i]) by {
      forall i | 0 <= i < |d| ensures IsDigit(s[i]) {
        assert s[i] == d[i] && d[i] in d;
      }
    }
    assert rest != [] ==> s[|d|] == rest[0];
  }
}
