/**
 * The runtime JSON writer behind the `json_string!` macro
 * (crates/anyml_core/src/json.rs): string escaping and `write_json` for
 * strings, booleans and integers, all appending to a caller-owned buffer.
 *
 * The escaper is checked against an independent decoder for the string
 * grammar of section 7 of RFC 8259: decoding what the escaper wrote gives
 * back the original text.
 */
module JsonWrite {
  import opened Wrappers
  import Strings

  /** A lowercase hexadecimal digit. */
  function HexDigit(d: nat): (c: char)
    requires d < 16
    ensures d < 10 ==> '0' <= c <= '9'
    ensures 10 <= d ==> 'a' <= c <= 'f'
  {
    if d < 10 then ('0' as int + d) as char else ('a' as int + d - 10) as char
  }

  /** `format!("{:04x}", n)`: four lowercase hexadecimal digits. */
  function Hex4(n: nat): (r: string)
    requires n < 0x10000
    ensures |r| == 4
  {
    var q1 := n / 16;
    var q2 := q1 / 16;
    var q3 := q2 / 16;
    [HexDigit(q3), HexDigit(q2 % 16), HexDigit(q1 % 16), HexDigit(n % 16)]
  }

  /** What `json_escape_into` writes for one character. */
  function EscapeChar(c: char): string {
    if c == '"' then "\\\""
    else if c == '\\' then "\\\\"
    else if c == '\n' then "\\n"
    else if c == '\r' then "\\r"
    else if c == '\t' then "\\t"
    else if (c as int) < 0x20 then "\\u" + Hex4(c as int)
    else [c]
  }

  /** The escaped form of a whole text: each character escaped, in order. */
  function Escape(s: string): string {
    if s == [] then "" else EscapeChar(s[0]) + Escape(s[1..])
  }

  lemma {:induction false} EscapeAppend(a: string, b: string)
    ensures Escape(a + b) == Escape(a) + Escape(b)
  {
    if a != [] {
      assert (a + b)[1..] == a[1..] + b;
      EscapeAppend(a[1..], b);
    } else {
      assert a + b == b;
    }
  }

  /** Escaping one more character of a prefix appends that character's escape. */
  lemma EscapePrefixStep(s: string, i: nat)
    requires i < |s|
    ensures Escape(s[..i + 1]) == Escape(s[..i]) + EscapeChar(s[i])
  {
    assert s[..i + 1] == s[..i] + [s[i]];
    EscapeAppend(s[..i], [s[i]]);
  }

  /** Appending the escape of the next character extends the escaped prefix by one character. */
  lemma EscapeInvariantStep(start: string, s: string, i: nat, text: string, piece: string)
    requires i < |s| && text == start + Escape(s[..i]) && piece == EscapeChar(s[i])
    ensures text + piece == start + Escape(s[..i + 1])
  {
    var done := Escape(s[..i]);
    EscapePrefixStep(s, i);
    Strings.AppendAssoc(start, done, piece);
  }

  /** A character of the escaped output that is not a raw control character. */
  predicate NotControl(c: char) {
    (c as int) >= 0x20
  }

  /** The escaped output contains no raw control character below 0x20. */
  lemma {:induction false} EscapeHasNoControl(s: string)
    ensures forall i :: 0 <= i < |Escape(s)| ==> NotControl(Escape(s)[i])
  {
    if s != [] {
      EscapeHasNoControl(s[1..]);
      var head := EscapeChar(s[0]);
      var tail := Escape(s[1..]);
      EscapeCharHasNoControl(s[0]);
      assert Escape(s) == head + tail;
      forall i | 0 <= i < |head + tail|
        ensures NotControl((head + tail)[i])
      {
        if i < |head| {
          assert (head + tail)[i] == head[i];
        } else {
          assert (head + tail)[i] == tail[i - |head|];
        }
      }
    }
  }

  /** The escape of one character holds no raw control character. */
  lemma EscapeCharHasNoControl(c: char)
    ensures forall i :: 0 <= i < |EscapeChar(c)| ==> NotControl(EscapeChar(c)[i])
  {
    var e := EscapeChar(c);
    if (c as int) < 0x20 && c != '\n' && c != '\r' && c != '\t' {
      var h := Hex4(c as int);
      assert e == ['\\', 'u'] + h;
      assert forall i :: 0 <= i < 4 ==> NotControl(h[i]);
    }
  }

  // ---------------------------------------------------------------------
  // Section 7 of RFC 8259: the decoder for the inside of a string token.
  // ---------------------------------------------------------------------

  /** The value of a hexadecimal digit, either case. */
  function HexValue(c: char): Option<nat> {
    if '0' <= c <= '9' then Some(c as int - '0' as int)
    else if 'a' <= c <= 'f' then Some(c as int - 'a' as int + 10)
    else if 'A' <= c <= 'F' then Some(c as int - 'A' as int + 10)
    else None
  }

  /** The value of four hexadecimal digits, as after `\u`. */
  function Hex4Value(s: string): (r: Option<nat>)
    requires |s| == 4
    ensures r.Some? ==> r.value < 0x10000
  {
    match (HexValue(s[0]), HexValue(s[1]), HexValue(s[2]), HexValue(s[3]))
    case (Some(a), Some(b), Some(c), Some(d)) =>
      if a < 16 && b < 16 && c < 16 && d < 16 then Some(((a * 16 + b) * 16 + c) * 16 + d) else None
    case _ => None
  }

  /** The character a two-character escape `\x` stands for. */
  function ShortEscape(x: char): Option<char> {
    match x
    case '"' => Some('"')
    case '\\' => Some('\\')
    case '/' => Some('/')
    case 'b' => Some('\U{8}')
    case 'f' => Some('\U{C}')
    case 'n' => Some('\n')
    case 'r' => Some('\r')
    case 't' => Some('\t')
    case _ => None
  }

  function Prepend(c: char, rest: Option<string>): Option<string> {
    match rest
    case None => None
    case Some(t) => Some([c] + t)
  }

  predicate IsHighSurrogate(n: nat) { 0xD800 <= n < 0xDC00 }
  predicate IsLowSurrogate(n: nat) { 0xDC00 <= n < 0xE000 }

  /**
   * The decoded text of the characters between the quotes of a JSON
   * string, or None when they break the grammar: an unescaped quote,
   * backslash or control character, an unknown escape, a bad `\u`
   * sequence, or a surrogate that is not half of a pair.
   */
  function Unescape(s: string): Option<string>
    decreases |s|
  {
    if s == [] then Some("")
    else if s[0] == '\\' then
      if |s| < 2 then None
      else if s[1] != 'u' then
        match ShortEscape(s[1])
        case None => None
        case Some(c) => Prepend(c, Unescape(s[2..]))
      else if |s| < 6 then None
      else
        match Hex4Value(s[2..6])
        case None => None
        case Some(n) =>
          if IsLowSurrogate(n) then None
          else if !IsHighSurrogate(n) then Prepend(n as char, Unescape(s[6..]))
          else if |s| < 12 || s[6] != '\\' || s[7] != 'u' then None
          else
            match Hex4Value(s[8..12])
            case None => None
            case Some(m) =>
              if !IsLowSurrogate(m) then None
              else Prepend((0x10000 + (n - 0xD800) * 0x400 + (m - 0xDC00)) as char, Unescape(s[12..]))
    else if s[0] == '"' || (s[0] as int) < 0x20 then None
    else Prepend(s[0], Unescape(s[1..]))
  }

  /** A whole string token: a quote, the escaped text, a quote. */
  function DecodeStringToken(t: string): Option<string> {
    if |t| >= 2 && t[0] == '"' && t[|t| - 1] == '"' then Unescape(t[1..|t| - 1]) else None
  }

  lemma HexDigitRoundTrip(d: nat)
    requires d < 16
    ensures HexValue(HexDigit(d)) == Some(d)
  {
  }

  lemma Hex4RoundTrip(n: nat)
    requires n < 0x10000
    ensures Hex4Value(Hex4(n)) == Some(n)
  {
    var q1 := n / 16;
    var q2 := q1 / 16;
    var q3 := q2 / 16;
    HexDigitRoundTrip(q3);
    HexDigitRoundTrip(q2 % 16);
    HexDigitRoundTrip(q1 % 16);
    HexDigitRoundTrip(n % 16);
    assert q3 * 16 + q2 % 16 == q2;
    assert q2 * 16 + q1 % 16 == q1;
    assert q1 * 16 + n % 16 == n;
  }

  /** Decoding the escape of `c` followed by anything yields `c` followed by the decoding of the rest. */
  lemma UnescapeChar(c: char, rest: string)
    ensures Unescape(EscapeChar(c) + rest) == Prepend(c, Unescape(rest))
  {
    if c == '"' || c == '\\' || c == '\n' || c == '\r' || c == '\t' {
      UnescapeShort(c, EscapeChar(c)[1], rest);
    } else if (c as int) < 0x20 {
      UnescapeUnicode(c, rest);
    } else {
      var e := EscapeChar(c) + rest;
      assert e == [c] + rest;
      assert e[1..] == rest;
    }
  }

  /** A two-character escape `\x` decodes to the character it stands for. */
  lemma UnescapeShort(c: char, x: char, rest: string)
    requires EscapeChar(c) == ['\\', x] && ShortEscape(x) == Some(c)
    ensures Unescape(EscapeChar(c) + rest) == Prepend(c, Unescape(rest))
  {
    var e := ['\\', x] + rest;
    assert e[0] == '\\' && e[1] == x && |e| >= 2;
    assert e[2..] == rest;
  }

  /** A `\u` escape of a control character decodes to that character. */
  lemma UnescapeUnicode(c: char, rest: string)
    requires (c as int) < 0x20 && c != '\n' && c != '\r' && c != '\t'
    ensures Unescape(EscapeChar(c) + rest) == Prepend(c, Unescape(rest))
  {
    var h := Hex4(c as int);
    Hex4RoundTrip(c as int);
    var e := ['\\', 'u'] + h + rest;
    assert EscapeChar(c) + rest == e;
    assert e[0] == '\\' && e[1] == 'u' && |e| >= 6;
    assert e[2..6] == h;
    assert e[6..] == rest;
  }

  /** Section 7 of RFC 8259 decodes the escaped text back to the original. */
  lemma {:induction false} EscapeRoundTrip(s: string)
    ensures Unescape(Escape(s)) == Some(s)
  {
    if s != [] {
      UnescapeChar(s[0], Escape(s[1..]));
      EscapeRoundTrip(s[1..]);
      assert [s[0]] + s[1..] == s;
    }
  }

  // ---------------------------------------------------------------------
  // Integers: `to_string` writes the decimal form.
  // ---------------------------------------------------------------------

  function DigitChar(d: nat): (c: char)
    requires d < 10
    ensures '0' <= c <= '9'
  {
    ('0' as int + d) as char
  }

  /** The decimal digits of a natural number, most significant first. */
  function Digits(n: nat): (r: string)
    ensures |r| >= 1
    ensures forall i :: 0 <= i < |r| ==> '0' <= r[i] <= '9'
  {
    if n < 10 then [DigitChar(n)] else Digits(n / 10) + [DigitChar(n % 10)]
  }

  /** `to_string` of a signed or unsigned integer. */
  function Decimal(n: int): string {
    if n < 0 then "-" + Digits(-n) else Digits(n)
  }

  /** Reads back a run of decimal digits; None if any character is not a digit. */
  function DigitsValue(s: string): Option<nat>
    decreases |s|
  {
    if s == [] then None
    else
      var d := s[|s| - 1];
      if !('0' <= d <= '9') then None
      else if |s| == 1 then Some(d as int - '0' as int)
      else match DigitsValue(s[..|s| - 1])
        case None => None
        case Some(v) => Some(v * 10 + (d as int - '0' as int))
  }

  /** Reads back an optionally negative decimal integer. */
  function DecimalValue(s: string): Option<int> {
    if s != [] && s[0] == '-' then
      match DigitsValue(s[1..])
      case None => None
      case Some(v) => Some(-(v as int))
    else
      match DigitsValue(s)
      case None => None
      case Some(v) => Some(v)
  }

  lemma {:induction false} DigitsRoundTrip(n: nat)
    ensures DigitsValue(Digits(n)) == Some(n)
  {
    if n >= 10 {
      DigitsRoundTrip(n / 10);
      var s := Digits(n);
      assert s[..|s| - 1] == Digits(n / 10);
    }
  }

  /** The decimal form reads back as the same integer. */
  lemma DecimalRoundTrip(n: int)
    ensures DecimalValue(Decimal(n)) == Some(n)
  {
    if n < 0 {
      DigitsRoundTrip(-n);
      NegativeReadsBack(Digits(-n), -n);
    } else {
      DigitsRoundTrip(n);
      UnsignedReadsBack(Digits(n), n);
    }
  }

  lemma NegativeReadsBack(d: string, v: nat)
    requires DigitsValue(d) == Some(v)
    ensures DecimalValue("-" + d) == Some(-(v as int))
  {
    var s := "-" + d;
    assert s[0] == '-' && s[1..] == d;
  }

  lemma UnsignedReadsBack(d: string, v: nat)
    requires DigitsValue(d) == Some(v) && d[0] != '-'
    ensures DecimalValue(d) == Some(v)
  {
  }

  // ---------------------------------------------------------------------
  // The buffer every `write_json` appends to.
  // ---------------------------------------------------------------------

  /** The `&mut String` that `write_json` and `json_escape_into` append to. */
  class JsonBuffer {
    var text: string

    constructor (initial: string)
      ensures text == initial
    {
      text := initial;
    }

    /** `json_escape_into`: appends the escape of every character of `s`, in order. */
    method EscapeInto(s: string)
      modifies this
      ensures text == old(text) + Escape(s)
    {
      ghost var start := text;
      for i := 0 to |s|
        invariant text == start + Escape(s[..i])
      {
        var ch := s[i];
        var piece: string;
        if ch == '"' {
          piece := "\\\"";
          assert piece == EscapeChar(ch);
        } else if ch == '\\' {
          piece := "\\\\";
          assert piece == EscapeChar(ch);
        } else if ch == '\n' {
          piece := "\\n";
          assert piece == EscapeChar(ch);
        } else if ch == '\r' {
          piece := "\\r";
          assert piece == EscapeChar(ch);
        } else if ch == '\t' {
          piece := "\\t";
          assert piece == EscapeChar(ch);
        } else if (ch as int) < 0x20 {
          piece := "\\u" + Hex4(ch as int);
          assert piece == EscapeChar(ch);
        } else {
          piece := [ch];
          assert piece == EscapeChar(ch);
        }
        EscapeInvariantStep(start, s, i, text, piece);
        text := text + piece;
      }
      assert s[..|s|] == s;
    }

    /** `write_json` for `&str` and `String`: a quote, the escaped text, a quote. */
    method WriteStr(s: string)
      modifies this
      ensures text == old(text) + "\"" + Escape(s) + "\""
    {
      text := text + "\"";
      EscapeInto(s);
      text := text + "\"";
    }

    /** `write_json` for `bool`. */
    method WriteBool(b: bool)
      modifies this
      ensures text == old(text) + (if b then "true" else "false")
    {
      text := text + (if b then "true" else "false");
    }

    /** `write_json` for the integer types: the decimal form. */
    method WriteInt(n: int)
      modifies this
      ensures text == old(text) + Decimal(n)
    {
      text := text + Decimal(n);
    }
  }

  /** What `WriteStr` appends is a string token that decodes to the original text. */
  lemma WrittenStringDecodes(s: string)
    ensures DecodeStringToken("\"" + Escape(s) + "\"") == Some(s)
  {
    var t := "\"" + Escape(s) + "\"";
    assert t[1..|t| - 1] == Escape(s);
    EscapeRoundTrip(s);
  }
}
