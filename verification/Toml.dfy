/** Passing text to Codex as a TOML basic string (src/agent/codex.rs), and
    reading it back as TOML v1.0.0, section "String", says. */
module Toml {
  import opened Basics

  // ----- Writing -----

  /** `char::is_control`: the category Cc. */
  predicate IsControl(c: char) {
    c < ' ' || '\U{007F}' <= c <= '\U{009F}'
  }

  const UPPER_HEX := "0123456789ABCDEF"

  /** `{:04X}`. */
  function Hex4(v: nat): string
    requires v < 0x1_0000
  {
    [UPPER_HEX[v / 0x1000], UPPER_HEX[v / 0x100 % 16], UPPER_HEX[v / 16 % 16], UPPER_HEX[v % 16]]
  }

  function Escape(c: char): string {
    match c
    case '"' => "\\\""
    case '\\' => "\\\\"
    case '\n' => "\\n"
    case '\t' => "\\t"
    case '\r' => "\\r"
    case _ => if IsControl(c) then "\\u" + Hex4(c as int) else [c]
  }

  function Escapes(text: string): string {
    if text == "" then "" else Escape(text[0]) + Escapes(text[1..])
  }

  function Quoted(text: string): string {
    "\"" + Escapes(text) + "\""
  }

  lemma {:induction false} EscapesAppend(a: string, b: string)
    ensures Escapes(a + b) == Escapes(a) + Escapes(b)
  {
    hide Escape;
    if a == "" {
      assert a + b == b;
    } else {
      assert (a + b)[1..] == a[1..] + b;
      EscapesAppend(a[1..], b);
    }
  }

  method TomlString(text: string) returns (out: string)
    ensures out == Quoted(text)
  {
    hide Escape;
    out := "\"";
    for i := 0 to |text|
      invariant out == "\"" + Escapes(text[..i])
    {
      assert text[..i + 1] == text[..i] + [text[i]];
      EscapesAppend(text[..i], [text[i]]);
      assert Escapes([text[i]]) == Escape(text[i]);
      out := out + Escape(text[i]);
    }
    assert text[..|text|] == text;
    out := out + "\"";
  }

  // ----- Reading -----

  /** A character a basic string may hold as it is. */
  predicate Unescaped(c: char) {
    c == '\t' || (c >= ' ' && c !in {'"', '\\', '\U{007F}'})
  }

  function HexValue(c: char): Option<nat> {
    if '0' <= c <= '9' then Some(c as int - '0' as int)
    else if 'A' <= c <= 'F' then Some(c as int - 'A' as int + 10)
    else if 'a' <= c <= 'f' then Some(c as int - 'a' as int + 10)
    else None
  }

  /** The value of hex digits. */
  function HexNumber(digits: string): Option<nat> {
    if digits == "" then Some(0)
    else
      var front, last := HexNumber(digits[..|digits| - 1]), HexValue(digits[|digits| - 1]);
      if front.Some? && last.Some? then Some(16 * front.value + last.value) else None
  }

  /** The Unicode scalar value that `n` hex digits name. */
  function Scalar(s: string, n: nat): Option<char> {
    if |s| < n then None
    else
      match HexNumber(s[..n])
      case Some(v) => if v < 0xD800 || 0xE000 <= v < 0x11_0000 then Some(v as char) else None
      case None => None
  }

  /** A string read and what is left of the input. */
  datatype Parsed = Parsed(text: string, rest: string)

  function Prepend(c: char, tail: Option<Parsed>): Option<Parsed> {
    match tail
    case None => None
    case Some(p) => Some(Parsed([c] + p.text, p.rest))
  }

  /** After the opening quote: up to the closing one. */
  function ReadBody(s: string): Option<Parsed>
    decreases |s|
  {
    if s == "" then None
    else if s[0] == '"' then Some(Parsed("", s[1..]))
    else if s[0] == '\\' then
      if |s| < 2 then None
      else
        match s[1]
        case 'b' => Prepend('\U{0008}', ReadBody(s[2..]))
        case 't' => Prepend('\t', ReadBody(s[2..]))
        case 'n' => Prepend('\n', ReadBody(s[2..]))
        case 'f' => Prepend('\U{000C}', ReadBody(s[2..]))
        case 'r' => Prepend('\r', ReadBody(s[2..]))
        case '"' => Prepend('"', ReadBody(s[2..]))
        case '\\' => Prepend('\\', ReadBody(s[2..]))
        case 'u' => var c := Scalar(s[2..], 4); if c.Some? then Prepend(c.value, ReadBody(s[6..])) else None
        case 'U' => var c := Scalar(s[2..], 8); if c.Some? then Prepend(c.value, ReadBody(s[10..])) else None
        case _ => None
    else if Unescaped(s[0]) then Prepend(s[0], ReadBody(s[1..]))
    else None
  }

  function ReadString(s: string): Option<Parsed> {
    if s != "" && s[0] == '"' then ReadBody(s[1..]) else None
  }

  lemma HexNumberMore(digits: string, c: char)
    requires HexNumber(digits).Some? && HexValue(c).Some?
    ensures HexNumber(digits + [c]) == Some(16 * HexNumber(digits).value + HexValue(c).value)
  {
    assert (digits + [c])[..|digits|] == digits;
  }

  lemma HexDigit(d: nat)
    requires d < 16
    ensures HexValue(UPPER_HEX[d]) == Some(d)
  {
  }

  lemma HexOfByte(v: nat)
    requires v < 0x100
    ensures HexNumber(Hex4(v)) == Some(v) && forall c :: c in Hex4(v) ==> '0' <= c <= '9' || 'A' <= c <= 'F'
  {
    hide HexValue, HexNumber;
    var a, b := v / 16, v % 16;
    assert a % 16 == a && v / 0x1000 == 0 && v / 0x100 == 0;
    NoHex();
    HexDigit(0);
    HexDigit(a);
    HexDigit(b);
    HexNumberMore("", '0');
    HexNumberMore("" + ['0'], '0');
    HexNumberMore("" + ['0'] + ['0'], UPPER_HEX[a]);
    HexNumberMore("" + ['0'] + ['0'] + [UPPER_HEX[a]], UPPER_HEX[b]);
    assert Hex4(v) == "" + ['0'] + ['0'] + [UPPER_HEX[a]] + [UPPER_HEX[b]];
  }

  lemma NoHex()
    ensures HexNumber("") == Some(0)
  {
  }

  /** One escaped character is read back as itself. */
  lemma ReadEscape(c: char, tail: string)
    ensures ReadBody(Escape(c) + tail) == Prepend(c, ReadBody(tail))
  {
    var e := Escape(c);
    var s := e + tail;
    if |e| == 6 {
      HexOfByte(c as int);
      assert s[2..][..4] == Hex4(c as int);
      assert s[6..] == tail;
    } else if |e| == 2 {
      assert s[2..] == tail;
    } else {
      assert s[1..] == tail;
    }
  }

  lemma {:induction false} ReadEscapes(text: string, tail: string)
    ensures ReadBody(Escapes(text) + "\"" + tail) == Some(Parsed(text, tail))
  {
    hide Escape;
    if text == "" {
      assert Escapes(text) + "\"" + tail == "\"" + tail;
    } else {
      var rest := Escapes(text[1..]) + "\"" + tail;
      assert Escapes(text) + "\"" + tail == Escape(text[0]) + rest;
      ReadEscape(text[0], rest);
      ReadEscapes(text[1..], tail);
      assert text == [text[0]] + text[1..];
    }
  }

  /** Every text comes back whole, and nothing after it is read along. */
  lemma TomlRoundTrip(text: string, tail: string)
    ensures ReadString(Quoted(text) + tail) == Some(Parsed(text, tail))
  {
    assert (Quoted(text) + tail)[1..] == Escapes(text) + "\"" + tail;
    ReadEscapes(text, tail);
  }

  lemma NoControlInEscape(c: char)
    ensures forall x :: x in Escape(c) ==> ' ' <= x && (x < '\U{007F}' || x > '\U{009F}')
  {
    if IsControl(c) {
      HexOfByte(c as int);
      hide Hex4;
    }
  }

  /** Text without quotes, backslashes and control characters is written as it
      is, between quotes. */
  lemma {:induction false} PlainIsWrittenAsIs(text: string)
    requires forall c :: c in text ==> c !in "\"\\" && ' ' <= c && (c < '\U{007F}' || c > '\U{009F}')
    ensures Quoted(text) == "\"" + text + "\""
  {
    if text != "" {
      assert forall c :: c in text[1..] ==> c in text;
      PlainIsWrittenAsIs(text[1..]);
      assert Quoted(text[1..]) == "\"" + Escapes(text[1..]) + "\"";
      assert Escapes(text[1..]) == Quoted(text[1..])[1..|Quoted(text[1..])| - 1] == text[1..];
      assert text[0] in text && Escape(text[0]) == [text[0]];
      assert text == [text[0]] + text[1..];
    }
  }

  /** No control character is written, so none that the form forbids. */
  lemma {:induction false} NoControlWritten(text: string)
    ensures forall c :: c in Quoted(text) ==> ' ' <= c && (c < '\U{007F}' || c > '\U{009F}')
  {
    hide Escape;
    if text != "" {
      NoControlWritten(text[1..]);
      NoControlInEscape(text[0]);
      assert Quoted(text[1..]) == "\"" + Escapes(text[1..]) + "\"";
      forall c | c in Escapes(text[1..])
        ensures ' ' <= c && (c < '\U{007F}' || c > '\U{009F}')
      {
        assert c in Quoted(text[1..]);
      }
    }
  }

  // ----- The instruction -----

  const INSTRUCTIONS_KEY := "developer_instructions"

  /** The `-c` value for an instruction; none for a blank one. */
  method InstructionConfig(instruction: string) returns (config: Option<string>)
    ensures config == None <==> Blank(instruction)
    ensures config.Some? ==> ReadSetting(config.value) == Some(Setting(INSTRUCTIONS_KEY, Trim(instruction)))
  {
    TrimBlank(instruction);
    var trimmed := Trim(instruction);
    if trimmed == "" {
      return None;
    }
    var quoted := TomlString(trimmed);
    var out := INSTRUCTIONS_KEY + "=" + quoted;
    assert out[..|INSTRUCTIONS_KEY|] == INSTRUCTIONS_KEY && out[|INSTRUCTIONS_KEY| + 1..] == quoted;
    IndexOfIs(out, '=', |INSTRUCTIONS_KEY|);
    TomlRoundTrip(trimmed, "");
    assert quoted + "" == quoted;
    return Some(out);
  }

  datatype Setting = Setting(key: string, value: string)

  /** `key=value` with a string value, as `-c` takes it. */
  function ReadSetting(s: string): Option<Setting> {
    var i := IndexOf(s, '=');
    if i == |s| then None
    else
      match ReadString(s[i + 1..])
      case Some(p) => if p.rest == "" then Some(Setting(s[..i], p.text)) else None
      case None => None
  }
}
