// Reading back a quoted string as section 7 of RFC 8259 says.
module JsonStrings {
  import opened Wrappers
  import opened CanonicalJson
  import Text

  function HexValue(c: char): (v: Option<nat>)
    ensures v.Some? ==> v.value < 16
  {
    if '0' <= c <= '9' then Some(c as int - '0' as int)
    else if 'a' <= c <= 'f' then Some(c as int - 'a' as int + 10)
    else if 'A' <= c <= 'F' then Some(c as int - 'A' as int + 10)
    else None
  }

  // Four hex digits outside the surrogates.
  function ReadHex(text: string): (r: Option<(char, string)>)
    ensures r.Some? ==> |r.value.1| < |text|
  {
    if |text| < 4 then None
    else
      var a: nat :- HexValue(text[0]);
      var b: nat :- HexValue(text[1]);
      var c: nat :- HexValue(text[2]);
      var d: nat :- HexValue(text[3]);
      var code := 4096 * a + 256 * b + 16 * c + d;
      if code < 0xD800 then Some((code as char, text[4..])) else None
  }

  // What follows a backslash.
  function ReadEscape(text: string): (r: Option<(char, string)>)
    ensures r.Some? ==> |r.value.1| < |text|
  {
    if text == [] then None
    else
      var (c, rest) := (text[0], text[1..]);
      if c == '"' || c == '\\' || c == '/' then Some((c, rest))
      else if c == 'b' then Some(('\U{08}', rest))
      else if c == 'f' then Some(('\U{0C}', rest))
      else if c == 'n' then Some(('\n', rest))
      else if c == 'r' then Some(('\r', rest))
      else if c == 't' then Some(('\t', rest))
      else if c == 'u' then ReadHex(rest)
      else None
  }

  // The characters up to the closing quote, and the text behind it. No control
  // character stands in a string unescaped.
  function ReadString(text: string): Option<(string, string)>
    decreases |text|
  {
    if text == [] then None
    else if text[0] == '"' then Some(("", text[1..]))
    else if text[0] == '\\' then
      var one :- ReadEscape(text[1..]);
      var more :- ReadString(one.1);
      Some(([one.0] + more.0, more.1))
    else if text[0] < ' ' then None
    else
      var more :- ReadString(text[1..]);
      Some(([text[0]] + more.0, more.1))
  }

  lemma HexReads(n: nat)
    requires n < 16
    ensures HexValue(HexDigit(n)) == Some(n)
  {
  }

  lemma ControlReads(c: char, rest: string)
    requires c < ' '
    ensures ReadHex("00" + [HexDigit(c as int / 16), HexDigit(c as int % 16)] + rest) == Some((c, rest))
  {
    HexReads(0);
    HexReads(c as int / 16);
    HexReads(c as int % 16);
    var text := "00" + [HexDigit(c as int / 16), HexDigit(c as int % 16)] + rest;
    assert text[4..] == rest;
  }

  lemma EscapeReads(c: char, rest: string)
    requires c < ' ' || c == '"' || c == '\\'
    ensures var text := Escape(c) + rest; text[0] == '\\' && ReadEscape(text[1..]) == Some((c, rest))
  {
    var text := Escape(c) + rest;
    if |Escape(c)| == 2 {
      assert text[1..][1..] == rest;
    } else {
      ControlReads(c, rest);
      assert text[1..][1..] == "00" + [HexDigit(c as int / 16), HexDigit(c as int % 16)] + rest;
    }
  }

  lemma FirstReads(c: char, text: string, tail: string)
    requires text == Escape(c) + tail
    ensures ReadString(text) ==
      match ReadString(tail) case None => None case Some(more) => Some(([c] + more.0, more.1))
  {
    if c < ' ' || c == '"' || c == '\\' {
      EscapeReads(c, tail);
    } else {
      assert text[0] == c && text[1..] == tail;
    }
  }

  // Every string reads back from its quotation, whatever text comes after it.
  lemma {:induction false} QuotedReadsBack(s: string, rest: string)
    ensures ReadString(QuoteRest(s) + rest) == Some((s, rest))
  {
    if s == [] {
      assert (QuoteRest(s) + rest)[1..] == rest;
    } else {
      QuotedReadsBack(s[1..], rest);
      Text.Regroup(Escape(s[0]), QuoteRest(s[1..]), rest);
      FirstReads(s[0], QuoteRest(s) + rest, QuoteRest(s[1..]) + rest);
      assert s == [s[0]] + s[1..];
    }
  }

  // ---- No spelling is shorter ---------------------------------------------------

  lemma FirstRead(text: string, c: char)
    requires ReadString(text) == Some(([c], ""))
    ensures text != [] && text[0] != '"' && (text[0] == '\\' ==> text != ['\\', '"'])
    ensures if text[0] == '\\' then ReadEscape(text[1..]).Some? && ReadEscape(text[1..]).value.0 == c else text[0] == c
  {
    if text == ['\\', '"'] {
      LoneBackslash(text);
    } else if text[0] == '\\' {
      var one := ReadEscape(text[1..]).value;
      var more := ReadString(one.1).value;
      assert ([one.0] + more.0)[0] == one.0;
    } else if text[0] != '"' {
      var more := ReadString(text[1..]).value;
      assert ([text[0]] + more.0)[0] == text[0];
    }
  }

  lemma LoneBackslash(text: string)
    requires text == ['\\', '"']
    ensures ReadString(text).None?
  {
    assert text[1..] == ['"'] && text[1..][1..] == [];
  }

  // Characters that read as `c` inside quotes are at least as many as its escape has.
  lemma EscapeIsShortest(c: char, text: string, quoted: string)
    requires quoted == text + "\"" && ReadString(quoted) == Some(([c], ""))
    ensures |Escape(c)| <= |text|
  {
    FirstRead(quoted, c);
    if quoted[0] == '\\' {
      MoreThanBackslash(text, quoted);
      EscapeIsLong(c, text, quoted[1..]);
    }
  }

  lemma MoreThanBackslash(text: string, quoted: string)
    requires quoted == text + "\"" && quoted[0] == '\\' && quoted != ['\\', '"']
    ensures |text| >= 2 && quoted[1..] == (text + "\"")[1..]
  {
  }

  lemma EscapeIsLong(c: char, text: string, behind: string)
    requires |text| >= 2 && behind == (text + "\"")[1..]
    requires ReadEscape(behind).Some? && ReadEscape(behind).value.0 == c
    ensures |Escape(c)| <= |text|
  {
    if behind[0] == 'u' {
      HexIsLong(behind[1..], |text| - 2);
    }
  }

  lemma HexIsLong(hex: string, end: nat)
    requires end < |hex| && hex[end] == '"' && ReadHex(hex).Some?
    ensures end >= 4
  {
    assert HexValue('"').None?;
  }
}
