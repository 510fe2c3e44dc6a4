/** The escape applied to message text before it is sent to Slack. */
module Slack {
  import opened Strings

  /** Three replacements, `&` first so that the entities of the others survive. */
  function Escape(text: string): string {
    ReplaceChar(ReplaceChar(ReplaceChar(text, '&', "&amp;"), '<', "&lt;"), '>', "&gt;")
  }

  function EscapeChar(c: char): string {
    if c == '&' then "&amp;" else if c == '<' then "&lt;" else if c == '>' then "&gt;" else [c]
  }

  function EscapeEach(text: string): string {
    if text == "" then "" else EscapeChar(text[0]) + EscapeEach(text[1..])
  }

  /** Resolves the three entities from left to right. */
  function Unescape(s: string): string {
    if s == "" then ""
    else if "&amp;" <= s then "&" + Unescape(s[5..])
    else if "&lt;" <= s then "<" + Unescape(s[4..])
    else if "&gt;" <= s then ">" + Unescape(s[4..])
    else [s[0]] + Unescape(s[1..])
  }

  lemma {:induction false} ReplaceAbsent(s: string, c: char, text: string)
    requires c !in s
    ensures ReplaceChar(s, c, text) == s
  {
    if s == "" {
    } else {
      assert s == [s[0]] + s[1..];
      ReplaceAbsent(s[1..], c, text);
    }
  }

  lemma ReplaceOne(c: char, from: char, text: string)
    ensures ReplaceChar([c], from, text) == if c == from then text else [c]
  {
    assert [c][1..] == "";
    assert text + "" == text;
  }

  lemma EscapeOneChar(c: char)
    ensures Escape([c]) == EscapeChar(c)
  {
    ReplaceOne(c, '&', "&amp;");
    if c == '&' {
      ReplaceAbsent("&amp;", '<', "&lt;");
      ReplaceAbsent("&amp;", '>', "&gt;");
    } else {
      ReplaceOne(c, '<', "&lt;");
      if c == '<' {
        ReplaceAbsent("&lt;", '>', "&gt;");
      } else {
        ReplaceOne(c, '>', "&gt;");
      }
    }
  }

  /** The three replacements together are a map of single characters. */
  lemma {:induction false} EscapeFusion(text: string)
    ensures Escape(text) == EscapeEach(text)
  {
    if text == "" {
    } else {
      var c, rest := text[0], text[1..];
      EscapeFusion(rest);
      EscapeOneChar(c);
      ReplaceOne(c, '&', "&amp;");
      var a := ReplaceChar([c], '&', "&amp;");
      var b := ReplaceChar(a, '<', "&lt;");
      assert ReplaceChar(text, '&', "&amp;") == a + ReplaceChar(rest, '&', "&amp;");
      ReplaceCharConcat(a, ReplaceChar(rest, '&', "&amp;"), '<', "&lt;");
      ReplaceCharConcat(b, ReplaceChar(ReplaceChar(rest, '&', "&amp;"), '<', "&lt;"), '>', "&gt;");
    }
  }

  lemma EscapeCharSafe(c: char)
    ensures '<' !in EscapeChar(c) && '>' !in EscapeChar(c)
  {
  }

  /** The escape of one character resolves to it, whatever follows. */
  lemma UnescapeFirst(c: char, rest: string)
    ensures Unescape(EscapeChar(c) + rest) == [c] + Unescape(rest)
  {
    var s := EscapeChar(c) + rest;
    if c == '&' {
      assert s[..5] == "&amp;" && s[5..] == rest;
    } else if c == '<' || c == '>' {
      assert s[..4] == EscapeChar(c) && s[4..] == rest && s[1] != 'a';
    } else {
      assert s[1..] == rest && s[0] == c;
    }
  }

  lemma {:induction false} EscapeEachSafe(text: string)
    ensures '<' !in EscapeEach(text) && '>' !in EscapeEach(text)
    ensures Unescape(EscapeEach(text)) == text
  {
    if text == "" {
    } else {
      EscapeEachSafe(text[1..]);
      EscapeCharSafe(text[0]);
      UnescapeFirst(text[0], EscapeEach(text[1..]));
      hide EscapeChar, Unescape;
      assert text == [text[0]] + text[1..];
    }
  }

  /** Escaped text has no raw angle bracket, and resolving its entities gives the text back. */
  lemma EscapeInverts(text: string)
    ensures '<' !in Escape(text) && '>' !in Escape(text)
    ensures Unescape(Escape(text)) == text
  {
    EscapeFusion(text);
    EscapeEachSafe(text);
  }
}
