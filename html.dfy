/**
 * Python's `html.escape(s)` (with its default `quote=True`), which the bot
 * applies to every title and error text it embeds in an HTML reply.
 */
module Html {
  import opened Text

  /** The characters that carry markup meaning in an HTML reply. */
  predicate IsMarkup(c: char)
  {
    c == '&' || c == '<' || c == '>' || c == '"' || c == '\''
  }

  function EscapeChar(c: char): (e: string)
    ensures !IsMarkup(c) ==> e == [c]
    ensures forall k :: 0 <= k < |e| ==> e[k] != '<' && e[k] != '>' && e[k] != '"' && e[k] != '\''
  {
    if c == '&' then "&amp;"
    else if c == '<' then "&lt;"
    else if c == '>' then "&gt;"
    else if c == '"' then "&quot;"
    else if c == '\'' then "&#x27;"
    else [c]
  }

  /** `html.escape(s)`: '&' first, then the brackets and both quotes. */
  function Escape(s: string): (r: string)
    ensures '<' !in r && '>' !in r && '"' !in r && '\'' !in r
    decreases |s|
  {
    if |s| == 0 then "" else Escape(s[..|s| - 1]) + EscapeChar(s[|s| - 1])
  }

  /** Appending a character appends its escape. */
  lemma EscapeSnoc(s: string, c: char)
    ensures Escape(s + [c]) == Escape(s) + EscapeChar(c)
  {
    var t := s + [c];
    assert t[..|t| - 1] == s;
    assert t[|t| - 1] == c;
  }

  lemma AppendAssoc(x: string, y: string, z: string)
    ensures (x + y) + z == x + (y + z)
  {
  }

  /** Escaping a character in front of a text puts its escape in front. */
  lemma {:induction false} EscapeCons(c: char, t: string)
    ensures Escape([c] + t) == EscapeChar(c) + Escape(t)
    decreases |t|
  {
    if |t| == 0 {
      assert [c] + t == [] + [c];
      EscapeSnoc([], c);
    } else {
      var u, l := t[..|t| - 1], t[|t| - 1];
      assert [c] + t == ([c] + u) + [l] by { assert t == u + [l]; }
      EscapeSnoc([c] + u, l);
      EscapeCons(c, u);
      EscapeSnoc(u, l);
      assert t == u + [l];
      AppendAssoc(EscapeChar(c), Escape(u), EscapeChar(l));
    }
  }

  /** The escape of a non-empty text starts with the escape of its first character. */
  lemma EscapeFirst(s: string)
    requires |s| > 0
    ensures Escape(s) == EscapeChar(s[0]) + Escape(s[1..])
  {
    assert s == [s[0]] + s[1..];
    EscapeCons(s[0], s[1..]);
  }

  /** The entity `Escape` emits at the start of `s`: the character it stands for and its length (0 for none). */
  function Entity(s: string): (r: (char, nat))
    ensures r.1 <= |s|
  {
    if StartsWith(s, "&amp;") then ('&', 5)
    else if StartsWith(s, "&lt;") then ('<', 4)
    else if StartsWith(s, "&gt;") then ('>', 4)
    else if StartsWith(s, "&quot;") then ('"', 6)
    else if StartsWith(s, "&#x27;") then ('\'', 6)
    else (' ', 0)
  }

  /** The inverse of `Escape`: the five entities it emits, decoded. */
  function Unescape(s: string): string
    decreases |s|
  {
    if |s| == 0 then ""
    else if s[0] == '&' && Entity(s).1 > 0 then [Entity(s).0] + Unescape(s[Entity(s).1..])
    else [s[0]] + Unescape(s[1..])
  }

  /** The entity emitted for a markup character is read back as that character. */
  lemma EntityOfEscape(c: char, rest: string)
    requires IsMarkup(c)
    ensures Entity(EscapeChar(c) + rest) == (c, |EscapeChar(c)|)
  {
    var t := EscapeChar(c) + rest;
    if c == '&' {
      assert t[..5] == "&amp;";
    } else if c == '<' {
      assert t[..4] == "&lt;" && t[1] == 'l';
    } else if c == '>' {
      assert t[..4] == "&gt;" && t[1] == 'g';
    } else if c == '"' {
      assert t[..6] == "&quot;" && t[1] == 'q';
    } else {
      assert t[..6] == "&#x27;" && t[1] == '#';
    }
  }

  /** Decoding the escape of one character yields that character. */
  lemma UnescapeEscapeChar(c: char, rest: string)
    ensures Unescape(EscapeChar(c) + rest) == [c] + Unescape(rest)
  {
    var e := EscapeChar(c);
    var t := e + rest;
    assert t[|e|..] == rest;
    if IsMarkup(c) {
      EntityOfEscape(c, rest);
    } else {
      assert t[0] == c;
    }
  }

  /** Escaping loses nothing: the original text is recovered from the reply. */
  lemma {:induction false} UnescapeEscape(s: string)
    ensures Unescape(Escape(s)) == s
    decreases |s|
  {
    if |s| > 0 {
      EscapeFirst(s);
      UnescapeEscapeChar(s[0], Escape(s[1..]));
      UnescapeEscape(s[1..]);
      assert s == [s[0]] + s[1..];
    }
  }

  /** A text without markup characters is embedded as it is. */
  lemma {:induction false} EscapePlain(s: string)
    requires forall k :: 0 <= k < |s| ==> !IsMarkup(s[k])
    ensures Escape(s) == s
    decreases |s|
  {
    if |s| > 0 {
      EscapePlain(s[..|s| - 1]);
      assert s == s[..|s| - 1] + [s[|s| - 1]];
    }
  }
}
