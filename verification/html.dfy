/** HTML escaping as the pages use it before writing to `innerHTML`: the five
    characters `& < > " '` become entities and every other character is kept.
    The pages differ only in the entity for the apostrophe (`&#39;` or `&#039;`). */
module Html {

  const AposShort: string := "&#39;"
  const AposLong: string := "&#039;"

  predicate IsApos(apos: string) {
    apos == AposShort || apos == AposLong
  }

  predicate IsSpecial(c: char) {
    c == '&' || c == '<' || c == '>' || c == '"' || c == '\''
  }

  function EscapeChar(c: char, apos: string): string {
    match c
    case '&' => "&amp;"
    case '<' => "&lt;"
    case '>' => "&gt;"
    case '"' => "&quot;"
    case '\'' => apos
    case _ => [c]
  }

  /** No character of `t` can open a tag or end an attribute value. */
  predicate NoMarkup(t: string) {
    forall i :: 0 <= i < |t| ==> t[i] != '<' && t[i] != '>' && t[i] != '"' && t[i] != '\''
  }

  predicate Plain(s: string) {
    forall i :: 0 <= i < |s| ==> !IsSpecial(s[i])
  }

  lemma NoMarkupAppend(a: string, b: string)
    requires NoMarkup(a) && NoMarkup(b)
    ensures NoMarkup(a + b)
  {
    forall i | 0 <= i < |a + b|
      ensures (a + b)[i] != '<' && (a + b)[i] != '>' && (a + b)[i] != '"' && (a + b)[i] != '\''
    {
      if i >= |a| { assert (a + b)[i] == b[i - |a|]; }
    }
  }

  lemma EscapeCharNoMarkup(c: char, apos: string)
    requires IsApos(apos)
    ensures NoMarkup(EscapeChar(c, apos))
    ensures !IsSpecial(c) ==> EscapeChar(c, apos) == [c]
  {
  }

  /** Escaping in one pass over the string. */
  function Escape(s: string, apos: string): (r: string)
    requires IsApos(apos)
    ensures NoMarkup(r)
    ensures Plain(s) ==> r == s
    ensures |r| >= |s|
  {
    if s == [] then []
    else
      var tail := Escape(s[1..], apos);
      EscapeCharNoMarkup(s[0], apos);
      NoMarkupAppend(EscapeChar(s[0], apos), tail);
      assert Plain(s) ==> Plain(s[1..]) && s == [s[0]] + s[1..];
      EscapeChar(s[0], apos) + tail
  }

  /** The `s.replace(/[&<>"']/g, c => map[c])` form, with `&#39;`. */
  function EscapeHtml(s: string): (r: string)
    ensures NoMarkup(r)
    ensures Plain(s) ==> r == s
  {
    Escape(s, AposShort)
  }

  /** What a browser makes of the escaped text: the five entities decoded. */
  function Unescape(s: string, apos: string): string
    requires IsApos(apos)
    decreases |s|
  {
    if s == [] then []
    else if "&amp;" <= s then "&" + Unescape(s[5..], apos)
    else if "&lt;" <= s then "<" + Unescape(s[4..], apos)
    else if "&gt;" <= s then ">" + Unescape(s[4..], apos)
    else if "&quot;" <= s then "\"" + Unescape(s[6..], apos)
    else if apos <= s then "'" + Unescape(s[|apos|..], apos)
    else [s[0]] + Unescape(s[1..], apos)
  }

  /** A character that is not `&` is copied by the decoder. */
  lemma UnescapePlain(c: char, rest: string, apos: string)
    requires IsApos(apos) && c != '&'
    ensures Unescape([c] + rest, apos) == [c] + Unescape(rest, apos)
  {
    var e := [c] + rest;
    assert e[0] == c && e[1..] == rest;
    assert !(apos <= e) by { assert apos[0] == '&'; }
  }

  /** An entity `ent` that no earlier entity of the decoder begins decodes to `c`. */
  lemma UnescapeEntity(ent: string, c: char, rest: string, apos: string)
    requires IsApos(apos)
    requires (ent, c) in {("&amp;", '&'), ("&lt;", '<'), ("&gt;", '>'), ("&quot;", '"'), (apos, '\'')}
    ensures Unescape(ent + rest, apos) == [c] + Unescape(rest, apos)
  {
    var e := ent + rest;
    assert e[..|ent|] == ent && e[|ent|..] == rest;
    assert e[1] == ent[1];
  }

  /** Decoding one escaped character in front of any text. */
  lemma UnescapeCons(c: char, rest: string, apos: string)
    requires IsApos(apos)
    ensures Unescape(EscapeChar(c, apos) + rest, apos) == [c] + Unescape(rest, apos)
  {
    if IsSpecial(c) {
      UnescapeEntity(EscapeChar(c, apos), c, rest, apos);
    } else {
      UnescapePlain(c, rest, apos);
    }
  }

  /** Escaping loses nothing: decoding the entities gives back the text. */
  lemma {:induction false} UnescapeEscape(s: string, apos: string)
    requires IsApos(apos)
    ensures Unescape(Escape(s, apos), apos) == s
  {
    if s != [] {
      UnescapeCons(s[0], Escape(s[1..], apos), apos);
      UnescapeEscape(s[1..], apos);
      assert s == [s[0]] + s[1..];
    }
  }
}
