/** The HTML escaper: a chain of five whole-string replacements. */
module HtmlEscape {
  import opened Wrappers
  import opened Strings

  /** `s.replace(c, with)` */
  function Replace(s: string, c: char, with: string): string {
    if s == "" then "" else (if s[0] == c then with else [s[0]]) + Replace(s[1..], c, with)
  }

  function EscapeHtml(s: string): string {
    Replace(Replace(Replace(Replace(Replace(s, '&', "&amp;"), '<', "&lt;"), '>', "&gt;"),
                    '"', "&quot;"), '\'', "&#39;")
  }

  function Entity(c: char): string {
    match c
    case '&' => "&amp;"
    case '<' => "&lt;"
    case '>' => "&gt;"
    case '"' => "&quot;"
    case '\'' => "&#39;"
    case _ => [c]
  }

  /** The one-pass reading of the escaper. */
  function MapEntities(s: string): string {
    if s == "" then "" else Entity(s[0]) + MapEntities(s[1..])
  }

  /** The entity a text starts with, if it is one of the five. */
  function EntityAt(s: string): Option<char> {
    if StartsWith(s, "&amp;") then Some('&')
    else if StartsWith(s, "&lt;") then Some('<')
    else if StartsWith(s, "&gt;") then Some('>')
    else if StartsWith(s, "&quot;") then Some('"')
    else if StartsWith(s, "&#39;") then Some('\'')
    else None
  }

  predicate IsSignificant(c: char) {
    c == '&' || c == '<' || c == '>' || c == '"' || c == '\''
  }

  /** What an HTML reader makes of text content; `None` for a bare significant character. */
  function Decode(s: string): Option<string> {
    if s == "" then Some("")
    else if EntityAt(s).Some? then
      var c := EntityAt(s).value;
      After(c, Decode(s[|Entity(c)|..]))
    else if IsSignificant(s[0]) then None
    else After(s[0], Decode(s[1..]))
  }

  function After(c: char, tail: Option<string>): Option<string> {
    if tail.Some? then Some([c] + tail.value) else None
  }

  lemma {:induction false} ReplaceConcat(a: string, b: string, c: char, with: string)
    ensures Replace(a + b, c, with) == Replace(a, c, with) + Replace(b, c, with)
  {
    if a == "" {
      assert a + b == b;
    } else {
      assert (a + b)[1..] == a[1..] + b;
      ReplaceConcat(a[1..], b, c, with);
    }
  }

  lemma {:induction false} ReplaceAbsent(s: string, c: char, with: string)
    requires c !in s
    ensures Replace(s, c, with) == s
  {
    if s != "" {
      assert s == [s[0]] + s[1..];
      ReplaceAbsent(s[1..], c, with);
    }
  }

  lemma EscapeConcat(a: string, b: string)
    ensures EscapeHtml(a + b) == EscapeHtml(a) + EscapeHtml(b)
  {
    hide Replace;
    ReplaceConcat(a, b, '&', "&amp;");
    var a1, b1 := Replace(a, '&', "&amp;"), Replace(b, '&', "&amp;");
    ReplaceConcat(a1, b1, '<', "&lt;");
    var a2, b2 := Replace(a1, '<', "&lt;"), Replace(b1, '<', "&lt;");
    ReplaceConcat(a2, b2, '>', "&gt;");
    var a3, b3 := Replace(a2, '>', "&gt;"), Replace(b2, '>', "&gt;");
    ReplaceConcat(a3, b3, '"', "&quot;");
    ReplaceConcat(Replace(a3, '"', "&quot;"), Replace(b3, '"', "&quot;"), '\'', "&#39;");
  }

  lemma ReplaceOne(x: char, c: char, with: string)
    ensures Replace([x], c, with) == if x == c then with else [x]
  {
  }

  /** The order of the chain matters only for `&`: no later step rewrites an entity. */
  lemma EscapeOne(x: char)
    ensures EscapeHtml([x]) == Entity(x)
  {
    hide Replace;
    ReplaceOne(x, '&', "&amp;");
    ReplaceOne(x, '<', "&lt;");
    ReplaceOne(x, '>', "&gt;");
    ReplaceOne(x, '"', "&quot;");
    ReplaceOne(x, '\'', "&#39;");
    ReplaceAbsent("&amp;", '<', "&lt;");
    ReplaceAbsent("&amp;", '>', "&gt;");
    ReplaceAbsent("&amp;", '"', "&quot;");
    ReplaceAbsent("&amp;", '\'', "&#39;");
    ReplaceAbsent("&lt;", '>', "&gt;");
    ReplaceAbsent("&lt;", '"', "&quot;");
    ReplaceAbsent("&lt;", '\'', "&#39;");
    ReplaceAbsent("&gt;", '"', "&quot;");
    ReplaceAbsent("&gt;", '\'', "&#39;");
    ReplaceAbsent("&quot;", '\'', "&#39;");
  }

  lemma {:induction false} EscapeIsOnePass(s: string)
    ensures EscapeHtml(s) == MapEntities(s)
  {
    if s != "" {
      hide EscapeHtml;
      assert s == [s[0]] + s[1..];
      EscapeConcat([s[0]], s[1..]);
      EscapeOne(s[0]);
      EscapeIsOnePass(s[1..]);
    }
  }

  lemma EntityRead(c: char, rest: string)
    ensures EntityAt(Entity(c) + rest) == if IsSignificant(c) then Some(c) else None
  {
    var s := Entity(c) + rest;
    assert s[..|Entity(c)|] == Entity(c);
    if IsSignificant(c) {
      assert s[1] == Entity(c)[1];
    } else {
      assert s[0] == c;
    }
  }

  lemma DecodeEntity(c: char, rest: string)
    ensures Decode(Entity(c) + rest) == After(c, Decode(rest))
  {
    hide EntityAt;
    EntityRead(c, rest);
    assert (Entity(c) + rest)[|Entity(c)|..] == rest;
  }

  lemma EntitySafe(c: char)
    ensures forall i :: 0 <= i < |Entity(c)| ==> Entity(c)[i] !in "<>\"'"
  {
  }

  /** Reading escaped text as HTML gives the text back, and no tag or attribute can open in it. */
  lemma {:induction false} EscapeRoundTrip(s: string)
    ensures Decode(EscapeHtml(s)) == Some(s)
    ensures forall i :: 0 <= i < |EscapeHtml(s)| ==> EscapeHtml(s)[i] !in "<>\"'"
  {
    EscapeIsOnePass(s);
    if s != "" {
      hide EscapeHtml, Decode, Entity;
      EscapeRoundTrip(s[1..]);
      EscapeIsOnePass(s[1..]);
      DecodeEntity(s[0], MapEntities(s[1..]));
      EntitySafe(s[0]);
      assert s == [s[0]] + s[1..];
    }
  }
}
