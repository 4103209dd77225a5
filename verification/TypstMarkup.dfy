/** Typst string literals (the two escapers of the renderer) and the call shapes it emits. */
module TypstMarkup {

  /** `Inline` is `typst_string`; `Multiline` is `typst_string_multiline`. */
  datatype Flavour = Inline | Multiline

  function EscapeChar(f: Flavour, c: char): string {
    if c == '\\' then "\\\\"
    else if c == '"' then "\\\""
    else match f
      case Inline => if c == '\n' || c == '\r' || c == '\t' then " " else [c]
      case Multiline =>
        if c == '\n' then "\\n" else if c == '\t' then "\\t" else if c == '\r' then "" else [c]
  }

  function EscapeAll(f: Flavour, s: string): string {
    if s == "" then "" else EscapeChar(f, s[0]) + EscapeAll(f, s[1..])
  }

  function Quoted(f: Flavour, s: string): string {
    "\"" + EscapeAll(f, s) + "\""
  }

  /** What a reader of the literal gets back: control whitespace becomes a space (`Inline`), or
      only carriage returns are lost (`Multiline`). */
  function Normal(f: Flavour, s: string): string {
    if s == "" then "" else NormalChar(f, s[0]) + Normal(f, s[1..])
  }

  function NormalChar(f: Flavour, c: char): string {
    match f
    case Inline => if c == '\n' || c == '\r' || c == '\t' then " " else [c]
    case Multiline => if c == '\r' then "" else [c]
  }

  /** Inline, every character stands for itself but for the control ones, which become spaces. */
  lemma {:induction false} NormalInline(s: string)
    ensures var t := Normal(Inline, s);
            |t| == |s| && forall i :: 0 <= i < |s| ==> t[i] == if s[i] in "\n\r\t" then ' ' else s[i]
  {
    if s != "" {
      NormalInline(s[1..]);
      assert s == [s[0]] + s[1..];
    }
  }

  /** Line by line, only carriage returns are taken out: a text without any is unchanged ... */
  lemma {:induction false} NormalMultiline(s: string)
    requires '\r' !in s
    ensures Normal(Multiline, s) == s
  {
    if s != "" {
      NormalMultiline(s[1..]);
      assert s == [s[0]] + s[1..];
    }
  }

  /** ... and one between two texts leaves no trace. */
  lemma {:induction false} NormalDropsReturn(s: string, t: string)
    ensures Normal(Multiline, s + ['\r'] + t) == Normal(Multiline, s) + Normal(Multiline, t)
  {
    var whole := s + ['\r'] + t;
    if s == "" {
      assert whole[1..] == t;
    } else {
      NormalDropsReturn(s[1..], t);
      assert whole[1..] == s[1..] + ['\r'] + t && whole[0] == s[0];
    }
  }

  lemma EscapeAllSnoc(f: Flavour, s: string, c: char)
    ensures EscapeAll(f, s + [c]) == EscapeAll(f, s) + EscapeChar(f, c)
  {
    if s == "" {
      assert s + [c] == [c];
    } else {
      assert (s + [c])[1..] == s[1..] + [c];
      EscapeAllSnoc(f, s[1..], c);
    }
  }

  method TypstString(s: string) returns (out: string)
    ensures out == Quoted(Inline, s)
  {
    out := "\"";
    for i := 0 to |s|
      invariant out == "\"" + EscapeAll(Inline, s[..i])
    {
      assert s[..i + 1] == s[..i] + [s[i]];
      EscapeAllSnoc(Inline, s[..i], s[i]);
      match s[i] {
        case '\\' => out := out + "\\\\";
        case '"' => out := out + "\\\"";
        case '\n' => out := out + " ";
        case '\r' => out := out + " ";
        case '\t' => out := out + " ";
        case c => out := out + [c];
      }
    }
    assert s[..|s|] == s;
    out := out + "\"";
  }

  method TypstStringMultiline(s: string) returns (out: string)
    ensures out == Quoted(Multiline, s)
  {
    out := "\"";
    for i := 0 to |s|
      invariant out == "\"" + EscapeAll(Multiline, s[..i])
    {
      assert s[..i + 1] == s[..i] + [s[i]];
      EscapeAllSnoc(Multiline, s[..i], s[i]);
      match s[i] {
        case '\\' => out := out + "\\\\";
        case '"' => out := out + "\\\"";
        case '\n' => out := out + "\\n";
        case '\t' => out := out + "\\t";
        case '\r' =>
        case c => out := out + [c];
      }
    }
    assert s[..|s|] == s;
    out := out + "\"";
  }

  /** `[body]` */
  function Content(body: string): string {
    "[" + body + "]"
  }

  /** `#name(args)` */
  function Call(name: string, args: string): string {
    "#" + name + "(" + args + ")"
  }

  /** `#name[body]` */
  function Wrap(name: string, body: string): string {
    "#" + name + "[" + body + "]"
  }
}
