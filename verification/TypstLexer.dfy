/** A reader of Typst markup, strict enough to reject anything an author could smuggle in.

    In markup (outside every parenthesis) only blanks, the two task markers, `[`, `]` and `#` may
    stand outside a string literal, and every `#` starts a literal (`#"..."`, a text run) or a
    function name followed at once by `(` or `[`.  In an argument list only lower-case letters,
    digits and ` ,:%` may, besides literals and `[...]` blocks.  Delimiters must match. */
module TypstLexer {
  import opened Wrappers
  import opened Strings
  import opened TypstMarkup

  datatype Token = Run(text: string) | Lit(text: string) | Fn(name: string) | Sym(c: char)

  /** Where the reader stands; `open` holds the delimiters still to be closed, innermost last. */
  datatype Lex =
    | Outside(open: seq<char>, toks: seq<Token>)
    | Naming(name: string, open: seq<char>, toks: seq<Token>)
    | Inside(run: bool, text: string, open: seq<char>, toks: seq<Token>)
    | Escaped(run: bool, text: string, open: seq<char>, toks: seq<Token>)
    | Bad

  predicate InCode(open: seq<char>) {
    open != [] && open[|open| - 1] == '('
  }

  predicate IsNameChar(c: char) { 'a' <= c <= 'z' }

  predicate IsArgChar(c: char) {
    'a' <= c <= 'z' || '0' <= c <= '9' || c == ' ' || c == ',' || c == ':' || c == '%'
  }

  predicate IsBlank(c: char) { c == ' ' || c == '\n' }

  predicate IsTaskMark(c: char) { c == '\U{2611}' || c == '\U{2610}' }

  function Unescape(c: char): char {
    if c == 'n' then '\n' else if c == 't' then '\t' else c
  }

  function Step(st: Lex, c: char): Lex {
    match st
    case Bad => Bad
    case Inside(run, text, open, toks) =>
      if c == '"' then Outside(open, toks + [if run then Run(text) else Lit(text)])
      else if c == '\\' then Escaped(run, text, open, toks)
      else Inside(run, text + [c], open, toks)
    case Escaped(run, text, open, toks) => Inside(run, text + [Unescape(c)], open, toks)
    case Naming(name, open, toks) =>
      if c == '"' && name == "" then Inside(true, "", open, toks)
      else if IsNameChar(c) then Naming(name + [c], open, toks)
      else if (c == '(' || c == '[') && name != "" then
        Outside(open + [c], toks + [Fn(name), Sym(c)])
      else Bad
    case Outside(open, toks) =>
      if c == '[' then Outside(open + ['['], toks + [Sym('[')])
      else if c == ']' then
        if open != [] && open[|open| - 1] == '[' then
          Outside(open[..|open| - 1], toks + [Sym(']')]) else Bad
      else if InCode(open) then
        if c == ')' then Outside(open[..|open| - 1], toks + [Sym(')')])
        else if c == '"' then Inside(false, "", open, toks)
        else if IsArgChar(c) then Outside(open, toks + [Sym(c)])
        else Bad
      else if c == '#' then Naming("", open, toks)
      else if IsBlank(c) then st
      else if IsTaskMark(c) then Outside(open, toks + [Sym(c)])
      else Bad
  }

  function Scan(st: Lex, s: string): Lex
    decreases s
  {
    if s == "" then st else Scan(Step(st, s[0]), s[1..])
  }

  /** The tokens of `s` read with the delimiters `ctx` around it, if reading it starts and ends
      outside every literal, at the same delimiters. */
  function Lexed(ctx: seq<char>, s: string): Option<seq<Token>> {
    var st := Scan(Outside(ctx, []), s);
    if st.Outside? && st.open == ctx then Some(st.toks) else None
  }

  lemma {:induction false} ScanConcat(st: Lex, a: string, b: string)
    ensures Scan(st, a + b) == Scan(Scan(st, a), b)
    decreases a
  {
    if a == "" {
      assert a + b == b;
    } else {
      assert (a + b)[1..] == a[1..] + b;
      ScanConcat(Step(st, a[0]), a[1..], b);
    }
  }

  lemma {:induction false} ScanBad(s: string)
    ensures Scan(Bad, s) == Bad
  {
    if s != "" {
      ScanBad(s[1..]);
    }
  }

  /** The same position with more delimiters open around it and more tokens read before it. */
  function Lift(st: Lex, k: seq<char>, ts: seq<Token>): Lex {
    match st
    case Bad => Bad
    case Outside(open, toks) => Outside(k + open, ts + toks)
    case Naming(name, open, toks) => Naming(name, k + open, ts + toks)
    case Inside(run, text, open, toks) => Inside(run, text, k + open, ts + toks)
    case Escaped(run, text, open, toks) => Escaped(run, text, k + open, ts + toks)
  }

  lemma StepLift(st: Lex, c: char, k: seq<char>, ts: seq<Token>)
    requires !InCode(k) && Step(st, c) != Bad
    ensures Step(Lift(st, k, ts), c) == Lift(Step(st, c), k, ts)
  {
    match st {
      case Bad =>
      case Escaped(_, _, _, _) =>
      case Inside(run, text, open, toks) =>
        assert ts + (toks + [if run then Run(text) else Lit(text)])
            == (ts + toks) + [if run then Run(text) else Lit(text)];
      case Naming(name, open, toks) =>
        assert k + (open + [c]) == (k + open) + [c];
        assert ts + (toks + [Fn(name), Sym(c)]) == (ts + toks) + [Fn(name), Sym(c)];
      case Outside(open, toks) =>
        assert ts + (toks + [Sym(c)]) == (ts + toks) + [Sym(c)];
        assert k + (open + [c]) == (k + open) + [c];
        if open == [] {
          assert k + open == k;
        } else {
          assert (k + open)[|k + open| - 1] == open[|open| - 1];
          assert (k + open)[..|k + open| - 1] == k + open[..|open| - 1];
        }
    }
  }

  lemma {:induction false} ScanLift(st: Lex, s: string, k: seq<char>, ts: seq<Token>)
    requires !InCode(k) && Scan(st, s) != Bad
    ensures Scan(Lift(st, k, ts), s) == Lift(Scan(st, s), k, ts)
    decreases s
  {
    if s != "" {
      if Step(st, s[0]) == Bad {
        ScanBad(s[1..]);
      } else {
        StepLift(st, s[0], k, ts);
        ScanLift(Step(st, s[0]), s[1..], k, ts);
      }
    }
  }

  /** Text that lexes on its own lexes the same anywhere in markup. */
  lemma LexedAnywhere(ctx: seq<char>, s: string, k: seq<char>, ts: seq<Token>)
    requires Lexed(ctx, s).Some? && !InCode(k)
    ensures Scan(Outside(k + ctx, ts), s) == Outside(k + ctx, ts + Lexed(ctx, s).value)
  {
    ScanLift(Outside(ctx, []), s, k, ts);
    assert ts + [] == ts;
  }

  lemma LexedConcat(ctx: seq<char>, a: string, b: string)
    requires Lexed(ctx, a).Some? && Lexed(ctx, b).Some?
    ensures Lexed(ctx, a + b) == Some(Lexed(ctx, a).value + Lexed(ctx, b).value)
  {
    ScanConcat(Outside(ctx, []), a, b);
    ScanLift(Outside(ctx, []), b, [], Lexed(ctx, a).value);
    assert [] + ctx == ctx && Lexed(ctx, a).value + [] == Lexed(ctx, a).value;
  }

  lemma LexedEmpty(ctx: seq<char>)
    ensures Lexed(ctx, "") == Some([])
  {
  }

  // ---- literals ----

  lemma {:induction false} ScanEscaped(f: Flavour, s: string, run: bool, text: string,
                                       open: seq<char>, toks: seq<Token>)
    ensures Scan(Inside(run, text, open, toks), EscapeAll(f, s))
         == Inside(run, text + Normal(f, s), open, toks)
  {
    if s == "" {
      assert text + Normal(f, s) == text;
    } else {
      var e := EscapeChar(f, s[0]);
      var n := NormalChar(f, s[0]);
      ScanEscapedChar(f, s[0], run, text, open, toks);
      ScanConcat(Inside(run, text, open, toks), e, EscapeAll(f, s[1..]));
      ScanEscaped(f, s[1..], run, text + n, open, toks);
      assert text + (n + Normal(f, s[1..])) == (text + n) + Normal(f, s[1..]);
    }
  }

  lemma ScanEscapedChar(f: Flavour, c: char, run: bool, text: string,
                        open: seq<char>, toks: seq<Token>)
    ensures Scan(Inside(run, text, open, toks), EscapeChar(f, c))
         == Inside(run, text + NormalChar(f, c), open, toks)
  {
    var e := EscapeChar(f, c);
    var st := Inside(run, text, open, toks);
    if |e| == 2 {
      assert e == [e[0]] + [e[1]];
      ScanConcat(st, [e[0]], [e[1]]);
      ScanOne(st, e[0]);
      ScanOne(Step(st, e[0]), e[1]);
      assert e[0] == '\\' && [Unescape(e[1])] == NormalChar(f, c);
    } else if |e| == 0 {
      assert text + "" == text;
    } else {
      ScanOne(st, e[0]);
    }
  }

  lemma ScanOne(st: Lex, c: char)
    ensures Scan(st, [c]) == Step(st, c)
  {
  }

  /** Reading a quoted string followed by anything closes the literal exactly at its end, gives
      back the normalised string, and goes on with what follows; no earlier prefix closes it. */
  lemma QuotedRoundTrip(f: Flavour, s: string, rest: string, open: seq<char>, toks: seq<Token>)
    ensures Scan(Naming("", open, toks), Quoted(f, s) + rest)
         == Scan(Outside(open, toks + [Run(Normal(f, s))]), rest)
    ensures InCode(open)
      ==> (Scan(Outside(open, toks), Quoted(f, s) + rest)
           == Scan(Outside(open, toks + [Lit(Normal(f, s))]), rest))
    ensures forall i :: 0 < i < |Quoted(f, s)| ==>
              !Scan(Naming("", open, toks), Quoted(f, s)[..i]).Outside?
  {
    var body := EscapeAll(f, s);
    ReadBody(f, s, rest, true, open, toks);
    assert (Quoted(f, s) + rest)[1..] == body + "\"" + rest;
    if InCode(open) {
      ReadBody(f, s, rest, false, open, toks);
    }
    forall i | 0 < i < |Quoted(f, s)|
      ensures !Scan(Naming("", open, toks), Quoted(f, s)[..i]).Outside?
    {
      assert Quoted(f, s)[..i][1..] == body[..i - 1];
      ScanEscapedPrefix(f, s, i - 1, "", open, toks);
    }
  }

  lemma ReadBody(f: Flavour, s: string, rest: string, run: bool, open: seq<char>, toks: seq<Token>)
    ensures Scan(Inside(run, "", open, toks), EscapeAll(f, s) + "\"" + rest)
         == Scan(Outside(open, toks + [if run then Run(Normal(f, s)) else Lit(Normal(f, s))]), rest)
  {
    var body := EscapeAll(f, s);
    assert body + "\"" + rest == body + ("\"" + rest);
    ScanConcat(Inside(run, "", open, toks), body, "\"" + rest);
    ScanEscaped(f, s, run, "", open, toks);
    assert "" + Normal(f, s) == Normal(f, s);
    assert ("\"" + rest)[1..] == rest;
  }

  /** No prefix of an escaped body leaves the literal. */
  lemma {:induction false} ScanEscapedPrefix(f: Flavour, s: string, n: nat, text: string,
                                             open: seq<char>, toks: seq<Token>)
    requires n <= |EscapeAll(f, s)|
    ensures var st := Scan(Inside(true, text, open, toks), EscapeAll(f, s)[..n]);
            st.Inside? || st.Escaped?
  {
    if s != "" && n > 0 {
      var e := EscapeChar(f, s[0]);
      var st := Inside(true, text, open, toks);
      if n < |e| {
        assert EscapeAll(f, s)[..n] == e[..1] && e[..1][1..] == "";
      } else {
        ScanEscapedChar(f, s[0], true, text, open, toks);
        assert EscapeAll(f, s)[..n] == e + EscapeAll(f, s[1..])[..n - |e|];
        ScanConcat(st, e, EscapeAll(f, s[1..])[..n - |e|]);
        ScanEscapedPrefix(f, s[1..], n - |e|, text + NormalChar(f, s[0]), open, toks);
      }
    }
  }

  // ---- the shapes the renderer emits ----

  function Syms(w: string): seq<Token> {
    seq(|w|, i requires 0 <= i < |w| => Sym(w[i]))
  }

  function ContentToks(body: seq<Token>): seq<Token> {
    [Sym('[')] + body + [Sym(']')]
  }

  function CallToks(name: string, args: seq<Token>): seq<Token> {
    [Fn(name), Sym('(')] + args + [Sym(')')]
  }

  function WrapToks(name: string, body: seq<Token>): seq<Token> {
    [Fn(name)] + ContentToks(body)
  }

  predicate IsName(w: string) {
    w != "" && forall i :: 0 <= i < |w| ==> IsNameChar(w[i])
  }

  predicate IsArgText(w: string) {
    forall i :: 0 <= i < |w| ==> IsArgChar(w[i])
  }

  lemma {:induction false} ScanArgText(w: string, open: seq<char>, toks: seq<Token>)
    requires IsArgText(w) && InCode(open)
    ensures Scan(Outside(open, toks), w) == Outside(open, toks + Syms(w))
    decreases w
  {
    if w == "" {
      assert toks + Syms(w) == toks;
    } else {
      ScanArgText(w[1..], open, toks + [Sym(w[0])]);
      assert toks + [Sym(w[0])] + Syms(w[1..]) == toks + Syms(w);
    }
  }

  lemma {:induction false} ScanName(w: string, name: string, open: seq<char>, toks: seq<Token>)
    requires forall i :: 0 <= i < |w| ==> IsNameChar(w[i])
    ensures Scan(Naming(name, open, toks), w) == Naming(name + w, open, toks)
    decreases w
  {
    if w == "" {
      assert name + w == name;
    } else {
      ScanName(w[1..], name + [w[0]], open, toks);
      assert name + [w[0]] + w[1..] == name + w;
    }
  }

  lemma LexedArgText(w: string)
    requires IsArgText(w)
    ensures Lexed(['('], w) == Some(Syms(w))
  {
    ScanArgText(w, ['('], []);
    assert [] + Syms(w) == Syms(w);
  }

  lemma LexedArgLit(f: Flavour, s: string)
    ensures Lexed(['('], Quoted(f, s)) == Some([Lit(Normal(f, s))])
  {
    QuotedRoundTrip(f, s, "", ['('], []);
    assert Quoted(f, s) + "" == Quoted(f, s);
    assert [] + [Lit(Normal(f, s))] == [Lit(Normal(f, s))];
  }

  lemma LexedRun(s: string)
    ensures Lexed([], "#" + Quoted(Inline, s)) == Some([Run(Normal(Inline, s))])
  {
    QuotedRoundTrip(Inline, s, "", [], []);
    assert ("#" + Quoted(Inline, s))[1..] == Quoted(Inline, s) + "";
    assert [] + [Run(Normal(Inline, s))] == [Run(Normal(Inline, s))];
  }

  lemma LexedContent(ctx: seq<char>, body: string)
    requires Lexed([], body).Some?
    ensures Lexed(ctx, Content(body)) == Some(ContentToks(Lexed([], body).value))
  {
    var ts := Lexed([], body).value;
    assert Content(body) == "[" + (body + "]");
    ScanConcat(Outside(ctx, []), "[", body + "]");
    ScanOne(Outside(ctx, []), '[');
    assert [] + [Sym('[')] == [Sym('[')];
    var k := ctx + ['['];
    ScanConcat(Outside(k, [Sym('[')]), body, "]");
    LexedAnywhere([], body, k, [Sym('[')]);
    assert k + [] == k;
    ScanOne(Outside(k, [Sym('[')] + ts), ']');
    assert k[..|k| - 1] == ctx;
  }

  lemma ScanHead(name: string, c: char)
    requires IsName(name) && (c == '(' || c == '[')
    ensures Scan(Outside([], []), "#" + name + [c]) == Outside([c], [Fn(name), Sym(c)])
  {
    assert "#" + name + [c] == "#" + (name + [c]);
    ScanConcat(Outside([], []), "#", name + [c]);
    ScanOne(Outside([], []), '#');
    ScanConcat(Naming("", [], []), name, [c]);
    ScanName(name, "", [], []);
    assert "" + name == name;
    ScanOne(Naming(name, [], []), c);
    assert [] + [c] == [c] && [] + [Fn(name), Sym(c)] == [Fn(name), Sym(c)];
  }

  lemma LexedCall(name: string, args: string)
    requires IsName(name) && Lexed(['('], args).Some?
    ensures Lexed([], Call(name, args)) == Some(CallToks(name, Lexed(['('], args).value))
  {
    var head := [Fn(name), Sym('(')];
    assert Call(name, args) == ("#" + name + "(") + (args + ")");
    ScanConcat(Outside([], []), "#" + name + "(", args + ")");
    ScanHead(name, '(');
    ScanConcat(Outside(['('], head), args, ")");
    LexedAnywhere(['('], args, [], head);
    assert [] + ['('] == ['('];
    ScanOne(Outside(['('], head + Lexed(['('], args).value), ')');
    assert ['('][..0] == [];
  }

  lemma LexedWrap(name: string, body: string)
    requires IsName(name) && Lexed([], body).Some?
    ensures Lexed([], Wrap(name, body)) == Some(WrapToks(name, Lexed([], body).value))
  {
    var head := [Fn(name), Sym('[')];
    var ts := Lexed([], body).value;
    assert Wrap(name, body) == ("#" + name + "[") + (body + "]");
    ScanConcat(Outside([], []), "#" + name + "[", body + "]");
    ScanHead(name, '[');
    ScanConcat(Outside(['['], head), body, "]");
    LexedAnywhere([], body, ['['], head);
    assert ['['] + [] == ['['];
    ScanOne(Outside(['['], head + ts), ']');
    assert ['['][..0] == [];
    assert head + ts + [Sym(']')] == WrapToks(name, ts);
  }

  // ---- trimming ----

  lemma {:induction false} LexedTrimEnd(s: string)
    requires Lexed([], s).Some?
    ensures Lexed([], TrimEnd(s)) == Lexed([], s)
    decreases s
  {
    if s != "" && IsWhitespace(s[|s| - 1]) {
      var t, c := s[..|s| - 1], s[|s| - 1];
      assert s == t + [c];
      ScanConcat(Outside([], []), t, [c]);
      var st := Scan(Outside([], []), t);
      ScanOne(st, c);
      assert st == Scan(Outside([], []), s);
      LexedTrimEnd(t);
    }
  }

  lemma {:induction false} LexedTrimStart(s: string)
    requires Lexed([], s).Some?
    ensures Lexed([], TrimStart(s)) == Lexed([], s)
    decreases s
  {
    if s != "" && IsWhitespace(s[0]) {
      if !IsBlank(s[0]) {
        ScanBad(s[1..]);
      }
      LexedTrimStart(s[1..]);
    }
  }

  /** Trimming markup removes no token and breaks no literal. */
  lemma LexedTrim(s: string)
    requires Lexed([], s).Some?
    ensures Lexed([], Trim(s)) == Lexed([], s)
  {
    LexedTrimStart(s);
    LexedTrimEnd(TrimStart(s));
  }

  // ---- joining ----

  function JoinToks(parts: seq<seq<Token>>): seq<Token> {
    if parts == [] then []
    else if |parts| == 1 then parts[0]
    else parts[0] + Syms(", ") + JoinToks(parts[1..])
  }

  lemma {:induction false} LexedJoin(parts: seq<string>, toks: seq<seq<Token>>)
    requires |parts| == |toks|
    requires forall i :: 0 <= i < |parts| ==> Lexed(['('], parts[i]) == Some(toks[i])
    ensures Lexed(['('], Join(parts, ", ")) == Some(JoinToks(toks))
    decreases parts
  {
    if |parts| > 1 {
      LexedJoin(parts[1..], toks[1..]);
      LexedArgText(", ");
      LexedConcat(['('], parts[0], ", ");
      LexedConcat(['('], parts[0] + ", ", Join(parts[1..], ", "));
    }
  }
}
