/** Which author text survives the conversion. */
module ConverterTexts {
  import opened Wrappers
  import opened Strings
  import opened TypstMarkup
  import opened TypstLexer
  import opened Converter
  import opened ConverterRefinement
  import opened ConverterTokens

  // ---- the texts among some tokens ----

  /** The kinds of author text a reader of the output can tell apart. */
  datatype TextKind = Prose | CodeSpan | CodeText

  /** Where the reader stands: in the arguments of a `raw` call, with the symbols read there so far,
      or elsewhere. */
  datatype Reading = Elsewhere | InRaw(seen: string)

  function ReadOne(at: Reading, tok: Token): Reading {
    match tok
    case Fn(name) => if name == "raw" then InRaw("") else Elsewhere
    case Sym(c) => if at.InRaw? && c != ')' then InRaw(at.seen + [c]) else Elsewhere
    case Lit(_) => at
    case Run(_) => at
  }

  function ReadOn(at: Reading, toks: seq<Token>): Reading
    decreases toks
  {
    if toks == [] then at else ReadOn(ReadOne(at, toks[0]), toks[1..])
  }

  /** Prose stands in text runs; a code span is the one argument of a `raw` call, a code block the
      argument after `block: true` and, if it has one, its language. */
  predicate Shows(at: Reading, tok: Token, k: TextKind) {
    match k
    case Prose => tok.Run?
    case CodeSpan => tok.Lit? && at == InRaw("(")
    case CodeText => tok.Lit? && (at == InRaw("(block: true, ") || at == InRaw("(block: true, lang: , "))
  }

  function TextsFrom(at: Reading, toks: seq<Token>, k: TextKind): seq<string>
    decreases toks
  {
    if toks == [] then []
    else (if Shows(at, toks[0], k) then [toks[0].text] else []) + TextsFrom(ReadOne(at, toks[0]), toks[1..], k)
  }

  /** The texts of one kind among some tokens, decoded, in order. */
  function Texts(toks: seq<Token>, k: TextKind): seq<string> {
    TextsFrom(Elsewhere, toks, k)
  }

  function TextsAll(parts: seq<seq<Token>>, k: TextKind): seq<string> {
    if parts == [] then [] else Texts(parts[0], k) + TextsAll(parts[1..], k)
  }

  function TextsRows(rows: seq<TokRow>, k: TextKind): seq<string> {
    if rows == [] then [] else TextsAll(rows[0].cells, k) + TextsRows(rows[1..], k)
  }

  // ---- the texts of a document ----

  /** The three places of a frame where content can go. */
  datatype Place = InBuffer | InItems | InRows

  /** Where an element puts its content in its parent. */
  function Target(tag: Tag): Place {
    if tag.ItemTag? || tag.TableCellTag? then InItems
    else if tag.TableHeadTag? || tag.TableRowTag? then InRows
    else InBuffer
  }

  /** The only place of its own frame that an element renders. */
  function Source(tag: Tag): Place {
    if tag.ListTag? || tag.TableHeadTag? || tag.TableRowTag? then InItems
    else if tag.TableTag? then InRows
    else InBuffer
  }

  /** A resolved image replaces its alternative text. */
  predicate Hidden(tag: Tag, r: Resolver) {
    tag.ImageTag? && r(tag.url).Some?
  }

  function AtomTexts(a: Atom, k: TextKind): seq<string> {
    match (a, k)
    case (Text(text), Prose) => [Normal(Inline, text)]
    case (Code(code), CodeSpan) => [Normal(Inline, code)]
    case _ => []
  }

  /** The texts directly in a document, run together and untouched. */
  function Verbatim(d: Doc): string {
    match d
    case Empty => ""
    case Plain(a, rest) => (if a.Text? then a.text else "") + Verbatim(rest)
    case Elem(_, _, rest) => Verbatim(rest)
  }

  /** A code block is its text line by line, without carriage returns and the newlines at the end
      (which is what the contract of `TrimEndNewlines` says). */
  function CodeOf(inner: Doc, k: TextKind): seq<string> {
    if k.CodeText? then [Normal(Multiline, TrimEndNewlines(Verbatim(inner)))] else []
  }

  /** Every text of one kind, in order: Text events outside code blocks and resolved images, Code
      events there, or code blocks. */
  function AuthorTexts(d: Doc, k: TextKind, r: Resolver): seq<string> {
    match d
    case Empty => []
    case Plain(a, rest) => AtomTexts(a, k) + AuthorTexts(rest, k, r)
    case Elem(tag, inner, rest) =>
      (if IsCode(tag) then CodeOf(inner, k) else if Hidden(tag, r) then [] else AuthorTexts(inner, k, r))
      + AuthorTexts(rest, k, r)
  }

  /** The texts that reach one place of the enclosing frame. */
  function Reaching(d: Doc, at: Place, k: TextKind, r: Resolver): seq<string> {
    match d
    case Empty => []
    case Plain(a, rest) => (if at.InBuffer? then AtomTexts(a, k) else []) + Reaching(rest, at, k, r)
    case Elem(tag, inner, rest) =>
      (if Target(tag) != at then []
       else if IsCode(tag) then CodeOf(inner, k)
       else if Hidden(tag, r) then []
       else Reaching(inner, Source(tag), k, r))
      + Reaching(rest, at, k, r)
  }

  /** No text stands where its parent ignores it: directly in a list, a table or a row, or in an
      item, cell or row whose parent collects none. */
  predicate Placed(d: Doc, at: Place, k: TextKind, r: Resolver) {
    match d
    case Empty => true
    case Plain(a, rest) => (AtomTexts(a, k) != [] ==> at.InBuffer?) && Placed(rest, at, k, r)
    case Elem(tag, inner, rest) =>
      (if IsCode(tag) then k.CodeText? ==> at.InBuffer?
       else if Hidden(tag, r) then true
       else if Target(tag) == at then Placed(inner, Source(tag), k, r)
       else AuthorTexts(inner, k, r) == [])
      && Placed(rest, at, k, r)
  }

  predicate OnlyTexts(d: Doc) {
    match d
    case Empty => true
    case Plain(a, rest) => a.Text? && OnlyTexts(rest)
    case Elem(_, _, _) => false
  }

  /** Code blocks hold nothing but text, as the parser makes them. */
  predicate CodeIsText(d: Doc) {
    match d
    case Empty => true
    case Plain(_, rest) => CodeIsText(rest)
    case Elem(tag, inner, rest) => (if IsCode(tag) then OnlyTexts(inner) else CodeIsText(inner)) && CodeIsText(rest)
  }

  // ---- reading piece by piece ----

  /** After these tokens the reader is back outside every `raw` call. */
  predicate Settled(toks: seq<Token>) {
    ReadOn(Elsewhere, toks) == Elsewhere
  }

  predicate AllSettled(parts: seq<seq<Token>>) {
    forall i :: 0 <= i < |parts| ==> Settled(parts[i])
  }

  predicate RowsSettled(rows: seq<TokRow>) {
    forall i :: 0 <= i < |rows| ==> AllSettled(rows[i].cells)
  }

  predicate ShapeSettled(s: Shape) {
    Settled(s.toks) && AllSettled(s.items) && RowsSettled(s.rows)
  }

  lemma {:induction false} TextsFromConcat(at: Reading, a: seq<Token>, b: seq<Token>, k: TextKind)
    ensures TextsFrom(at, a + b, k) == TextsFrom(at, a, k) + TextsFrom(ReadOn(at, a), b, k)
    ensures ReadOn(at, a + b) == ReadOn(ReadOn(at, a), b)
    decreases a
  {
    hide ReadOne, Shows;
    if a == [] {
      assert a + b == b;
    } else {
      assert (a + b)[1..] == a[1..] + b;
      TextsFromConcat(ReadOne(at, a[0]), a[1..], b, k);
    }
  }

  lemma TextsConcat(a: seq<Token>, b: seq<Token>, k: TextKind)
    requires Settled(a)
    ensures Texts(a + b, k) == Texts(a, k) + Texts(b, k)
    ensures Settled(a + b) <==> Settled(b)
  {
    TextsFromConcat(Elsewhere, a, b, k);
  }

  predicate Quiet(tok: Token) {
    !tok.Run? && tok != Fn("raw")
  }

  lemma {:induction false} NoTexts(toks: seq<Token>, k: TextKind)
    requires forall i :: 0 <= i < |toks| ==> Quiet(toks[i])
    ensures Texts(toks, k) == [] && Settled(toks)
  {
    if toks != [] {
      NoTexts(toks[1..], k);
    }
  }

  lemma TextsAround(a: seq<Token>, b: seq<Token>, c: seq<Token>, k: TextKind)
    requires forall i :: 0 <= i < |a| ==> Quiet(a[i])
    requires forall i :: 0 <= i < |c| ==> Quiet(c[i])
    requires Settled(b)
    ensures Texts(a + b + c, k) == Texts(b, k) && Settled(a + b + c)
  {
    hide Texts, Settled;
    NoTexts(a, k);
    NoTexts(c, k);
    TextsConcat(a, b, k);
    TextsConcat(a + b, c, k);
  }

  lemma TextsContent(body: seq<Token>, k: TextKind)
    requires Settled(body)
    ensures Texts(ContentToks(body), k) == Texts(body, k) && Settled(ContentToks(body))
  {
    TextsAround([Sym('[')], body, [Sym(']')], k);
  }

  lemma TextsWrap(name: string, body: seq<Token>, k: TextKind)
    requires name != "raw" && Settled(body)
    ensures Texts(WrapToks(name, body), k) == Texts(body, k) && Settled(WrapToks(name, body))
  {
    hide Settled;
    TextsContent(body, k);
    NoTexts([Fn(name)], k);
    TextsConcat([Fn(name)], ContentToks(body), k);
  }

  lemma TextsCall(name: string, args: seq<Token>, k: TextKind)
    requires name != "raw" && Settled(args)
    ensures Texts(CallToks(name, args), k) == Texts(args, k) && Settled(CallToks(name, args))
  {
    TextsAround([Fn(name), Sym('(')], args, [Sym(')')], k);
  }

  lemma {:induction false} TextsJoin(parts: seq<seq<Token>>, k: TextKind)
    requires AllSettled(parts)
    ensures Texts(JoinToks(parts), k) == TextsAll(parts, k) && Settled(JoinToks(parts))
    decreases parts
  {
    hide Settled, Texts;
    NoTexts([], k);
    if |parts| == 1 {
      assert TextsAll(parts, k) == Texts(parts[0], k) + [];
    } else if |parts| > 1 {
      TextsJoin(parts[1..], k);
      NoTexts(Syms(", "), k);
      TextsConcat(parts[0], Syms(", "), k);
      TextsConcat(parts[0] + Syms(", "), JoinToks(parts[1..]), k);
    }
  }

  /** Wrapping each part of a list in markup of its own changes no text. */
  lemma {:induction false} TextsAllSame(a: seq<seq<Token>>, b: seq<seq<Token>>, k: TextKind)
    requires |a| == |b| && forall i :: 0 <= i < |a| ==> Texts(a[i], k) == Texts(b[i], k)
    ensures TextsAll(a, k) == TextsAll(b, k)
  {
    if a != [] {
      TextsAllSame(a[1..], b[1..], k);
    }
  }

  lemma {:induction false} TextsAllConcat(a: seq<seq<Token>>, b: seq<seq<Token>>, k: TextKind)
    ensures TextsAll(a + b, k) == TextsAll(a, k) + TextsAll(b, k)
  {
    if a == [] {
      assert a + b == b;
    } else {
      assert (a + b)[1..] == a[1..] + b;
      TextsAllConcat(a[1..], b, k);
    }
  }

  lemma {:induction false} TextsRowsSnoc(rows: seq<TokRow>, row: TokRow, k: TextKind)
    ensures TextsRows(rows + [row], k) == TextsRows(rows, k) + TextsAll(row.cells, k)
  {
    if rows == [] {
      assert rows + [row] == [row] && [row][1..] == [];
    } else {
      assert (rows + [row])[1..] == rows[1..] + [row];
      TextsRowsSnoc(rows[1..], row, k);
    }
  }

  lemma TextsItems(items: seq<seq<Token>>, k: TextKind)
    requires AllSettled(items)
    ensures Texts(JoinToks(ItemToks(items)), k) == TextsAll(items, k) && Settled(JoinToks(ItemToks(items)))
  {
    hide Settled, Texts, JoinToks, TextsAll, ContentToks;
    forall i | 0 <= i < |items|
      ensures Texts(ItemToks(items)[i], k) == Texts(items[i], k) && Settled(ItemToks(items)[i])
    {
      TextsContent(items[i], k);
    }
    TextsJoin(ItemToks(items), k);
    TextsAllSame(ItemToks(items), items, k);
  }

  lemma TextsRow(row: TokRow, k: TextKind)
    requires AllSettled(row.cells)
    ensures TextsAll(RowToks(row), k) == TextsAll(row.cells, k) && AllSettled(RowToks(row))
  {
    hide Settled, Texts, TextsAll, ContentToks, WrapToks;
    forall i | 0 <= i < |row.cells|
      ensures Texts(RowToks(row)[i], k) == Texts(row.cells[i], k) && Settled(RowToks(row)[i])
    {
      TextsWrap("strong", row.cells[i], k);
      TextsContent(row.cells[i], k);
      TextsContent(WrapToks("strong", row.cells[i]), k);
    }
    TextsAllSame(RowToks(row), row.cells, k);
  }

  lemma {:induction false} TextsTable(rows: seq<TokRow>, k: TextKind)
    requires RowsSettled(rows)
    ensures TextsAll(TableToks(rows), k) == TextsRows(rows, k) && AllSettled(TableToks(rows))
    decreases rows
  {
    hide Settled, RowToks;
    if rows != [] {
      var n := |rows| - 1;
      TextsTable(rows[..n], k);
      assert rows == rows[..n] + [rows[n]];
      TextsRowsSnoc(rows[..n], rows[n], k);
      TextsRow(rows[n], k);
      TextsAllConcat(TableToks(rows[..n]), RowToks(rows[n]), k);
    }
  }

  lemma TextsBlock(name: string, args: seq<Token>, body: seq<Token>, k: TextKind)
    requires name != "raw" && Settled(body) && forall i :: 0 <= i < |args| ==> Quiet(args[i])
    ensures var toks := CallToks(name, args) + ContentToks(body); Texts(toks, k) == Texts(body, k) && Settled(toks)
  {
    hide Settled, Texts;
    NoTexts(args, k);
    TextsCall(name, args, k);
    TextsContent(body, k);
    TextsConcat(CallToks(name, args), ContentToks(body), k);
  }

  lemma TextsArgs(name: string, a: seq<Token>, b: seq<Token>, k: TextKind)
    requires name != "raw" && Settled(b) && forall i :: 0 <= i < |a| ==> Quiet(a[i])
    ensures Texts(CallToks(name, a + b), k) == Texts(b, k) && Settled(CallToks(name, a + b))
  {
    hide Settled, Texts;
    NoTexts(a, k);
    TextsConcat(a, b, k);
    TextsCall(name, a + b, k);
  }

  // ---- code ----

  lemma {:induction false} ReadSyms(seen: string, w: string, k: TextKind)
    requires ')' !in w
    ensures ReadOn(InRaw(seen), Syms(w)) == InRaw(seen + w) && TextsFrom(InRaw(seen), Syms(w), k) == []
    decreases w
  {
    if w == "" {
      assert seen + w == seen;
    } else {
      assert Syms(w)[0] == Sym(w[0]) && Syms(w)[1..] == Syms(w[1..]);
      ReadSyms(seen + [w[0]], w[1..], k);
      assert seen + [w[0]] + w[1..] == seen + w;
    }
  }

  /** The arguments of a `raw` call up to its last literal. */
  lemma RawCall(args: seq<Token>, text: string, head: string, k: TextKind)
    requires ReadOn(InRaw("("), args) == InRaw(head) && TextsFrom(InRaw("("), args, k) == []
    ensures var toks := CallToks("raw", args + [Lit(text)]);
            Texts(toks, k) == (if Shows(InRaw(head), Lit(text), k) then [text] else []) && Settled(toks)
  {
    hide TextsFrom, ReadOn;
    var front, end := [Fn("raw"), Sym('(')], [Lit(text), Sym(')')];
    RawEnds(text, head, k);
    TextsFromConcat(Elsewhere, front, args, k);
    TextsFromConcat(Elsewhere, front + args, end, k);
    assert CallToks("raw", args + [Lit(text)]) == front + args + end;
  }

  lemma ReadTwo(at: Reading, a: Token, b: Token, k: TextKind)
    ensures ReadOn(at, [a, b]) == ReadOne(ReadOne(at, a), b)
    ensures TextsFrom(at, [a, b], k)
         == (if Shows(at, a, k) then [a.text] else []) + (if Shows(ReadOne(at, a), b, k) then [b.text] else [])
  {
    hide Shows, ReadOne;
    assert [a, b][1..] == [b];
    ReadSingle(ReadOne(at, a), b, k);
  }

  lemma ReadSingle(at: Reading, a: Token, k: TextKind)
    ensures ReadOn(at, [a]) == ReadOne(at, a)
    ensures TextsFrom(at, [a], k) == if Shows(at, a, k) then [a.text] else []
  {
  }

  lemma RawEnds(text: string, head: string, k: TextKind)
    ensures ReadOn(Elsewhere, [Fn("raw"), Sym('(')]) == InRaw("(")
    ensures TextsFrom(Elsewhere, [Fn("raw"), Sym('(')], k) == []
    ensures ReadOn(InRaw(head), [Lit(text), Sym(')')]) == Elsewhere
    ensures TextsFrom(InRaw(head), [Lit(text), Sym(')')], k)
         == if Shows(InRaw(head), Lit(text), k) then [text] else []
  {
    ReadTwo(Elsewhere, Fn("raw"), Sym('('), k);
    ReadTwo(InRaw(head), Lit(text), Sym(')'), k);
    assert "" + ['('] == "(";
  }

  lemma CodeTexts(lang: Option<string>, code: string, s: Shape, k: TextKind, r: Resolver)
    ensures var toks := ElementToks(CodeBlock(lang), code, Widest(s.rows), s, r);
            Texts(toks, k) == (if k.CodeText? then [Normal(Multiline, TrimEndNewlines(code))] else [])
            && Settled(toks)
  {
    hide TextsFrom, ReadOn, Texts, Settled, CallToks, Syms, Normal, TrimEndNewlines;
    var text := Normal(Multiline, TrimEndNewlines(code));
    ReadSyms("(", "block: true, ", k);
    assert "(" + "block: true, " == "(block: true, ";
    if lang.None? {
      RawCall(Syms("block: true, "), text, "(block: true, ", k);
      assert Syms("block: true, ") + [] == Syms("block: true, ");
    } else {
      var name := [Lit(Normal(Inline, lang.value))];
      var args := Syms("block: true, ") + (Syms("lang: ") + name + Syms(", "));
      ReadSyms("(block: true, ", "lang: ", k);
      assert "(block: true, " + "lang: " == "(block: true, lang: ";
      ReadName(name[0], k);
      ReadSyms("(block: true, lang: ", ", ", k);
      assert "(block: true, lang: " + ", " == "(block: true, lang: , ";
      TextsFromConcat(InRaw("(block: true, "), Syms("lang: "), name, k);
      TextsFromConcat(InRaw("(block: true, "), Syms("lang: ") + name, Syms(", "), k);
      TextsFromConcat(InRaw("("), Syms("block: true, "), Syms("lang: ") + name + Syms(", "), k);
      RawCall(args, text, "(block: true, lang: , ", k);
    }
  }

  lemma ReadName(name: Token, k: TextKind)
    requires name.Lit?
    ensures ReadOn(InRaw("(block: true, lang: "), [name]) == InRaw("(block: true, lang: ")
    ensures TextsFrom(InRaw("(block: true, lang: "), [name], k) == []
  {
    ReadSingle(InRaw("(block: true, lang: "), name, k);
    var seen := "(block: true, lang: ";
    assert |seen| == 20 && |"(block: true, "| == 14 && |"(block: true, lang: , "| == 22 && |"("| == 1;
  }

  lemma AtomReadsTexts(a: Atom, k: TextKind)
    ensures Texts(AtomToks(a), k) == AtomTexts(a, k) && Settled(AtomToks(a))
  {
    if a.Text? {
      ReadSingle(Elsewhere, AtomToks(a)[0], k);
    } else if a.Code? {
      var text := Normal(Inline, a.code);
      RawCall([], text, "(", k);
      assert [] + [Lit(text)] == [Lit(text)];
      assert |"(block: true, "| == 14 && |"(block: true, lang: , "| == 22 && |"("| == 1;
    } else {
      NoTexts(AtomToks(a), k);
    }
  }

  // ---- elements ----

  function PlaceTexts(s: Shape, at: Place, k: TextKind): seq<string> {
    match at
    case InBuffer => Texts(s.toks, k)
    case InItems => TextsAll(s.items, k)
    case InRows => TextsRows(s.rows, k)
  }

  lemma ListTexts(start: Option<nat>, code: string, s: Shape, k: TextKind, r: Resolver)
    requires ShapeSettled(s)
    ensures var toks := ElementToks(List(start), code, Widest(s.rows), s, r);
            Texts(toks, k) == TextsAll(s.items, k) && Settled(toks)
  {
    hide JoinToks, ItemToks, TextsAll, CallToks, Texts, Settled;
    var args := JoinToks(ItemToks(s.items));
    TextsItems(s.items, k);
    if start.None? {
      TextsCall("list", args, k);
    } else if start.value == 1 {
      TextsArgs("enum", [], args, k);
    } else {
      TextsArgs("enum", Syms("start: " + Decimal(start.value) + ", "), args, k);
    }
  }

  lemma TableTexts(code: string, s: Shape, k: TextKind, r: Resolver)
    requires ShapeSettled(s)
    ensures var toks := ElementToks(Table, code, Widest(s.rows), s, r);
            Texts(toks, k) == TextsRows(s.rows, k) && Settled(toks)
  {
    hide JoinToks, TableToks, TextsAll, TextsRows, CallToks, Texts, Settled;
    TextsTable(s.rows, k);
    TextsJoin(TableToks(s.rows), k);
    TextsArgs("table", Syms("columns: " + Decimal(Widest(s.rows)) + ", "), JoinToks(TableToks(s.rows)), k);
  }

  /** An element's markup holds exactly the texts of the one place it renders. */
  lemma ElementTexts(tag: Tag, code: string, s: Shape, k: TextKind, r: Resolver)
    requires Target(tag).InBuffer? && ShapeSettled(s)
    ensures var toks := ElementToks(OpenKind(tag), code, Widest(s.rows), s, r);
            Settled(toks)
            && Texts(toks, k) == if IsCode(tag) then
                                   (if k.CodeText? then [Normal(Multiline, TrimEndNewlines(code))] else [])
                                 else if Hidden(tag, r) then []
                                 else PlaceTexts(s, Source(tag), k)
  {
    hide JoinToks, ItemToks, TableToks, Texts, TextsAll, TextsRows, Settled, Decimal, Normal, FirstWord;
    hide CallToks, ContentToks, WrapToks;
    match OpenKind(tag) {
      case Document =>
      case Paragraph =>
      case Heading(level) => TextsBlock("heading", Syms("level: " + Decimal(level)), s.toks, k);
      case BlockQuote => TextsBlock("quote", Syms("block: true"), s.toks, k);
      case CodeBlock(lang) => CodeTexts(lang, code, s, k, r);
      case List(start) => ListTexts(start, code, s, k, r);
      case Table => TableTexts(code, s, k, r);
      case Emphasis => TextsWrap("emph", s.toks, k);
      case Strong => TextsWrap("strong", s.toks, k);
      case Strikethrough => TextsWrap("strike", s.toks, k);
      case Link(url) => TextsBlock("link", [Lit(Normal(Inline, url))], s.toks, k);
      case Image(url) =>
        if r(url).Some? {
          NoTexts([Lit(Normal(Inline, r(url).value))], k);
          TextsCall("image", [Lit(Normal(Inline, r(url).value))], k);
        }
    }
  }

  /** The element's whole contribution, at any place of its parent. */
  lemma ShareTexts(tag: Tag, code: string, s: Shape, after: Shape, at: Place, k: TextKind, r: Resolver)
    requires ShapeSettled(s) && ShapeSettled(after)
    ensures var all := Prepend(ElementShare(OpenKind(tag), code, s, r), after);
            ShapeSettled(all)
            && PlaceTexts(all, at, k)
               == (if Target(tag) != at then []
                   else if IsCode(tag) then
                     (if k.CodeText? then [Normal(Multiline, TrimEndNewlines(code))] else [])
                   else if Hidden(tag, r) then []
                   else PlaceTexts(s, Source(tag), k))
                  + PlaceTexts(after, at, k)
  {
    hide ElementToks, Settled, Texts, Normal, TrimEndNewlines;
    var g := ElementShare(OpenKind(tag), code, s, r);
    if Target(tag).InBuffer? {
      ElementTexts(tag, code, s, k, r);
      TextsConcat(g.toks, after.toks, k);
    } else if at.InItems? && g.OneItem? {
      assert ([g.item] + after.items)[1..] == after.items;
    } else if at.InRows? && g.OneRow? {
      assert ([g.row] + after.rows)[1..] == after.rows;
    }
  }

  lemma {:induction false} VerbatimInCode(d: Doc, r: Resolver)
    requires OnlyTexts(d)
    ensures Emit(d, true, r).buf == Verbatim(d)
  {
    if d.Plain? {
      VerbatimInCode(d.rest, r);
    }
  }

  lemma {:induction false} MeaningTexts(d: Doc, at: Place, k: TextKind, r: Resolver)
    requires k.CodeText? ==> CodeIsText(d)
    ensures ShapeSettled(Meaning(d, r)) && PlaceTexts(Meaning(d, r), at, k) == Reaching(d, at, k, r)
    decreases d
  {
    match d {
      case Empty =>
      case Plain(a, rest) =>
        hide AtomToks, Texts, Settled, AtomTexts;
        MeaningTexts(rest, at, k, r);
        AtomReadsTexts(a, k);
        TextsConcat(AtomToks(a), Meaning(rest, r).toks, k);
      case Elem(tag, inner, rest) =>
        ShareOfTag(tag, Emit(inner, IsCode(tag), r).buf, Meaning(inner, r), r);
        hide ElementShare, TagShare, Prepend, PlaceTexts, ShapeSettled, TrimEndNewlines, Normal, Emit, OpenKind;
        MeaningTexts(rest, at, k, r);
        if k.CodeText? && IsCode(tag) {
          VerbatimInCode(inner, r);
          MeaningTexts(inner, Source(tag), Prose, r);
        } else {
          MeaningTexts(inner, Source(tag), k, r);
        }
        ShareTexts(tag, Emit(inner, IsCode(tag), r).buf, Meaning(inner, r), Meaning(rest, r), at, k, r);
    }
  }

  /** Texts are only ever dropped, never added; and none is dropped exactly when all are placed. */
  lemma {:induction false} ReachingIffPlaced(d: Doc, at: Place, k: TextKind, r: Resolver)
    ensures |Reaching(d, at, k, r)| <= |AuthorTexts(d, k, r)|
    ensures Placed(d, at, k, r) <==> |Reaching(d, at, k, r)| == |AuthorTexts(d, k, r)|
    ensures Placed(d, at, k, r) ==> Reaching(d, at, k, r) == AuthorTexts(d, k, r)
    decreases d
  {
    match d {
      case Empty =>
      case Plain(a, rest) => ReachingIffPlaced(rest, at, k, r);
      case Elem(tag, inner, rest) =>
        hide CodeOf;
        assert |CodeOf(inner, k)| == if k.CodeText? then 1 else 0 by { BlockCount(inner, k); }
        ReachingIffPlaced(rest, at, k, r);
        ReachingIffPlaced(inner, Source(tag), k, r);
    }
  }

  lemma BlockCount(inner: Doc, k: TextKind)
    ensures |CodeOf(inner, k)| == if k.CodeText? then 1 else 0
  {
  }

  /** The text runs, code spans and code blocks a Typst reader finds in the output are the author's,
      in order and unchanged but for control whitespace, if and only if none is misplaced. */
  lemma {:induction false} TextPreserved(d: Doc, k: TextKind, r: Resolver)
    requires k.CodeText? ==> CodeIsText(d)
    ensures Lexed([], Convert(Flatten(d), r)).Some?
    ensures Texts(Lexed([], Convert(Flatten(d), r)).value, k) == Reaching(d, InBuffer, k, r)
    ensures Texts(Lexed([], Convert(Flatten(d), r)).value, k) == AuthorTexts(d, k, r)
            <==> Placed(d, InBuffer, k, r)
  {
    ConvertReads(d, r);
    MeaningTexts(d, InBuffer, k, r);
    ReachingIffPlaced(d, InBuffer, k, r);
  }

  // ---- every text, alternative texts included ----

  /** Every text of one kind, in order, those in images included whether they resolve or not. */
  function AllTexts(d: Doc, k: TextKind): seq<string> {
    match d
    case Empty => []
    case Plain(a, rest) => AtomTexts(a, k) + AllTexts(rest, k)
    case Elem(tag, inner, rest) =>
      (if IsCode(tag) then CodeOf(inner, k) else AllTexts(inner, k)) + AllTexts(rest, k)
  }

  /** No image that resolves has a text of this kind in its alternative. */
  predicate NoAltHidden(d: Doc, k: TextKind, r: Resolver) {
    match d
    case Empty => true
    case Plain(_, rest) => NoAltHidden(rest, k, r)
    case Elem(tag, inner, rest) =>
      (if IsCode(tag) then true else if Hidden(tag, r) then AllTexts(inner, k) == [] else NoAltHidden(inner, k, r))
      && NoAltHidden(rest, k, r)
  }

  /** Only the texts in images that resolve are left out of the others. */
  lemma {:induction false} AuthorTextsAreAll(d: Doc, k: TextKind, r: Resolver)
    ensures |AuthorTexts(d, k, r)| <= |AllTexts(d, k)|
    ensures NoAltHidden(d, k, r) <==> |AuthorTexts(d, k, r)| == |AllTexts(d, k)|
    ensures NoAltHidden(d, k, r) ==> AuthorTexts(d, k, r) == AllTexts(d, k)
  {
    match d {
      case Empty =>
      case Plain(_, rest) => AuthorTextsAreAll(rest, k, r);
      case Elem(_, inner, rest) =>
        AuthorTextsAreAll(rest, k, r);
        AuthorTextsAreAll(inner, k, r);
    }
  }

  /** Every literal text run is emitted, and every code span and code block, if and only if none is
      misplaced and no image that resolves has one in its alternative. */
  lemma {:induction false} AllTextEmittedIff(d: Doc, k: TextKind, r: Resolver)
    requires k.CodeText? ==> CodeIsText(d)
    ensures var read := Lexed([], Convert(Flatten(d), r));
            read.Some?
            && (Texts(read.value, k) == AllTexts(d, k) <==> Placed(d, InBuffer, k, r) && NoAltHidden(d, k, r))
  {
    hide Lexed, Convert, Flatten, Texts;
    TextPreserved(d, k, r);
    ReachingIffPlaced(d, InBuffer, k, r);
    AuthorTextsAreAll(d, k, r);
  }

  // ---- the schema of parsed markdown ----

  datatype Child = LeafChild(atom: Atom) | TagChild(tag: Tag)

  /** One parent, or none at the top, and something directly in it. */
  datatype Edge = Edge(parent: Option<Tag>, child: Child)

  function Edges(d: Doc, parent: Option<Tag>): seq<Edge> {
    match d
    case Empty => []
    case Plain(a, rest) => [Edge(parent, LeafChild(a))] + Edges(rest, parent)
    case Elem(tag, inner, rest) => [Edge(parent, TagChild(tag))] + Edges(inner, Some(tag)) + Edges(rest, parent)
  }

  /** Lists hold only items, tables only rows, rows only cells, and none of these stands elsewhere. */
  predicate Fits(e: Edge) {
    match e.parent
    case Some(ListTag(_)) => e.child.TagChild? && e.child.tag.ItemTag?
    case Some(TableTag) => e.child.TagChild? && (e.child.tag.TableHeadTag? || e.child.tag.TableRowTag?)
    case Some(TableHeadTag) => e.child.TagChild? && e.child.tag.TableCellTag?
    case Some(TableRowTag) => e.child.TagChild? && e.child.tag.TableCellTag?
    case _ =>
      e.child.TagChild? ==> !(e.child.tag.ItemTag? || e.child.tag.TableHeadTag? || e.child.tag.TableRowTag?
                              || e.child.tag.TableCellTag?)
  }

  lemma {:induction false} SchemaPlaces(d: Doc, parent: Option<Tag>, k: TextKind, r: Resolver)
    requires forall e :: e in Edges(d, parent) ==> Fits(e)
    ensures Placed(d, if parent.Some? then Source(parent.value) else InBuffer, k, r)
    decreases d
  {
    match d {
      case Empty =>
      case Plain(a, rest) =>
        assert Edges(d, parent)[0] in Edges(d, parent);
        SchemaPlaces(rest, parent, k, r);
      case Elem(tag, inner, rest) =>
        assert Edges(d, parent)[0] in Edges(d, parent);
        SchemaPlaces(rest, parent, k, r);
        SchemaPlaces(inner, Some(tag), k, r);
    }
  }

  /** So nothing is lost of a document that follows the schema. */
  lemma {:induction false} SchemaPreservesText(d: Doc, k: TextKind, r: Resolver)
    requires forall e :: e in Edges(d, None) ==> Fits(e)
    requires k.CodeText? ==> CodeIsText(d)
    ensures var read := Lexed([], Convert(Flatten(d), r));
            read.Some? && Texts(read.value, k) == AuthorTexts(d, k, r)
  {
    SchemaPlaces(d, None, k, r);
    TextPreserved(d, k, r);
  }

  /** There every text is emitted if and only if no image that resolves has one in its alternative. */
  lemma {:induction false} SchemaAllTextEmittedIff(d: Doc, k: TextKind, r: Resolver)
    requires forall e :: e in Edges(d, None) ==> Fits(e)
    requires k.CodeText? ==> CodeIsText(d)
    ensures var read := Lexed([], Convert(Flatten(d), r));
            read.Some? && (Texts(read.value, k) == AllTexts(d, k) <==> NoAltHidden(d, k, r))
  {
    SchemaPlaces(d, None, k, r);
    AllTextEmittedIff(d, k, r);
  }

  // ---- particular inputs ----

  /** A code block reads back as one `raw` call: its language is the first word after the fence, if
      there is one, and its one text is the block's own, line by line, without the newlines at the
      end (`nl`). */
  lemma {:induction false} CodeBlockVerbatim(tag: Tag, d: Doc, t: string, nl: string, r: Resolver)
    requires IsCode(tag) && OnlyTexts(d) && Verbatim(d) == t + nl
    requires (forall i :: 0 <= i < |nl| ==> nl[i] == '\n') && (t == "" || t[|t| - 1] != '\n')
    ensures var read, text := Lexed([], Convert(Flatten(Elem(tag, d, Empty)), r)), Lit(Normal(Multiline, t));
            if tag.IndentedCode? || forall i :: 0 <= i < |tag.info| ==> IsWhitespace(tag.info[i]) then
              read == Some(CallToks("raw", Syms("block: true, ") + [text]))
            else
              exists lang, lead: nat ::
                IsFirstWord(tag.info, lang, lead) && lang != ""
                && read == Some(CallToks("raw", Syms("block: true, lang: ") + [Lit(Normal(Inline, lang))]
                                                + Syms(", ") + [text]))
  {
    hide Lexed, Convert, Flatten, CallToks, Normal, Emit;
    var lang := if tag.FencedCode? then FirstWord(tag.info) else "";
    CodeBlockReads(tag, lang, d, t, nl, r);
    assert Syms("block: true, ") + [] == Syms("block: true, ");
    assert Syms("block: true, ") + (Syms("lang: ") + [Lit(Normal(Inline, lang))] + Syms(", "))
        == Syms("block: true, lang: ") + [Lit(Normal(Inline, lang))] + Syms(", ");
    if tag.FencedCode? {
      BlankInfo(tag.info);
    }
  }

  lemma CodeBlockReads(tag: Tag, lang: string, d: Doc, t: string, nl: string, r: Resolver)
    requires IsCode(tag) && OnlyTexts(d) && Verbatim(d) == t + nl
    requires (forall i :: 0 <= i < |nl| ==> nl[i] == '\n') && (t == "" || t[|t| - 1] != '\n')
    requires lang == if tag.FencedCode? then FirstWord(tag.info) else ""
    ensures Lexed([], Convert(Flatten(Elem(tag, d, Empty)), r)) == Some(RawToks(lang, t))
  {
    hide Lexed, Convert, Flatten, RawToks, Emit, FirstWord;
    VerbatimInCode(d, r);
    ConvertReads(Elem(tag, d, Empty), r);
    SameTrimmed(Verbatim(d), t, nl);
    assert TagShare(tag, Verbatim(d), Meaning(d, r), r) == InText(RawToks(lang, t));
    assert Meaning(Elem(tag, d, Empty), r).toks == RawToks(lang, t) + Meaning(Empty, r).toks;
    assert RawToks(lang, t) + [] == RawToks(lang, t);
  }

  /** The info string of a fence names no language exactly when it is blank. */
  lemma BlankInfo(info: string)
    ensures exists lead: nat :: IsFirstWord(info, FirstWord(info), lead)
    ensures FirstWord(info) == "" <==> forall i :: 0 <= i < |info| ==> IsWhitespace(info[i])
  {
    FirstWordIs(info);
    var lang := FirstWord(info);
    var lead: nat :| IsFirstWord(info, lang, lead);
    assert lang != "" ==> info[lead] == lang[0];
  }

  lemma SameTrimmed(s: string, t: string, nl: string)
    requires s == t + nl && (forall i :: 0 <= i < |nl| ==> nl[i] == '\n') && (t == "" || t[|t| - 1] != '\n')
    ensures TrimEndNewlines(s) == t
  {
    assert t <= s && forall i :: |t| <= i < |s| ==> s[i] == nl[i - |t|];
    assert t != "" ==> s[|t| - 1] != '\n';
  }

  lemma NormalOne(s: string)
    requires |s| == 1 && NormalChar(Inline, s[0]) == s
    ensures Normal(Inline, s) == s
  {
  }

  /** The alternative text of an image that resolves is not emitted at all. */
  lemma {:induction false} AltTextIsDropped(url: string, r: Resolver)
    requires r(url).Some?
    ensures var d := Elem(ParagraphTag, Elem(ImageTag(url), Plain(Text("x"), Empty), Empty), Empty);
            var read := Lexed([], Convert(Flatten(d), r));
            AllTexts(d, Prose) == ["x"] && read.Some? && Texts(read.value, Prose) == []
  {
    var image := Elem(ImageTag(url), Plain(Text("x"), Empty), Empty);
    var x := Plain(Text("x"), Empty);
    NormalOne("x");
    assert AllTexts(x, Prose) == ["x"] && AllTexts(image, Prose) == AllTexts(x, Prose) + [];
    assert AllTexts(Elem(ParagraphTag, image, Empty), Prose) == AllTexts(image, Prose) + [];
    hide Lexed, Convert, Flatten, Texts, Placed, AuthorTexts, AllTexts, Normal;
    TextPreserved(Elem(ParagraphTag, image, Empty), Prose, r);
  }

  /** A text directly in a list would be lost, if the parser put one there. */
  lemma MisplacedTextIsLost(r: Resolver)
    ensures var d := Elem(ListTag(None), Plain(Text("x"), Empty), Empty);
            var read := Lexed([], Convert(Flatten(d), r));
            AuthorTexts(d, Prose, r) == ["x"] && read.Some? && Texts(read.value, Prose) == []
  {
    var d := Elem(ListTag(None), Plain(Text("x"), Empty), Empty);
    hide Lexed, Convert, Flatten, Texts, Placed;
    TextPreserved(d, Prose, r);
    NormalOne("x");
  }
}
