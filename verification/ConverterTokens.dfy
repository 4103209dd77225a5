/** What a Typst reader sees in the converter's output. */
module ConverterTokens {
  import opened Wrappers
  import opened Strings
  import opened TypstMarkup
  import opened TypstLexer
  import opened Converter
  import opened ConverterRefinement

  // ---- the meaning of a document, as tokens ----

  datatype TokRow = TokRow(header: bool, cells: seq<seq<Token>>)

  datatype Shape = Shape(toks: seq<Token>, items: seq<seq<Token>>, rows: seq<TokRow>)

  /** What one element contributes to its parent. */
  datatype Share = InText(toks: seq<Token>) | OneItem(item: seq<Token>) | OneRow(row: TokRow)

  function Prepend(g: Share, s: Shape): Shape {
    match g
    case InText(toks) => s.(toks := toks + s.toks)
    case OneItem(item) => s.(items := [item] + s.items)
    case OneRow(row) => s.(rows := [row] + s.rows)
  }

  function AtomToks(a: Atom): seq<Token> {
    match a
    case Text(text) => [Run(Normal(Inline, text))]
    case Code(code) => CallToks("raw", [Lit(Normal(Inline, code))])
    case SoftBreak => []
    case HardBreak => CallToks("linebreak", [])
    case Rule => CallToks("line", Syms("length: 100%"))
    case TaskListMarker(done) => [Sym(if done then '\U{2611}' else '\U{2610}')]
    case Unsupported => []
  }

  function ItemToks(items: seq<seq<Token>>): seq<seq<Token>> {
    seq(|items|, i requires 0 <= i < |items| => ContentToks(items[i]))
  }

  function CellToks(header: bool, cell: seq<Token>): seq<Token> {
    ContentToks(if header then WrapToks("strong", cell) else cell)
  }

  function RowToks(row: TokRow): seq<seq<Token>> {
    seq(|row.cells|, i requires 0 <= i < |row.cells| => CellToks(row.header, row.cells[i]))
  }

  function TableToks(rows: seq<TokRow>): seq<seq<Token>> {
    if rows == [] then [] else TableToks(rows[..|rows| - 1]) + RowToks(rows[|rows| - 1])
  }

  ghost predicate IsWidest(cols: nat, rows: seq<TokRow>) {
    (forall i :: 0 <= i < |rows| ==> |rows[i].cells| <= cols)
    && (if rows == [] then cols == 1 else exists i :: 0 <= i < |rows| && |rows[i].cells| == cols)
  }

  /** The tokens an element contributes to the markup around it; `code` is the verbatim content of
      a code block and `cols` the width of a table. */
  function ElementToks(kind: Kind, code: string, cols: nat, s: Shape, r: Resolver): seq<Token> {
    match kind
    case Document => s.toks
    case Paragraph => s.toks
    case Heading(level) =>
      CallToks("heading", Syms("level: " + Decimal(level))) + ContentToks(s.toks)
    case BlockQuote => CallToks("quote", Syms("block: true")) + ContentToks(s.toks)
    case CodeBlock(lang) =>
      CallToks("raw", Syms("block: true, ")
                      + (if lang.Some? then Syms("lang: ") + [Lit(Normal(Inline, lang.value))] + Syms(", ")
                         else [])
                      + [Lit(Normal(Multiline, TrimEndNewlines(code)))])
    case List(None) => CallToks("list", JoinToks(ItemToks(s.items)))
    case List(Some(n)) =>
      CallToks("enum", (if n == 1 then [] else Syms("start: " + Decimal(n) + ", "))
                       + JoinToks(ItemToks(s.items)))
    case Item => []
    case Cell => []
    case Row(_) => []
    case Table =>
      CallToks("table", Syms("columns: " + Decimal(cols) + ", ") + JoinToks(TableToks(s.rows)))
    case Emphasis => WrapToks("emph", s.toks)
    case Strong => WrapToks("strong", s.toks)
    case Strikethrough => WrapToks("strike", s.toks)
    case Link(url) => CallToks("link", [Lit(Normal(Inline, url))]) + ContentToks(s.toks)
    case Image(url) =>
      match r(url)
      case Some(path) => CallToks("image", [Lit(Normal(Inline, path))])
      case None => s.toks
  }

  function ElementShare(kind: Kind, code: string, s: Shape, r: Resolver): Share {
    match kind
    case Item => OneItem(s.toks)
    case Cell => OneItem(s.toks)
    case Row(header) => OneRow(TokRow(header, s.items))
    case _ => InText(ElementToks(kind, code, Widest(s.rows), s, r))
  }

  function RawToks(lang: string, text: string): seq<Token> {
    CallToks("raw", Syms("block: true, ")
                    + (if lang == "" then [] else Syms("lang: ") + [Lit(Normal(Inline, lang))] + Syms(", "))
                    + [Lit(Normal(Multiline, text))])
  }

  /** What an element of the document means to the element around it. */
  function TagShare(tag: Tag, code: string, s: Shape, r: Resolver): Share {
    match tag
    case ParagraphTag => InText(s.toks)
    case HeadingTag(level) =>
      InText(CallToks("heading", Syms("level: " + LevelDigit(level))) + ContentToks(s.toks))
    case BlockQuoteTag => InText(CallToks("quote", Syms("block: true")) + ContentToks(s.toks))
    case FencedCode(info) => InText(RawToks(FirstWord(info), TrimEndNewlines(code)))
    case IndentedCode => InText(RawToks("", TrimEndNewlines(code)))
    case ListTag(None) => InText(CallToks("list", JoinToks(ItemToks(s.items))))
    case ListTag(Some(n)) =>
      InText(CallToks("enum", (if n == 1 then [] else Syms("start: " + Decimal(n) + ", "))
                              + JoinToks(ItemToks(s.items))))
    case ItemTag => OneItem(s.toks)
    case TableTag =>
      InText(CallToks("table", Syms("columns: " + Decimal(Widest(s.rows)) + ", ") + JoinToks(TableToks(s.rows))))
    case TableHeadTag => OneRow(TokRow(true, s.items))
    case TableRowTag => OneRow(TokRow(false, s.items))
    case TableCellTag => OneItem(s.toks)
    case EmphasisTag => InText(WrapToks("emph", s.toks))
    case StrongTag => InText(WrapToks("strong", s.toks))
    case StrikethroughTag => InText(WrapToks("strike", s.toks))
    case LinkTag(url) => InText(CallToks("link", [Lit(Normal(Inline, url))]) + ContentToks(s.toks))
    case ImageTag(url) =>
      (match r(url)
       case Some(path) => InText(CallToks("image", [Lit(Normal(Inline, path))]))
       case None => InText(s.toks))
    case OtherTag => InText(s.toks)
  }

  /** The frame a tag opens has the meaning of the tag. */
  lemma ShareOfTag(tag: Tag, code: string, s: Shape, r: Resolver)
    ensures ElementShare(OpenKind(tag), code, s, r) == TagShare(tag, code, s, r)
  {
    hide CallToks, ContentToks, WrapToks, JoinToks, ItemToks, TableToks, Syms, Normal, Decimal, Widest;
    hide TrimEndNewlines, FirstWord, HeadingLevel, LevelDigit;
    if tag.HeadingTag? {
      LevelDigitIs(tag.level);
    }
  }

  /** The tokens of a whole document, computed on the tree. */
  ghost function Meaning(d: Doc, r: Resolver): Shape {
    match d
    case Empty => Shape([], [], [])
    case Plain(a, rest) => Prepend(InText(AtomToks(a)), Meaning(rest, r))
    case Elem(tag, inner, rest) =>
      Prepend(TagShare(tag, Emit(inner, IsCode(tag), r).buf, Meaning(inner, r), r), Meaning(rest, r))
  }

  function Widest(rows: seq<TokRow>): (cols: nat)
    ensures IsWidest(cols, rows)
  {
    if rows == [] then 1
    else if |rows| == 1 then |rows[0].cells|
    else
      var most := Widest(rows[1..]);
      var first := |rows[0].cells|;
      assert forall i :: 0 < i < |rows| ==> rows[i] == rows[1..][i - 1];
      assert exists i :: 0 <= i < |rows[1..]| && |rows[1..][i].cells| == most;
      if most < first then first else most
  }

  // ---- pieces of output against their tokens ----

  ghost predicate Reads(s: string, toks: seq<Token>) {
    Lexed([], s) == Some(toks)
  }

  ghost predicate ReadsAll(items: seq<string>, toks: seq<seq<Token>>) {
    |items| == |toks| && forall i :: 0 <= i < |items| ==> Reads(items[i], toks[i])
  }

  ghost predicate ReadsRow(row: TableRow, toks: TokRow) {
    row.header == toks.header && ReadsAll(row.cells, toks.cells)
  }

  ghost predicate ReadsRows(rows: seq<TableRow>, toks: seq<TokRow>) {
    |rows| == |toks| && forall i :: 0 <= i < |rows| ==> ReadsRow(rows[i], toks[i])
  }

  lemma BlankLine(s: string, toks: seq<Token>)
    requires Reads(s, toks)
    ensures Reads(s + "\n\n", toks)
  {
    ScanOne(Outside([], []), '\n');
    LexedConcat([], s, "\n");
    LexedConcat([], s + "\n", "\n");
    assert s + "\n" + "\n" == s + "\n\n" && toks + [] == toks;
  }

  lemma BlankReads()
    ensures Reads(" ", [])
  {
  }

  lemma MarkReads(mark: char)
    requires IsTaskMark(mark)
    ensures Reads([mark], [Sym(mark)])
  {
    ScanOne(Outside([], []), mark);
    assert [] + [Sym(mark)] == [Sym(mark)];
  }

  lemma AtomReads(a: Atom)
    ensures Reads(AtomMarkup(a, false), AtomToks(a))
  {
    hide Lexed;
    match a {
      case Text(text) => LexedRun(text);
      case Code(code) => LexedArgLit(Inline, code); LexedCall("raw", Quoted(Inline, code));
      case SoftBreak => BlankReads();
      case HardBreak => LexedEmpty(['(']); LexedCall("linebreak", "");
      case Rule =>
        LexedArgText("length: 100%");
        LexedCall("line", "length: 100%");
        BlankLine(Call("line", "length: 100%"), CallToks("line", Syms("length: 100%")));
      case TaskListMarker(done) =>
        var mark := if done then '\U{2611}' else '\U{2610}';
        MarkReads(mark);
        BlankReads();
        LexedConcat([], [mark], " ");
        assert [mark] + " " == AtomMarkup(a, false) && [Sym(mark)] + [] == AtomToks(a);
      case Unsupported => LexedEmpty([]);
    }
  }

  lemma BlockReads(name: string, args: string, argToks: seq<Token>, body: string, toks: seq<Token>)
    requires IsName(name) && Lexed(['('], args) == Some(argToks) && Reads(body, toks)
    ensures Reads(Call(name, args) + Content(body), CallToks(name, argToks) + ContentToks(toks))
  {
    LexedCall(name, args);
    LexedContent([], body);
    LexedConcat([], Call(name, args), Content(body));
  }

  lemma CodeReads(lang: Option<string>, code: string)
    ensures Lexed(['('], CodeArgs(lang, code))
         == Some(Syms("block: true, ")
                 + (if lang.Some? then Syms("lang: ") + [Lit(Normal(Inline, lang.value))] + Syms(", ")
                    else [])
                 + [Lit(Normal(Multiline, code))])
  {
    hide Lexed;
    LexedArgText("block: true, ");
    LexedArgLit(Multiline, code);
    if lang.Some? {
      LexedArgText("lang: ");
      LexedArgLit(Inline, lang.value);
      LexedArgText(", ");
      LexedConcat(['('], "lang: ", Quoted(Inline, lang.value));
      LexedConcat(['('], "lang: " + Quoted(Inline, lang.value), ", ");
      LexedConcat(['('], "block: true, ", "lang: " + Quoted(Inline, lang.value) + ", ");
      LexedConcat(['('], "block: true, " + ("lang: " + Quoted(Inline, lang.value) + ", "),
                  Quoted(Multiline, code));
    } else {
      assert "block: true, " + "" == "block: true, ";
      assert Syms("block: true, ") + [] == Syms("block: true, ");
      LexedConcat(['('], "block: true, ", Quoted(Multiline, code));
    }
  }

  lemma NumberedReads(lead: string, n: nat, tail: string)
    requires IsArgText(lead) && IsArgText(tail)
    ensures Lexed(['('], lead + Decimal(n) + tail) == Some(Syms(lead + Decimal(n) + tail))
  {
    LexedArgText(lead + Decimal(n) + tail);
  }

  lemma ItemsRead(items: seq<string>, toks: seq<seq<Token>>)
    requires ReadsAll(items, toks)
    ensures Lexed(['('], Join(ItemArgs(items), ", ")) == Some(JoinToks(ItemToks(toks)))
  {
    forall i | 0 <= i < |items|
      ensures Lexed(['('], ItemArgs(items)[i]) == Some(ItemToks(toks)[i])
    {
      assert Reads(items[i], toks[i]);
      LexedTrim(items[i]);
      LexedContent(['('], Trim(items[i]));
    }
    LexedJoin(ItemArgs(items), ItemToks(toks));
  }

  lemma ListReads(start: Option<nat>, items: seq<string>, toks: seq<seq<Token>>, r: Resolver)
    requires ReadsAll(items, toks)
    ensures Reads(ListCall(start, Join(ItemArgs(items), ", ")),
                  ElementToks(List(start), "", 0, Shape([], toks, []), r))
  {
    var args, argToks := Join(ItemArgs(items), ", "), JoinToks(ItemToks(toks));
    ItemsRead(items, toks);
    if start.Some? && start.value != 1 {
      NumberedReads("start: ", start.value, ", ");
      LexedConcat(['('], "start: " + Decimal(start.value) + ", ", args);
      LexedCall("enum", "start: " + Decimal(start.value) + ", " + args);
    } else {
      assert [] + argToks == argToks;
      LexedCall(if start.Some? then "enum" else "list", args);
    }
  }

  lemma CellReads(header: bool, cell: string, toks: seq<Token>)
    requires Reads(cell, toks)
    ensures Lexed(['('], CellArg(header, cell)) == Some(CellToks(header, toks))
  {
    LexedTrim(cell);
    if header {
      LexedWrap("strong", Trim(cell));
      LexedContent(['('], Wrap("strong", Trim(cell)));
    } else {
      LexedContent(['('], Trim(cell));
    }
  }

  lemma {:induction false} CellsRead(rows: seq<TableRow>, toks: seq<TokRow>)
    requires ReadsRows(rows, toks)
    ensures var cells, cellToks := CellArgs(rows), TableToks(toks);
            |cells| == |cellToks|
            && forall i :: 0 <= i < |cells| ==> Lexed(['('], cells[i]) == Some(cellToks[i])
    decreases rows
  {
    if rows != [] {
      var n := |rows| - 1;
      CellsRead(rows[..n], toks[..n]);
      assert ReadsRow(rows[n], toks[n]);
      forall i | 0 <= i < |rows[n].cells|
        ensures Lexed(['('], RowArgs(rows[n].header, rows[n].cells)[i]) == Some(RowToks(toks[n])[i])
      {
        assert Reads(rows[n].cells[i], toks[n].cells[i]);
        CellReads(rows[n].header, rows[n].cells[i], toks[n].cells[i]);
      }
    }
  }

  lemma {:induction false} ColumnsIsWidest(rows: seq<TableRow>, toks: seq<TokRow>)
    requires ReadsRows(rows, toks)
    ensures Columns(rows) == Widest(toks)
    decreases rows
  {
    if rows != [] {
      assert ReadsRow(rows[0], toks[0]);
      if |rows| > 1 {
        forall i | 0 <= i < |rows[1..]| ensures ReadsRow(rows[1..][i], toks[1..][i]) {
          assert ReadsRow(rows[i + 1], toks[i + 1]);
        }
        ColumnsIsWidest(rows[1..], toks[1..]);
      }
    }
  }

  lemma TableReads(rows: seq<TableRow>, s: Shape, r: Resolver)
    requires ReadsRows(rows, s.rows)
    ensures Reads(Call("table", "columns: " + Decimal(Columns(rows)) + ", " + Join(CellArgs(rows), ", ")),
                  ElementToks(Table, "", Widest(s.rows), s, r))
  {
    hide Lexed, Join, JoinToks, CellArgs, TableToks, Columns, Decimal, ReadsRows;
    ColumnsIsWidest(rows, s.rows);
    CellsRead(rows, s.rows);
    LexedJoin(CellArgs(rows), TableToks(s.rows));
    NumberedReads("columns: ", Columns(rows), ", ");
    LexedConcat(['('], "columns: " + Decimal(Columns(rows)) + ", ", Join(CellArgs(rows), ", "));
    LexedCall("table", "columns: " + Decimal(Columns(rows)) + ", " + Join(CellArgs(rows), ", "));
  }

  ghost predicate FrameReads(f: Frame, s: Shape) {
    (f.kind.CodeBlock? || Reads(f.buf, s.toks)) && ReadsAll(f.items, s.items) && ReadsRows(f.rows, s.rows)
  }

  ghost predicate DeliveryReads(d: Delivery, g: Share) {
    match d
    case Markup(text) => g.InText? && Reads(text, g.toks)
    case AsItem(item) => g.OneItem? && Reads(item, g.item)
    case AsRow(row) => g.OneRow? && ReadsRow(row, g.row)
  }

  /** Closing any frame whose parts read as `s` hands its parent markup that reads as the element. */
  lemma CloseReads(f: Frame, s: Shape, r: Resolver)
    requires FrameReads(f, s)
    ensures DeliveryReads(Close(f, r), ElementShare(f.kind, f.buf, s, r))
  {
    hide Lexed, Trim, TrimEndNewlines, Decimal, Join, ItemArgs, CellArgs, Columns, ReadsAll, ReadsRows;
    match f.kind {
      case Document =>
      case Paragraph => BlankLine(f.buf, s.toks);
      case Heading(level) =>
        LexedArgText("level: " + Decimal(level));
        BlockReads("heading", "level: " + Decimal(level), Syms("level: " + Decimal(level)), f.buf, s.toks);
        BlankLine(Call("heading", "level: " + Decimal(level)) + Content(f.buf),
                  ElementToks(f.kind, f.buf, 0, s, r));
      case BlockQuote =>
        LexedTrim(f.buf);
        LexedArgText("block: true");
        BlockReads("quote", "block: true", Syms("block: true"), Trim(f.buf), s.toks);
        BlankLine(Call("quote", "block: true") + Content(Trim(f.buf)), ElementToks(f.kind, f.buf, 0, s, r));
      case CodeBlock(lang) =>
        var args := CodeArgs(lang, TrimEndNewlines(f.buf));
        CodeReads(lang, TrimEndNewlines(f.buf));
        LexedCall("raw", args);
        BlankLine(Call("raw", args), ElementToks(f.kind, f.buf, 0, s, r));
      case List(start) =>
        ListReads(start, f.items, s.items, r);
        BlankLine(ListCall(start, Join(ItemArgs(f.items), ", ")), ElementToks(f.kind, f.buf, 0, s, r));
      case Table =>
        TableReads(f.rows, s, r);
        BlankLine(Call("table", "columns: " + Decimal(Columns(f.rows)) + ", " + Join(CellArgs(f.rows), ", ")),
                  ElementToks(Table, f.buf, Widest(s.rows), s, r));
      case Item =>
      case Cell =>
      case Row(_) =>
      case Emphasis => LexedWrap("emph", f.buf);
      case Strong => LexedWrap("strong", f.buf);
      case Strikethrough => LexedWrap("strike", f.buf);
      case Link(url) =>
        LexedArgLit(Inline, url);
        BlockReads("link", Quoted(Inline, url), [Lit(Normal(Inline, url))], f.buf, s.toks);
      case Image(url) =>
        if r(url).Some? {
          LexedArgLit(Inline, r(url).value);
          LexedCall("image", Quoted(Inline, r(url).value));
        }
    }
  }

  // ---- main results ----

  ghost predicate PieceReads(p: Piece, s: Shape, inCode: bool) {
    (inCode || Reads(p.buf, s.toks)) && ReadsAll(p.items, s.items) && ReadsRows(p.rows, s.rows)
  }

  lemma BeforeReads(v: Delivery, g: Share, p: Piece, s: Shape, inCode: bool)
    requires PieceReads(p, s, inCode)
    requires DeliveryReads(v, g) || (inCode && v.Markup? && g.InText?)
    ensures PieceReads(Before(v, p), Prepend(g, s), inCode)
  {
    hide Lexed;
    match v {
      case Markup(text) =>
        if !inCode {
          LexedConcat([], text, p.buf);
        }
      case AsItem(item) =>
      case AsRow(row) =>
    }
  }

  /** Reading the emitted markup gives the document's meaning, token for token. */
  lemma {:induction false} EmitReads(d: Doc, inCode: bool, r: Resolver)
    ensures PieceReads(Emit(d, inCode, r), Meaning(d, r), inCode)
    decreases d
  {
    match d {
      case Empty => LexedEmpty([]);
      case Plain(a, rest) =>
        hide Lexed, AtomMarkup, AtomToks, Before, Prepend;
        EmitReads(rest, inCode, r);
        LeafIsAtom(a, inCode);
        if !inCode {
          AtomReads(a);
        }
        BeforeReads(Markup(AtomMarkup(a, inCode)), InText(AtomToks(a)),
                    Emit(rest, inCode, r), Meaning(rest, r), inCode);
      case Elem(tag, inner, rest) =>
        hide Reads, ReadsAll, ReadsRows, Close, Rendered, ElementShare, TagShare, OpenKind, Before, Prepend;
        EmitReads(inner, IsCode(tag), r);
        EmitReads(rest, inCode, r);
        var p, s := Emit(inner, IsCode(tag), r), Meaning(inner, r);
        var f := Frame(OpenKind(tag), p.buf, p.items, p.rows);
        CodeKind(tag);
        CloseReads(f, s, r);
        CloseIsRendered(tag, p, r);
        ShareOfTag(tag, p.buf, s, r);
        BeforeReads(Rendered(tag, p, r), TagShare(tag, p.buf, s, r), Emit(rest, inCode, r), Meaning(rest, r), inCode);
    }
  }

  /** The output for a whole document is well-formed Typst and means what the document says. */
  lemma {:induction false} ConvertReads(d: Doc, r: Resolver)
    ensures Lexed([], Convert(Flatten(d), r)) == Some(Meaning(d, r).toks)
  {
    EmitReads(d, false, r);
    ConvertDocument(d, r);
    LexedTrim(Emit(d, false, r).buf);
  }

  /** ... which covers every well-nested stream. */
  lemma ConvertWellNested(events: seq<Event>, r: Resolver)
    requires WellNested(events)
    ensures exists d :: Flatten(d) == events && Lexed([], Convert(events, r)) == Some(Meaning(d, r).toks)
  {
    var d := WellNestedIsDocument(events);
    ConvertReads(d, r);
  }

  // ---- any stream at all, well-nested or not ----

  ghost predicate Sound(f: Frame) {
    exists s :: FrameReads(f, s)
  }

  ghost predicate AllSound(stack: seq<Frame>) {
    forall i :: 0 <= i < |stack| ==> Sound(stack[i])
  }

  function Append(s: Shape, g: Share): Shape {
    match g
    case InText(toks) => s.(toks := s.toks + toks)
    case OneItem(item) => s.(items := s.items + [item])
    case OneRow(row) => s.(rows := s.rows + [row])
  }

  lemma DeliverSound(f: Frame, child: Frame, r: Resolver)
    requires Sound(f) && Sound(child)
    ensures Sound(Deliver(f, Close(child, r)))
  {
    var s :| FrameReads(f, s);
    var c :| FrameReads(child, c);
    hide Lexed, Close, ElementShare;
    CloseReads(child, c, r);
    var g := ElementShare(child.kind, child.buf, c, r);
    if Close(child, r).Markup? && !f.kind.CodeBlock? {
      LexedConcat([], f.buf, Close(child, r).text);
    }
    assert FrameReads(Deliver(f, Close(child, r)), Append(s, g));
  }

  lemma NextSound(stack: seq<Frame>, e: Event, r: Resolver)
    requires ValidStack(stack) && AllSound(stack)
    ensures AllSound(Next(stack, e, r))
  {
    match e {
      case Start(tag) =>
        LexedEmpty([]);
        assert FrameReads(NewFrame(OpenKind(tag)), Shape([], [], []));
      case Leaf(a) =>
        var top := Top(stack);
        assert Sound(top);
        var s :| FrameReads(top, s);
        if !top.kind.CodeBlock? {
          AtomReads(a);
          LexedConcat([], top.buf, AtomMarkup(a, false));
        }
        assert FrameReads(Top(Next(stack, e, r)), s.(toks := s.toks + AtomToks(a)));
      case End =>
        if |stack| > 1 {
          assert Sound(stack[|stack| - 2]) && Sound(Top(stack));
          DeliverSound(stack[|stack| - 2], Top(stack), r);
        }
    }
  }

  lemma {:induction false} NextAllSound(events: seq<Event>, r: Resolver)
    ensures AllSound(NextAll([NewFrame(Document)], events, r))
    decreases events
  {
    if events == [] {
      LexedEmpty([]);
      assert FrameReads(NewFrame(Document), Shape([], [], []));
    } else {
      var n := |events| - 1;
      NextAllSound(events[..n], r);
      NextSound(NextAll([NewFrame(Document)], events[..n], r), events[n], r);
    }
  }

  /** The tags still open after some events; an `End` with none open is ignored. */
  function OpenTags(events: seq<Event>): seq<Tag> {
    if events == [] then []
    else TagsAfter(OpenTags(events[..|events| - 1]), events[|events| - 1])
  }

  function TagsAfter(tags: seq<Tag>, e: Event): seq<Tag> {
    match e
    case Start(tag) => tags + [tag]
    case Leaf(_) => tags
    case End => if tags == [] then [] else tags[..|tags| - 1]
  }

  /** The frames of a stack, above the root, are those of some open tags. */
  ghost predicate Opened(stack: seq<Frame>, tags: seq<Tag>) {
    |stack| == |tags| + 1 && forall i :: 0 <= i < |tags| ==> stack[i + 1].kind == OpenKind(tags[i])
  }

  lemma NextOpened(stack: seq<Frame>, tags: seq<Tag>, e: Event, r: Resolver)
    requires ValidStack(stack) && Opened(stack, tags)
    ensures Opened(Next(stack, e, r), TagsAfter(tags, e))
  {
  }

  /** The stream stops inside an open code block. */
  predicate InsideCode(events: seq<Event>) {
    var tags := OpenTags(events);
    tags != [] && IsCode(tags[|tags| - 1])
  }

  lemma {:induction false} StackIsOpenTags(events: seq<Event>, r: Resolver)
    ensures Opened(NextAll([NewFrame(Document)], events, r), OpenTags(events))
    decreases events
  {
    if events != [] {
      hide Next, Opened;
      var n := |events| - 1;
      StackIsOpenTags(events[..n], r);
      NextOpened(NextAll([NewFrame(Document)], events[..n], r), OpenTags(events[..n]), events[n], r);
    }
  }

  /** No event stream, however ill-nested, makes the converter emit broken markup, unless it stops
      inside an open code block ... */
  lemma ConvertAnyStream(events: seq<Event>, r: Resolver)
    requires !InsideCode(events)
    ensures Lexed([], Convert(events, r)).Some?
  {
    var stack := NextAll([NewFrame(Document)], events, r);
    StackIsOpenTags(events, r);
    assert !Top(stack).kind.CodeBlock?;
    NextAllSound(events, r);
    assert Sound(stack[|stack| - 1]);
    var s :| FrameReads(Top(stack), s);
    LexedTrim(Top(stack).buf);
  }

  lemma StarBreaks(s: string)
    ensures Lexed([], s + "*").None?
  {
    ScanConcat(Outside([], []), s, "*");
    ScanOne(Scan(Outside([], []), s), '*');
  }

  lemma {:induction false} TrimStartStar(s: string)
    ensures exists y :: TrimStart(s + "*") == y + "*"
  {
    if s == "" || !IsWhitespace(s[0]) {
      assert TrimStart(s + "*") == s + "*";
    } else {
      assert (s + "*")[1..] == s[1..] + "*";
      TrimStartStar(s[1..]);
    }
  }

  /** ... and there it does: the text of the block is verbatim until the block is closed. */
  lemma OnlyOpenCodeBreaks(events: seq<Event>, r: Resolver)
    ensures Lexed([], Convert(events + [Leaf(Text("*"))], r)).None? <==> InsideCode(events)
  {
    var all := events + [Leaf(Text("*"))];
    assert all[..|events|] == events;
    if InsideCode(events) {
      var stack := NextAll([NewFrame(Document)], events, r);
      StackIsOpenTags(events, r);
      var buf := Top(stack).buf;
      assert Top(NextAll([NewFrame(Document)], all, r)).buf == buf + "*";
      TrimStartStar(buf);
      var y :| TrimStart(buf + "*") == y + "*";
      assert Trim(buf + "*") == y + "*";
      StarBreaks(y);
    } else {
      ConvertAnyStream(all, r);
    }
  }
}
