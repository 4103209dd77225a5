/** The stack machine computes a structural recursion over the document tree. */
module ConverterRefinement {
  import opened Wrappers
  import opened Strings
  import opened TypstMarkup
  import opened Converter

  /** A document: siblings in order, each either a leaf or an element with its own content. */
  datatype Doc = Empty | Plain(atom: Atom, rest: Doc) | Elem(tag: Tag, inner: Doc, rest: Doc)

  function Flatten(d: Doc): seq<Event> {
    match d
    case Empty => []
    case Plain(a, rest) => [Leaf(a)] + Flatten(rest)
    case Elem(tag, inner, rest) => [Start(tag)] + Flatten(inner) + [End] + Flatten(rest)
  }

  /** What a document adds to the frame that encloses it. */
  datatype Piece = Piece(buf: string, items: seq<string>, rows: seq<TableRow>)

  function Fill(f: Frame, p: Piece): Frame {
    f.(buf := f.buf + p.buf, items := f.items + p.items, rows := f.rows + p.rows)
  }

  function Before(d: Delivery, p: Piece): Piece {
    match d
    case Markup(text) => p.(buf := text + p.buf)
    case AsItem(item) => p.(items := [item] + p.items)
    case AsRow(row) => p.(rows := [row] + p.rows)
  }

  // ---- the markup of each node, written out ----

  function LeafText(a: Atom, inCode: bool): string {
    match a
    case Text(text) => if inCode then text else "#" + Quoted(Inline, text)
    case Code(code) => Call("raw", Quoted(Inline, code))
    case SoftBreak => " "
    case HardBreak => Call("linebreak", "")
    case Rule => Call("line", "length: 100%") + "\n\n"
    case TaskListMarker(true) => "\U{2611} "
    case TaskListMarker(false) => "\U{2610} "
    case Unsupported => ""
  }

  function LevelDigit(h: Heading): string {
    match h case H1 => "1" case H2 => "2" case H3 => "3" case H4 => "4" case H5 => "5" case H6 => "6"
  }

  function CodeText(lang: string, text: string): string {
    Call("raw", "block: true, " + (if lang == "" then "" else "lang: " + Quoted(Inline, lang) + ", ")
                + Quoted(Multiline, text)) + "\n\n"
  }

  function Bracketed(items: seq<string>): seq<string> {
    seq(|items|, i requires 0 <= i < |items| => Content(Trim(items[i])))
  }

  function BoldBracketed(items: seq<string>): seq<string> {
    seq(|items|, i requires 0 <= i < |items| => Content(Wrap("strong", Trim(items[i]))))
  }

  function AllCells(rows: seq<TableRow>): seq<string> {
    if rows == [] then []
    else
      var last := rows[|rows| - 1];
      AllCells(rows[..|rows| - 1]) + if last.header then BoldBracketed(last.cells) else Bracketed(last.cells)
  }

  /** What an element with this content gives to the element around it. */
  function Rendered(tag: Tag, p: Piece, resolve: Resolver): Delivery {
    match tag
    case ParagraphTag => Markup(p.buf + "\n\n")
    case HeadingTag(level) => Markup(Call("heading", "level: " + LevelDigit(level)) + Content(p.buf) + "\n\n")
    case BlockQuoteTag => Markup(Call("quote", "block: true") + Content(Trim(p.buf)) + "\n\n")
    case FencedCode(info) => Markup(CodeText(FirstWord(info), TrimEndNewlines(p.buf)))
    case IndentedCode => Markup(CodeText("", TrimEndNewlines(p.buf)))
    case ListTag(None) => Markup(Call("list", Join(Bracketed(p.items), ", ")) + "\n\n")
    case ListTag(Some(n)) =>
      var args := Join(Bracketed(p.items), ", ");
      Markup(Call("enum", if n == 1 then args else "start: " + Decimal(n) + ", " + args) + "\n\n")
    case ItemTag => AsItem(p.buf)
    case TableTag =>
      var args := "columns: " + Decimal(Columns(p.rows)) + ", " + Join(AllCells(p.rows), ", ");
      Markup(Call("table", args) + "\n\n")
    case TableHeadTag => AsRow(TableRow(true, p.items))
    case TableRowTag => AsRow(TableRow(false, p.items))
    case TableCellTag => AsItem(p.buf)
    case EmphasisTag => Markup(Wrap("emph", p.buf))
    case StrongTag => Markup(Wrap("strong", p.buf))
    case StrikethroughTag => Markup(Wrap("strike", p.buf))
    case LinkTag(url) => Markup(Call("link", Quoted(Inline, url)) + Content(p.buf))
    case ImageTag(url) =>
      (match resolve(url)
       case Some(path) => Markup(Call("image", Quoted(Inline, path)))
       case None => Markup(p.buf))
    case OtherTag => Markup(p.buf)
  }

  /** The reference emitter: no stack, no frames, no kinds, one case per node. */
  function Emit(d: Doc, inCode: bool, resolve: Resolver): Piece
    decreases d
  {
    match d
    case Empty => Piece("", [], [])
    case Plain(a, rest) => Before(Markup(LeafText(a, inCode)), Emit(rest, inCode, resolve))
    case Elem(tag, inner, rest) =>
      Before(Rendered(tag, Emit(inner, IsCode(tag), resolve), resolve), Emit(rest, inCode, resolve))
  }

  lemma LeafIsAtom(a: Atom, inCode: bool)
    ensures AtomMarkup(a, inCode) == LeafText(a, inCode)
  {
  }

  lemma LevelDigitIs(h: Heading)
    ensures Decimal(HeadingLevel(h)) == LevelDigit(h)
  {
    match h case H1 => case H2 => case H3 => case H4 => case H5 => case H6 =>
  }

  lemma {:induction false} AllCellsIs(rows: seq<TableRow>)
    ensures CellArgs(rows) == AllCells(rows)
  {
    hide Trim, Content, Wrap;
    if rows != [] {
      AllCellsIs(rows[..|rows| - 1]);
      var last := rows[|rows| - 1];
      assert RowArgs(last.header, last.cells)
          == if last.header then BoldBracketed(last.cells) else Bracketed(last.cells);
    }
  }

  /** Closing the frame of an element gives its parent exactly what is written out above. */
  lemma {:induction false} CloseIsRendered(tag: Tag, p: Piece, r: Resolver)
    ensures Close(Frame(OpenKind(tag), p.buf, p.items, p.rows), r) == Rendered(tag, p, r)
  {
    hide Trim, TrimEndNewlines, Decimal, Join, Quoted, Columns, FirstWord, HeadingLevel;
    hide Call, Content, Wrap, AllCells, CellArgs, LevelDigit;
    if tag.HeadingTag? {
      LevelDigitIs(tag.level);
    }
    AllCellsIs(p.rows);
    assert ItemArgs(p.items) == Bracketed(p.items);
  }

  lemma {:induction false} NextAllConcat(stack: seq<Frame>, a: seq<Event>, b: seq<Event>, r: Resolver)
    requires ValidStack(stack)
    ensures NextAll(stack, a + b, r) == NextAll(NextAll(stack, a, r), b, r)
    decreases b
  {
    if b == [] {
      assert a + b == a;
    } else {
      var n := |b| - 1;
      assert (a + b)[..|a + b| - 1] == a + b[..n];
      NextAllConcat(stack, a, b[..n], r);
    }
  }

  lemma NextAllOne(stack: seq<Frame>, e: Event, r: Resolver)
    requires ValidStack(stack)
    ensures NextAll(stack, [e], r) == Next(stack, e, r)
  {
  }

  lemma FillBefore(f: Frame, d: Delivery, p: Piece)
    ensures Fill(Deliver(f, d), p) == Fill(f, Before(d, p))
  {
  }

  /** Running the machine over a document's events fills the open frame with exactly what the
      reference emitter gives, and leaves every frame below untouched. */
  lemma {:induction false} MachineRefinesEmit(stack: seq<Frame>, d: Doc, r: Resolver)
    requires ValidStack(stack)
    ensures NextAll(stack, Flatten(d), r)
         == ReplaceTop(stack, Fill(Top(stack), Emit(d, Top(stack).kind.CodeBlock?, r)))
    decreases d
  {
    var top := Top(stack);
    hide Close, Rendered, AtomMarkup, LeafText;
    match d {
      case Empty =>
        assert Fill(top, Piece("", [], [])) == top;
      case Plain(a, rest) =>
        var delivered := Markup(AtomMarkup(a, top.kind.CodeBlock?));
        NextAllConcat(stack, [Leaf(a)], Flatten(rest), r);
        NextAllOne(stack, Leaf(a), r);
        LeafIsAtom(a, top.kind.CodeBlock?);
        MachineRefinesEmit(ReplaceTop(stack, Deliver(top, delivered)), rest, r);
        FillBefore(top, delivered, Emit(rest, top.kind.CodeBlock?, r));
      case Elem(tag, inner, rest) =>
        hide Next, OpenKind;
        var content := Emit(inner, IsCode(tag), r);
        var closed := Rendered(tag, content, r);
        var after := ReplaceTop(stack, Deliver(top, closed));
        CodeKind(tag);
        ElementRun(stack, tag, inner, r) by {
          MachineRefinesEmit(stack + [NewFrame(OpenKind(tag))], inner, r);
        }
        NextAllConcat(stack, [Start(tag)] + Flatten(inner) + [End], Flatten(rest), r);
        MachineRefinesEmit(after, rest, r);
        FillBefore(top, closed, Emit(rest, top.kind.CodeBlock?, r));
    }
  }

  lemma CodeKind(tag: Tag)
    ensures OpenKind(tag).CodeBlock? <==> IsCode(tag)
  {
  }

  /** One element, from its opening to its closing event. */
  lemma {:induction false} ElementRun(stack: seq<Frame>, tag: Tag, inner: Doc, r: Resolver)
    requires ValidStack(stack)
    requires var entered := stack + [NewFrame(OpenKind(tag))];
             NextAll(entered, Flatten(inner), r)
             == ReplaceTop(entered, Fill(Top(entered), Emit(inner, IsCode(tag), r)))
    ensures NextAll(stack, [Start(tag)] + Flatten(inner) + [End], r)
         == ReplaceTop(stack, Deliver(Top(stack), Rendered(tag, Emit(inner, IsCode(tag), r), r)))
  {
    hide Rendered, Close, OpenKind;
    var entered, content := stack + [NewFrame(OpenKind(tag))], Emit(inner, IsCode(tag), r);
    NextAllOne(stack, Start(tag), r);
    NextAllConcat(stack, [Start(tag)], Flatten(inner), r);
    NextAllConcat(stack, [Start(tag)] + Flatten(inner), [End], r);
    var full := NextAll(entered, Flatten(inner), r);
    NextAllOne(full, End, r);
    assert full[..|full| - 1] == stack;
    CloseIsRendered(tag, content, r);
    assert Fill(NewFrame(OpenKind(tag)), content) == Frame(OpenKind(tag), content.buf, content.items, content.rows);
  }

  /** The converter's output for a whole document. */
  lemma {:induction false} ConvertDocument(d: Doc, r: Resolver)
    ensures Convert(Flatten(d), r) == Trim(Emit(d, false, r).buf)
  {
    MachineRefinesEmit([NewFrame(Document)], d, r);
    assert "" + Emit(d, false, r).buf == Emit(d, false, r).buf;
  }

  // ---- every well-nested stream is a document ----

  function Delta(e: Event): int {
    match e case Start(_) => 1 case End => -1 case Leaf(_) => 0
  }

  function Depth(events: seq<Event>): int {
    if events == [] then 0 else Delta(events[0]) + Depth(events[1..])
  }

  ghost predicate WellNested(events: seq<Event>) {
    Depth(events) == 0 && forall i :: 0 <= i <= |events| ==> Depth(events[..i]) >= 0
  }

  lemma {:induction false} DepthConcat(a: seq<Event>, b: seq<Event>)
    ensures Depth(a + b) == Depth(a) + Depth(b)
  {
    if a == [] {
      assert a + b == b;
    } else {
      assert (a + b)[1..] == a[1..] + b;
      DepthConcat(a[1..], b);
    }
  }

  lemma {:induction false} FlattenWellNested(d: Doc)
    ensures WellNested(Flatten(d))
  {
    match d {
      case Empty =>
      case Plain(a, rest) =>
        FlattenWellNested(rest);
        WellNestedConcat([Leaf(a)], Flatten(rest)) by {
          forall i | 0 <= i <= 1 ensures Depth([Leaf(a)][..i]) >= 0 {
          }
        }
      case Elem(tag, inner, rest) =>
        FlattenWellNested(inner);
        FlattenWellNested(rest);
        WellNestedElement(tag, Flatten(inner));
        WellNestedConcat([Start(tag)] + Flatten(inner) + [End], Flatten(rest));
    }
  }

  lemma WellNestedConcat(a: seq<Event>, b: seq<Event>)
    requires WellNested(a) && WellNested(b)
    ensures WellNested(a + b)
  {
    DepthConcat(a, b);
    forall i | 0 <= i <= |a + b|
      ensures Depth((a + b)[..i]) >= 0
    {
      if i <= |a| {
        assert (a + b)[..i] == a[..i];
      } else {
        assert (a + b)[..i] == a + b[..i - |a|];
        DepthConcat(a, b[..i - |a|]);
      }
    }
  }

  lemma WellNestedElement(tag: Tag, body: seq<Event>)
    requires WellNested(body)
    ensures WellNested([Start(tag)] + body + [End])
  {
    var all := [Start(tag)] + body + [End];
    assert all == [Start(tag)] + (body + [End]);
    DepthConcat(body, [End]);
    forall i | 0 <= i <= |all|
      ensures Depth(all[..i]) >= 0
    {
      if 0 < i <= |body| + 1 {
        assert all[..i] == [Start(tag)] + body[..i - 1];
      } else if i > 0 {
        assert all[..i] == all;
      }
    }
  }

  /** The document a well-nested stream denotes. */
  lemma {:induction false} WellNestedIsDocument(events: seq<Event>) returns (d: Doc)
    requires WellNested(events)
    ensures Flatten(d) == events
    decreases |events|
  {
    if events == [] {
      d := Empty;
    } else {
      assert events[..1] == [events[0]];
      assert Depth(events[..1]) == Delta(events[0]);
      var tail := events[1..];
      match events[0] {
        case End => assert false;
        case Leaf(a) =>
          assert events == [Leaf(a)] + tail;
          forall i | 0 <= i <= |tail| ensures Depth(tail[..i]) >= 0 {
            assert events[..i + 1] == [Leaf(a)] + tail[..i];
            DepthConcat([Leaf(a)], tail[..i]);
          }
          var rest := WellNestedIsDocument(tail);
          d := Plain(a, rest);
        case Start(tag) =>
          var n := MatchingEnd(events);
          var body, after := events[1..n], events[n + 1..];
          assert events == [Start(tag)] + body + [End] + after;
          var inner := WellNestedIsDocument(body);
          var rest := WellNestedIsDocument(after);
          d := Elem(tag, inner, rest);
      }
    }
  }

  /** The `End` that closes the first `Start`: the first place where the depth is back to zero. */
  lemma MatchingEnd(events: seq<Event>) returns (n: nat)
    requires WellNested(events) && events != [] && events[0].Start?
    ensures 0 < n < |events| && events[n] == End
    ensures WellNested(events[1..n]) && WellNested(events[n + 1..])
  {
    n := 1;
    assert events[..1] == [events[0]] && events[..|events|] == events;
    while Depth(events[..n + 1]) != 0
      invariant 0 < n < |events|
      invariant forall i :: 0 < i <= n ==> Depth(events[..i]) > 0
      decreases |events| - n
    {
      assert n + 1 != |events|;
      assert Depth(events[..n + 1]) >= 0;
      n := n + 1;
    }
    assert events[..n + 1] == events[..n] + [events[n]];
    DepthConcat(events[..n], [events[n]]);
    assert events[n].End?;
    forall i | 0 <= i <= n - 1 ensures Depth(events[1..n][..i]) >= 0 {
      assert events[..i + 1] == [events[0]] + events[1..n][..i];
      DepthConcat([events[0]], events[1..n][..i]);
    }
    assert events[..n] == [events[0]] + events[1..n];
    DepthConcat([events[0]], events[1..n]);
    var after := events[n + 1..];
    forall i | 0 <= i <= |after| ensures Depth(after[..i]) >= 0 {
      assert events[..n + 1 + i] == events[..n + 1] + after[..i];
      DepthConcat(events[..n + 1], after[..i]);
    }
    assert events == events[..n + 1] + after;
    DepthConcat(events[..n + 1], after);
  }
}
