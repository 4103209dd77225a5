/** The stack machine that turns a markdown event stream into Typst markup. */
module Converter {
  import opened Wrappers
  import opened Strings
  import opened TypstMarkup

  datatype Heading = H1 | H2 | H3 | H4 | H5 | H6

  datatype Tag =
    | ParagraphTag | HeadingTag(level: Heading) | BlockQuoteTag
    | FencedCode(info: string) | IndentedCode
    | ListTag(start: Option<nat>) | ItemTag
    | TableTag | TableHeadTag | TableRowTag | TableCellTag
    | EmphasisTag | StrongTag | StrikethroughTag
    | LinkTag(url: string) | ImageTag(url: string)
    | OtherTag

  /** The events that open and close nothing; `Unsupported` stands for raw HTML, math and
      footnote references. */
  datatype Atom =
    | Text(text: string) | Code(code: string)
    | SoftBreak | HardBreak | Rule | TaskListMarker(done: bool) | Unsupported

  datatype Event = Start(tag: Tag) | End | Leaf(atom: Atom)

  datatype Kind =
    | Document | Paragraph | Heading(level: nat) | BlockQuote | CodeBlock(lang: Option<string>)
    | List(start: Option<nat>) | Item | Table | Row(header: bool) | Cell
    | Emphasis | Strong | Strikethrough | Link(url: string) | Image(url: string)

  datatype TableRow = TableRow(header: bool, cells: seq<string>)

  datatype Frame = Frame(kind: Kind, buf: string, items: seq<string>, rows: seq<TableRow>)

  type Resolver = string -> Option<string>

  function NewFrame(kind: Kind): Frame {
    Frame(kind, "", [], [])
  }

  function HeadingLevel(h: Heading): nat {
    match h case H1 => 1 case H2 => 2 case H3 => 3 case H4 => 4 case H5 => 5 case H6 => 6
  }

  function OpenKind(tag: Tag): Kind {
    match tag
    case ParagraphTag => Paragraph
    case HeadingTag(level) => Heading(HeadingLevel(level))
    case BlockQuoteTag => BlockQuote
    case FencedCode(info) =>
      var lang := FirstWord(info);
      CodeBlock(if lang == "" then None else Some(lang))
    case IndentedCode => CodeBlock(None)
    case ListTag(start) => List(start)
    case ItemTag => Item
    case TableTag => Table
    case TableHeadTag => Row(true)
    case TableRowTag => Row(false)
    case TableCellTag => Cell
    case EmphasisTag => Emphasis
    case StrongTag => Strong
    case StrikethroughTag => Strikethrough
    case LinkTag(url) => Link(url)
    case ImageTag(url) => Image(url)
    case OtherTag => Document
  }

  predicate IsCode(tag: Tag) {
    tag.FencedCode? || tag.IndentedCode?
  }

  function AtomMarkup(a: Atom, inCode: bool): string {
    match a
    case Text(text) => if inCode then text else "#" + Quoted(Inline, text)
    case Code(code) => Call("raw", Quoted(Inline, code))
    case SoftBreak => " "
    case HardBreak => Call("linebreak", "")
    case Rule => Call("line", "length: 100%") + "\n\n"
    case TaskListMarker(done) => if done then "\U{2611} " else "\U{2610} "
    case Unsupported => ""
  }

  // ---- what closing a frame hands to its parent ----

  datatype Delivery = Markup(text: string) | AsItem(item: string) | AsRow(row: TableRow)

  function ItemArgs(items: seq<string>): seq<string> {
    seq(|items|, i requires 0 <= i < |items| => Content(Trim(items[i])))
  }

  function CellArg(header: bool, cell: string): string {
    Content(if header then Wrap("strong", Trim(cell)) else Trim(cell))
  }

  function RowArgs(header: bool, cells: seq<string>): seq<string> {
    seq(|cells|, i requires 0 <= i < |cells| => CellArg(header, cells[i]))
  }

  function CellArgs(rows: seq<TableRow>): seq<string> {
    if rows == [] then []
    else
      var last := rows[|rows| - 1];
      CellArgs(rows[..|rows| - 1]) + RowArgs(last.header, last.cells)
  }

  /** The widest row; 1 when there is none. */
  function Columns(rows: seq<TableRow>): nat {
    if rows == [] then 1
    else if |rows| == 1 then |rows[0].cells|
    else
      var most := Columns(rows[1..]);
      if most < |rows[0].cells| then |rows[0].cells| else most
  }

  function CodeArgs(lang: Option<string>, code: string): string {
    "block: true, " + (if lang.Some? then "lang: " + Quoted(Inline, lang.value) + ", " else "")
    + Quoted(Multiline, code)
  }

  function ListCall(start: Option<nat>, args: string): string {
    match start
    case Some(n) => if n != 1 then Call("enum", "start: " + Decimal(n) + ", " + args)
                    else Call("enum", args)
    case None => Call("list", args)
  }

  function Close(f: Frame, resolve: Resolver): Delivery {
    match f.kind
    case Document => Markup(f.buf)
    case Paragraph => Markup(f.buf + "\n\n")
    case Heading(level) =>
      Markup(Call("heading", "level: " + Decimal(level)) + Content(f.buf) + "\n\n")
    case BlockQuote => Markup(Call("quote", "block: true") + Content(Trim(f.buf)) + "\n\n")
    case CodeBlock(lang) => Markup(Call("raw", CodeArgs(lang, TrimEndNewlines(f.buf))) + "\n\n")
    case List(start) => Markup(ListCall(start, Join(ItemArgs(f.items), ", ")) + "\n\n")
    case Item => AsItem(f.buf)
    case Cell => AsItem(f.buf)
    case Row(header) => AsRow(TableRow(header, f.items))
    case Table =>
      var args := "columns: " + Decimal(Columns(f.rows)) + ", " + Join(CellArgs(f.rows), ", ");
      Markup(Call("table", args) + "\n\n")
    case Emphasis => Markup(Wrap("emph", f.buf))
    case Strong => Markup(Wrap("strong", f.buf))
    case Strikethrough => Markup(Wrap("strike", f.buf))
    case Link(url) => Markup(Call("link", Quoted(Inline, url)) + Content(f.buf))
    case Image(url) =>
      match resolve(url)
      case Some(path) => Markup(Call("image", Quoted(Inline, path)))
      case None => Markup(f.buf)
  }

  function Deliver(f: Frame, d: Delivery): Frame {
    match d
    case Markup(text) => f.(buf := f.buf + text)
    case AsItem(item) => f.(items := f.items + [item])
    case AsRow(row) => f.(rows := f.rows + [row])
  }

  // ---- one event, and a whole stream ----

  predicate ValidStack(stack: seq<Frame>) {
    |stack| > 0 && stack[0].kind.Document?
  }

  function Top(stack: seq<Frame>): Frame
    requires |stack| > 0
  {
    stack[|stack| - 1]
  }

  function ReplaceTop(stack: seq<Frame>, f: Frame): seq<Frame>
    requires |stack| > 0
  {
    stack[..|stack| - 1] + [f]
  }

  /** The effect of one event.  An `End` with only the root open leaves the stack as it was. */
  function Next(stack: seq<Frame>, e: Event, resolve: Resolver): (next: seq<Frame>)
    requires ValidStack(stack)
    ensures ValidStack(next)
  {
    match e
    case Start(tag) => stack + [NewFrame(OpenKind(tag))]
    case Leaf(a) =>
      ReplaceTop(stack, Deliver(Top(stack), Markup(AtomMarkup(a, Top(stack).kind.CodeBlock?))))
    case End =>
      if |stack| == 1 then stack
      else
        var below := stack[..|stack| - 1];
        ReplaceTop(below, Deliver(Top(below), Close(Top(stack), resolve)))
  }

  function NextAll(stack: seq<Frame>, events: seq<Event>, resolve: Resolver): (next: seq<Frame>)
    requires ValidStack(stack)
    ensures ValidStack(next)
  {
    if events == [] then stack
    else
      var n := |events| - 1;
      Next(NextAll(stack, events[..n], resolve), events[n], resolve)
  }

  function Convert(events: seq<Event>, resolve: Resolver): string {
    Trim(Top(NextAll([NewFrame(Document)], events, resolve)).buf)
  }

  class Machine {
    var stack: seq<Frame>
    const resolveImage: Resolver

    ghost predicate Valid()
      reads this
    {
      ValidStack(stack)
    }

    constructor (resolve: Resolver)
      ensures Valid() && stack == [NewFrame(Document)] && resolveImage == resolve
    {
      stack := [NewFrame(Document)];
      resolveImage := resolve;
    }

    method Push(s: string)
      requires |stack| > 0
      modifies this
      ensures stack == ReplaceTop(old(stack), Deliver(Top(old(stack)), Markup(s)))
    {
      var n := |stack| - 1;
      stack := stack[n := stack[n].(buf := stack[n].buf + s)];
    }

    method Open(kind: Kind)
      modifies this
      ensures stack == old(stack) + [NewFrame(kind)]
    {
      stack := stack + [NewFrame(kind)];
    }

    method HandleEvent(e: Event)
      requires Valid()
      modifies this
      ensures Valid() && stack == Next(old(stack), e, resolveImage)
    {
      hide Call, Quoted;
      match e {
        case Start(tag) => Open(OpenKind(tag));
        case End => CloseTop();
        case Leaf(Text(text)) => PushText(text);
        case Leaf(Code(code)) =>
          var lit := TypstString(code);
          Push(Call("raw", lit));
        case Leaf(SoftBreak) => Push(" ");
        case Leaf(HardBreak) => Push(Call("linebreak", ""));
        case Leaf(Rule) => Push(Call("line", "length: 100%") + "\n\n");
        case Leaf(TaskListMarker(done)) => Push(if done then "\U{2611} " else "\U{2610} ");
        case Leaf(Unsupported) =>
          assert stack[|stack| - 1].buf + "" == stack[|stack| - 1].buf;
          assert stack == ReplaceTop(stack, Deliver(Top(stack), Markup("")));
      }
    }

    method PushText(text: string)
      requires Valid()
      modifies this
      ensures Valid() && stack == Next(old(stack), Leaf(Text(text)), resolveImage)
    {
      if stack[|stack| - 1].kind.CodeBlock? {
        Push(text);
      } else {
        var lit := TypstString(text);
        Push("#" + lit);
      }
    }

    method CloseTop()
      requires Valid()
      modifies this
      ensures Valid() && stack == Next(old(stack), End, resolveImage)
    {
      hide Trim, TrimEndNewlines, Decimal, Join, ItemArgs, CellArgs, Columns, Content, Wrap, Call, ListCall, Quoted;
      var n := |stack| - 1;
      var frame := stack[n];
      stack := stack[..n];
      match frame.kind {
        case Document =>
          if stack == [] {
            stack := [frame];
          } else {
            Push(frame.buf);
          }
        case Paragraph =>
          Push(frame.buf);
          Push("\n\n");
          assert Top(old(stack)[..n]).buf + frame.buf + "\n\n"
              == Top(old(stack)[..n]).buf + (frame.buf + "\n\n");
        case Heading(level) =>
          Push(Call("heading", "level: " + Decimal(level)) + Content(frame.buf) + "\n\n");
        case BlockQuote => Push(Call("quote", "block: true") + Content(Trim(frame.buf)) + "\n\n");
        case CodeBlock(lang) =>
          var code := TypstStringMultiline(TrimEndNewlines(frame.buf));
          var args := "block: true, ";
          if lang.Some? {
            var name := TypstString(lang.value);
            args := args + ("lang: " + name + ", ");
          } else {
            assert args == args + "";
          }
          assert args + code == CodeArgs(lang, TrimEndNewlines(frame.buf));
          Push(Call("raw", args + code) + "\n\n");
        case List(start) => Push(ListCall(start, Join(ItemArgs(frame.items), ", ")) + "\n\n");
        case Item => HandUp(AsItem(frame.buf));
        case Cell => HandUp(AsItem(frame.buf));
        case Row(header) => HandUp(AsRow(TableRow(header, frame.items)));
        case Table =>
          var cells := TableCells(frame.rows);
          var cols := "columns: " + Decimal(Columns(frame.rows)) + ", ";
          Push(Call("table", cols + Join(cells, ", ")) + "\n\n");
        case Emphasis => Push(Wrap("emph", frame.buf));
        case Strong => Push(Wrap("strong", frame.buf));
        case Strikethrough => Push(Wrap("strike", frame.buf));
        case Link(url) =>
          var lit := TypstString(url);
          Push(Call("link", lit) + Content(frame.buf));
        case Image(url) =>
          match resolveImage(url) {
            case Some(path) =>
              var lit := TypstString(path);
              Push(Call("image", lit));
            case None => Push(frame.buf);
          }
      }
    }

    /** Give a finished item, cell or row to the innermost open frame. */
    method HandUp(d: Delivery)
      requires |stack| > 0
      modifies this
      ensures stack == ReplaceTop(old(stack), Deliver(Top(old(stack)), d))
    {
      var n := |stack| - 1;
      stack := stack[n := Deliver(stack[n], d)];
    }

    method Finish() returns (out: string)
      requires Valid()
      modifies this
      ensures out == Trim(Top(old(stack)).buf)
      ensures stack == old(stack)[..|old(stack)| - 1]
    {
      var root := stack[|stack| - 1];
      stack := stack[..|stack| - 1];
      out := Trim(root.buf);
    }
  }

  method TableCells(rows: seq<TableRow>) returns (cells: seq<string>)
    ensures cells == CellArgs(rows)
  {
    cells := [];
    for i := 0 to |rows|
      invariant cells == CellArgs(rows[..i])
    {
      var row := rows[i];
      for j := 0 to |row.cells|
        invariant cells == CellArgs(rows[..i]) + RowArgs(row.header, row.cells)[..j]
      {
        if row.header {
          cells := cells + [Content(Wrap("strong", Trim(row.cells[j])))];
        } else {
          cells := cells + [Content(Trim(row.cells[j]))];
        }
      }
      assert rows[..i + 1][..i] == rows[..i];
    }
    assert rows[..|rows|] == rows;
  }

  /** The whole conversion; the markdown parser's output is the input. */
  method MarkdownToTypst(events: seq<Event>, resolve: Resolver) returns (out: string)
    ensures out == Convert(events, resolve)
  {
    var converter := new Machine(resolve);
    for i := 0 to |events|
      invariant converter.Valid() && converter.resolveImage == resolve
      invariant converter.stack == NextAll([NewFrame(Document)], events[..i], resolve)
    {
      assert events[..i + 1][..i] == events[..i];
      converter.HandleEvent(events[i]);
    }
    assert events[..|events|] == events;
    out := converter.Finish();
  }
}
