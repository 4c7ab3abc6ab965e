/** The rules page's markup (`scripts/arkhamdb.py`): its tags, the tree built
    from them, and the parser that repairs unclosed and crossing tags. */
module RulesMarkup {
  import opened Wrappers

  datatype Tag =
    | RootTag
    // inline
    | A | B | Br | Cite | Em | I | Span | Strong
    // block
    | Blockquote | Dd | Div | H1 | H2 | H3 | Li | Ol | P | Table | Td | Th | Tr | Ul
    | OtherTag(name: string)

  predicate Inline(tag: Tag) {
    tag.A? || tag.B? || tag.Br? || tag.Cite? || tag.Em? || tag.I? || tag.Span? || tag.Strong?
  }

  predicate Block(tag: Tag) {
    !Inline(tag) && !tag.RootTag? && !tag.OtherTag?
  }

  predicate Known(tag: Tag) {
    Inline(tag) || Block(tag)
  }

  predicate Void(tag: Tag) {
    tag.Br?
  }

  /** Whether opening a `tag` closes an open `top`. */
  predicate Closes(tag: Tag, top: Tag) {
    match tag
    case P => top.P?
    case H1 => top.P?
    case H2 => top.P?
    case H3 => top.P?
    case Ul => top.P?
    case Ol => top.P?
    case Table => top.P?
    case Blockquote => top.P?
    case Div => top.P?
    case Li => top.P? || top.Li? || top.Dd?
    case Dd => top.P? || top.Li? || top.Dd?
    case Tr => top.P? || top.Td? || top.Th? || top.Tr?
    case Td => top.P? || top.Td? || top.Th?
    case Th => top.P? || top.Td? || top.Th?
    case _ => false
  }

  type Attrs = map<string, string>

  datatype Node = Text(data: string) | Element(tag: Tag, attrs: Attrs, children: seq<Node>)

  /** A tag as written, without what it holds. */
  datatype Mark = Mark(tag: Tag, attrs: Attrs)

  datatype Event = Start(tag: Tag, attrs: Attrs) | End(tag: Tag) | Data(data: string)

  datatype ParseError = UnknownTag(tag: Tag) | UnknownClosingTag(tag: Tag)

  /** An open node. Its last child is the open node above it, which is not among
      `children` until it closes. */
  datatype Frame = Frame(tag: Tag, attrs: Attrs, children: seq<Node>)

  function NodeOf(frame: Frame): Node {
    Element(frame.tag, frame.attrs, frame.children)
  }

  function MarkOf(frame: Frame): Mark {
    Mark(frame.tag, frame.attrs)
  }

  function Opened(mark: Mark): Frame {
    Frame(mark.tag, mark.attrs, [])
  }

  const EMPTY_STACK: seq<Frame> := [Frame(RootTag, map[], [])]

  // ----- the stack -----

  function Top(stack: seq<Frame>): Frame
    requires stack != []
  {
    stack[|stack| - 1]
  }

  /** Put `children` under the top node. */
  function WithChildren(stack: seq<Frame>, children: seq<Node>): seq<Frame>
    requires stack != []
  {
    stack[..|stack| - 1] + [Top(stack).(children := children)]
  }

  /** Close the top node: it stays where it is, its parent's last child. */
  function Pop(stack: seq<Frame>): (popped: seq<Frame>)
    requires |stack| > 1
    ensures |popped| == |stack| - 1
  {
    var below := stack[..|stack| - 1];
    WithChildren(below, Top(below).children + [NodeOf(Top(stack))])
  }

  /** `list.remove`: drop the first node equal to `node`. */
  function RemoveFirst(nodes: seq<Node>, node: Node): seq<Node> {
    if nodes == [] then []
    else if nodes[0] == node then nodes[1..]
    else [nodes[0]] + RemoveFirst(nodes[1..], node)
  }

  /** Pop an open inline node, and drop an empty one from its parent. */
  function PopInline(stack: seq<Frame>): (popped: seq<Frame>)
    requires |stack| > 1
    ensures |popped| == |stack| - 1
  {
    var popped := Pop(stack);
    if Top(stack).children != [] then popped
    else WithChildren(popped, RemoveFirst(Top(popped).children, NodeOf(Top(stack))))
  }

  function PopInlines(stack: seq<Frame>): (popped: seq<Frame>)
    requires stack != []
    ensures popped != []
    decreases |stack|
  {
    if |stack| > 1 && Inline(Top(stack).tag) then PopInlines(PopInline(stack)) else stack
  }

  /** The open inline nodes, to open again, outermost first. */
  function OpenInlines(stack: seq<Frame>): seq<Mark>
    requires stack != []
    decreases |stack|
  {
    if |stack| > 1 && Inline(Top(stack).tag) then OpenInlines(PopInline(stack)) + [MarkOf(Top(stack))] else []
  }

  function AutoClose(stack: seq<Frame>, tag: Tag): (closed: seq<Frame>)
    requires stack != []
    ensures closed != []
    decreases |stack|
  {
    if |stack| > 1 && Closes(tag, Top(stack).tag) then AutoClose(Pop(stack), tag) else stack
  }

  function OpenAll(stack: seq<Frame>, marks: seq<Mark>): (opened': seq<Frame>)
    requires stack != []
    ensures opened' != []
    decreases |marks|
  {
    if marks == [] then stack else OpenAll(stack + [Opened(marks[0])], marks[1..])
  }

  function StartTag(stack: seq<Frame>, tag: Tag, attrs: Attrs): Result<seq<Frame>, ParseError>
    requires stack != []
  {
    if !Known(tag) then Failure(UnknownTag(tag))
    else
      var reopen := if Block(tag) then OpenInlines(stack) else [];
      var outside := if Block(tag) then PopInlines(stack) else stack;
      var parent := AutoClose(outside, tag);
      if Void(tag) then Success(WithChildren(parent, Top(parent).children + [Element(tag, attrs, [])]))
      else Success(OpenAll(parent + [Frame(tag, attrs, [])], reopen))
  }

  /** The depth, above the root, of the innermost open `tag`; 0 if there is none. */
  function Depth(stack: seq<Frame>, tag: Tag): (depth: nat)
    requires stack != []
    ensures depth < |stack|
    decreases |stack|
  {
    if |stack| == 1 then 0
    else if Top(stack).tag == tag then |stack| - 1
    else Depth(stack[..|stack| - 1], tag)
  }

  /** Close every node from `depth` up. */
  function CloseFrom(stack: seq<Frame>, depth: nat): (closed: seq<Frame>)
    requires stack != [] && 0 < depth
    ensures closed != []
    decreases |stack|
  {
    if |stack| > depth then CloseFrom(Pop(stack), depth) else stack
  }

  function EndTag(stack: seq<Frame>, tag: Tag): Result<seq<Frame>, ParseError>
    requires stack != []
  {
    if !Known(tag) then Failure(UnknownClosingTag(tag))
    else if Depth(stack, tag) == 0 then Success(stack)
    else Success(CloseFrom(stack, Depth(stack, tag)))
  }

  function AddData(stack: seq<Frame>, data: string): seq<Frame>
    requires stack != []
  {
    WithChildren(stack, Top(stack).children + [Text(data)])
  }

  function Handle(stack: seq<Frame>, event: Event): (r: Result<seq<Frame>, ParseError>)
    requires stack != []
    ensures r.Success? ==> r.value != []
  {
    match event
    case Start(tag, attrs) => StartTag(stack, tag, attrs)
    case End(tag) => EndTag(stack, tag)
    case Data(data) => Success(AddData(stack, data))
  }

  function HandleAll(stack: seq<Frame>, events: seq<Event>): (r: Result<seq<Frame>, ParseError>)
    requires stack != []
    ensures r.Success? ==> r.value != []
    decreases |events|
  {
    if events == [] then Success(stack)
    else
      var next :- Handle(stack, events[0]);
      HandleAll(next, events[1..])
  }

  /** The tree the stack stands for: its nodes, each in its parent. */
  function Tree(stack: seq<Frame>): (tree: Node)
    requires stack != []
    ensures tree.Element?
    decreases |stack|
  {
    if |stack| == 1 then NodeOf(stack[0]) else Tree(Pop(stack))
  }

  /** The tree a parse leaves at its root. */
  function Parse(events: seq<Event>): (r: Result<Node, ParseError>)
    ensures r.Success? ==> r.value.Element?
  {
    var stack :- HandleAll(EMPTY_STACK, events);
    Success(Tree(stack))
  }

  // ----- what the tree says -----

  /** The tags open at one point of the page: the blocks, and the inline tags,
      each outermost first. */
  datatype Nesting = Nesting(blocks: seq<Mark>, inlines: seq<Mark>)

  const OUTSIDE: Nesting := Nesting([], [])

  /** A piece of the page, with the tags open around it: some text, or a tag that
      holds nothing. */
  datatype Piece = Words(data: string, within: Nesting) | Lone(mark: Mark, within: Nesting)

  function Under(within: Nesting, tag: Tag, attrs: Attrs): Nesting {
    if Inline(tag) then within.(inlines := within.inlines + [Mark(tag, attrs)])
    else if Block(tag) then within.(blocks := within.blocks + [Mark(tag, attrs)])
    else within
  }

  /** The pieces in `nodes`, in order, where the tags of `within` are around
      them. */
  function Pieces(nodes: seq<Node>, within: Nesting): seq<Piece>
    decreases nodes
  {
    if nodes == [] then []
    else
      (match nodes[0]
       case Text(data) => [Words(data, within)]
       case Element(tag, attrs, children) =>
         if Void(tag) then [Lone(Mark(tag, attrs), within)] else Pieces(children, Under(within, tag, attrs)))
      + Pieces(nodes[1..], within)
  }

  function PiecesOf(node: Node): seq<Piece> {
    Pieces([node], OUTSIDE)
  }

  function TextIn(pieces: seq<Piece>): string {
    if pieces == [] then "" else (if pieces[0].Words? then pieces[0].data else "") + TextIn(pieces[1..])
  }
}
