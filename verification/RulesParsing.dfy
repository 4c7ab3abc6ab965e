/** What the repairing parser keeps: the text and breaks, in order, and around
    each piece the blocks and inline tags that were open when it was read. */
module RulesParsing {
  import opened Wrappers
  import opened RulesMarkup

  /** The pieces in the nodes of `stack`, inside `within`. */
  function StackPieces(stack: seq<Frame>, within: Nesting): seq<Piece> {
    if stack == [] then []
    else
      var under := Under(within, stack[0].tag, stack[0].attrs);
      Pieces(stack[0].children, under) + StackPieces(stack[1..], under)
  }

  /** The tags open in `stack`, inside `within`. */
  function Around(stack: seq<Frame>, within: Nesting): Nesting {
    if stack == [] then within else Around(stack[1..], Under(within, stack[0].tag, stack[0].attrs))
  }

  lemma {:induction false} PiecesAppend(a: seq<Node>, b: seq<Node>, within: Nesting)
    ensures Pieces(a + b, within) == Pieces(a, within) + Pieces(b, within)
  {
    if a == [] {
      assert a + b == b;
    } else {
      assert (a + b)[1..] == a[1..] + b;
      PiecesAppend(a[1..], b, within);
    }
  }

  lemma {:induction false} StackPiecesAppend(a: seq<Frame>, b: seq<Frame>, within: Nesting)
    ensures StackPieces(a + b, within) == StackPieces(a, within) + StackPieces(b, Around(a, within))
    ensures Around(a + b, within) == Around(b, Around(a, within))
  {
    if a == [] {
      assert a + b == b;
    } else {
      assert (a + b)[1..] == a[1..] + b;
      StackPiecesAppend(a[1..], b, Under(within, a[0].tag, a[0].attrs));
    }
  }

  /** Changing the top node's children changes only its own pieces. */
  lemma TopPieces(stack: seq<Frame>, children: seq<Node>)
    requires stack != []
    ensures StackPieces(WithChildren(stack, children), OUTSIDE)
            == StackPieces(stack[..|stack| - 1], OUTSIDE) + Pieces(children, Around(stack, OUTSIDE))
    ensures Around(WithChildren(stack, children), OUTSIDE) == Around(stack, OUTSIDE)
  {
    var below, top := stack[..|stack| - 1], Top(stack);
    var within := Around(below, OUTSIDE);
    assert stack == below + [top];
    StackPiecesAppend(below, [top], OUTSIDE);
    StackPiecesAppend(below, [top.(children := children)], OUTSIDE);
    assert [top.(children := children)][1..] == [] && [top][1..] == [];
    assert StackPieces([top.(children := children)], within) == Pieces(children, Under(within, top.tag, top.attrs)) + [];
  }

  lemma WholePieces(stack: seq<Frame>)
    requires stack != []
    ensures StackPieces(stack, OUTSIDE) == StackPieces(stack[..|stack| - 1], OUTSIDE) + Pieces(Top(stack).children, Around(stack, OUTSIDE))
  {
    hide StackPieces, Around, Pieces;
    TopPieces(stack, Top(stack).children);
    assert WithChildren(stack, Top(stack).children) == stack;
  }

  /** No open tag is one that holds nothing. */
  predicate NoVoid(stack: seq<Frame>) {
    forall i | 0 <= i < |stack| :: !Void(stack[i].tag)
  }

  lemma PopNoVoid(stack: seq<Frame>)
    requires |stack| > 1 && NoVoid(stack)
    ensures NoVoid(Pop(stack)) && NoVoid(PopInline(stack))
  {
  }

  lemma PopPieces(stack: seq<Frame>)
    requires |stack| > 1 && !Void(Top(stack).tag)
    ensures StackPieces(Pop(stack), OUTSIDE) == StackPieces(stack, OUTSIDE)
  {
    hide StackPieces, Around, Pieces, WithChildren, Under;
    var below, top := stack[..|stack| - 1], Top(stack);
    var within := Around(below, OUTSIDE);
    assert StackPieces(stack, OUTSIDE) == StackPieces(below, OUTSIDE) + Pieces(top.children, Around(stack, OUTSIDE)) by {
      WholePieces(stack);
    }
    assert Around(stack, OUTSIDE) == Under(within, top.tag, top.attrs) by {
      StyleAbove(below, top);
      assert stack == below + [top];
    }
    NodePieces(top, within);
    AddPieces(below, NodeOf(top));
  }

  /** A node put last under the top one adds its pieces. */
  lemma AddPieces(stack: seq<Frame>, node: Node)
    requires stack != []
    ensures StackPieces(WithChildren(stack, Top(stack).children + [node]), OUTSIDE)
            == StackPieces(stack, OUTSIDE) + Pieces([node], Around(stack, OUTSIDE))
  {
    hide StackPieces, Around, Pieces;
    WholePieces(stack);
    TopPieces(stack, Top(stack).children + [node]);
    PiecesAppend(Top(stack).children, [node], Around(stack, OUTSIDE));
  }

  lemma NodePieces(top: Frame, within: Nesting)
    requires !Void(top.tag)
    ensures Pieces([NodeOf(top)], within) == Pieces(top.children, Under(within, top.tag, top.attrs))
  {
    assert [NodeOf(top)][1..] == [];
  }

  lemma StyleAbove(below: seq<Frame>, top: Frame)
    ensures Around(below + [top], OUTSIDE) == Under(Around(below, OUTSIDE), top.tag, top.attrs)
  {
    StackPiecesAppend(below, [top], OUTSIDE);
    assert [top][1..] == [];
  }

  /** Dropping an empty node, whichever of the equal ones goes, drops no text. */
  lemma {:induction false} RemoveFirstPieces(nodes: seq<Node>, node: Node, within: Nesting)
    requires node.Element? && node.children == [] && !Void(node.tag)
    ensures Pieces(RemoveFirst(nodes, node), within) == Pieces(nodes, within)
  {
    if nodes != [] && nodes[0] != node {
      RemoveFirstPieces(nodes[1..], node, within);
      var rest := RemoveFirst(nodes[1..], node);
      assert ([nodes[0]] + rest)[1..] == rest;
    }
  }

  lemma PopInlinePieces(stack: seq<Frame>)
    requires |stack| > 1 && !Void(Top(stack).tag)
    ensures StackPieces(PopInline(stack), OUTSIDE) == StackPieces(stack, OUTSIDE)
  {
    PopPieces(stack);
    if Top(stack).children == [] {
      var popped := Pop(stack);
      WholePieces(popped);
      TopPieces(popped, RemoveFirst(Top(popped).children, NodeOf(Top(stack))));
      RemoveFirstPieces(Top(popped).children, NodeOf(Top(stack)), Around(popped, OUTSIDE));
    }
  }

  lemma {:induction false} PopInlinesPieces(stack: seq<Frame>)
    requires stack != [] && NoVoid(stack)
    ensures StackPieces(PopInlines(stack), OUTSIDE) == StackPieces(stack, OUTSIDE)
    ensures NoVoid(PopInlines(stack))
    decreases |stack|
  {
    if |stack| > 1 && Inline(Top(stack).tag) {
      PopNoVoid(stack);
      PopInlinePieces(stack);
      PopInlinesPieces(PopInline(stack));
    }
  }

  lemma {:induction false} AutoClosePieces(stack: seq<Frame>, tag: Tag)
    requires stack != [] && NoVoid(stack)
    ensures StackPieces(AutoClose(stack, tag), OUTSIDE) == StackPieces(stack, OUTSIDE)
    decreases |stack|
  {
    if |stack| > 1 && Closes(tag, Top(stack).tag) {
      PopNoVoid(stack);
      PopPieces(stack);
      AutoClosePieces(Pop(stack), tag);
    }
  }

  lemma {:induction false} CloseFromPieces(stack: seq<Frame>, depth: nat)
    requires stack != [] && 0 < depth && NoVoid(stack)
    ensures StackPieces(CloseFrom(stack, depth), OUTSIDE) == StackPieces(stack, OUTSIDE)
    decreases |stack|
  {
    if |stack| > depth {
      PopNoVoid(stack);
      PopPieces(stack);
      CloseFromPieces(Pop(stack), depth);
    }
  }

  lemma PushPieces(stack: seq<Frame>, mark: Mark)
    ensures StackPieces(stack + [Opened(mark)], OUTSIDE) == StackPieces(stack, OUTSIDE)
  {
    StackPiecesAppend(stack, [Opened(mark)], OUTSIDE);
    assert [Opened(mark)][1..] == [];
  }

  lemma {:induction false} OpenAllPieces(stack: seq<Frame>, marks: seq<Mark>)
    requires stack != []
    ensures StackPieces(OpenAll(stack, marks), OUTSIDE) == StackPieces(stack, OUTSIDE)
    decreases |marks|
  {
    if marks != [] {
      PushPieces(stack, marks[0]);
      OpenAllPieces(stack + [Opened(marks[0])], marks[1..]);
    }
  }

  /** What an event adds to the page where the tags of `n` are open. */
  function PieceOf(n: Nesting, event: Event): seq<Piece> {
    match event
    case Start(tag, attrs) => if Void(tag) then [Lone(Mark(tag, attrs), n)] else []
    case End(_) => []
    case Data(data) => [Words(data, n)]
  }

  /** A tag, opened or closed, and whatever it closes, drops and opens again,
      leaves every piece as it was; one that holds nothing is a piece itself. */
  lemma TagsKeepPieces(stack: seq<Frame>, event: Event)
    requires stack != [] && NoVoid(stack) && !event.Data? && Handle(stack, event).Success?
    ensures StackPieces(Handle(stack, event).value, OUTSIDE)
            == StackPieces(stack, OUTSIDE) + PieceOf(Around(stack, OUTSIDE), event)
  {
    match event
    case Start(tag, attrs) =>
      if Void(tag) {
        VoidPieces(stack, attrs, tag);
      } else {
        StartPieces(stack, tag, attrs);
      }
    case End(tag) =>
      if Depth(stack, tag) > 0 { CloseFromPieces(stack, Depth(stack, tag)); }
  }

  lemma StartPieces(stack: seq<Frame>, tag: Tag, attrs: Attrs)
    requires stack != [] && NoVoid(stack) && Known(tag) && !Void(tag)
    ensures StackPieces(StartTag(stack, tag, attrs).value, OUTSIDE) == StackPieces(stack, OUTSIDE)
  {
    var outside := if Block(tag) then PopInlines(stack) else stack;
    var parent := AutoClose(outside, tag);
    PopInlinesPieces(stack);
    AutoClosePieces(outside, tag);
    PushPieces(parent, Mark(tag, attrs));
    OpenAllPieces(parent + [Frame(tag, attrs, [])], if Block(tag) then OpenInlines(stack) else []);
  }

  lemma VoidPieces(stack: seq<Frame>, attrs: Attrs, tag: Tag)
    requires stack != [] && Void(tag)
    ensures StackPieces(StartTag(stack, tag, attrs).value, OUTSIDE)
            == StackPieces(stack, OUTSIDE) + [Lone(Mark(tag, attrs), Around(stack, OUTSIDE))]
  {
    var node := Element(tag, attrs, []);
    AddPieces(stack, node);
    assert [node][1..] == [];
    assert Pieces([node], Around(stack, OUTSIDE)) == [Lone(Mark(tag, attrs), Around(stack, OUTSIDE))] + [];
  }

  lemma DataPieces(stack: seq<Frame>, data: string)
    requires stack != []
    ensures StackPieces(AddData(stack, data), OUTSIDE) == StackPieces(stack, OUTSIDE) + [Words(data, Around(stack, OUTSIDE))]
  {
    AddPieces(stack, Text(data));
    assert [Text(data)][1..] == [];
    assert Pieces([Text(data)], Around(stack, OUTSIDE)) == [Words(data, Around(stack, OUTSIDE))] + [];
  }

  lemma {:induction false} TreePieces(stack: seq<Frame>)
    requires stack != [] && NoVoid(stack) && stack[0].tag.RootTag?
    ensures PiecesOf(Tree(stack)) == StackPieces(stack, OUTSIDE)
    decreases |stack|
  {
    if |stack| == 1 {
      NodePieces(stack[0], OUTSIDE);
      assert stack[1..] == [];
    } else {
      PopNoVoid(stack);
      PopPieces(stack);
      TreePieces(Pop(stack));
    }
  }

  // ----- blocks and inlines, apart -----

  const ROOT: Mark := Mark(RootTag, map[])

  ghost predicate ValidNesting(n: Nesting) {
    && (forall i | 0 <= i < |n.blocks| :: Block(n.blocks[i].tag))
    && (forall i | 0 <= i < |n.inlines| :: Inline(n.inlines[i].tag) && !Void(n.inlines[i].tag))
  }

  function Flat(n: Nesting): seq<Mark> {
    [ROOT] + n.blocks + n.inlines
  }

  function Marks(stack: seq<Frame>): (marks: seq<Mark>)
    ensures |marks| == |stack|
  {
    seq(|stack|, i requires 0 <= i < |stack| => MarkOf(stack[i]))
  }

  /** How many of `marks` are open up to and with the innermost `tag`; 0 if
      there is none. */
  function LastOpen(marks: seq<Mark>, tag: Tag): (count: nat)
    ensures count <= |marks|
  {
    if marks == [] then 0
    else if marks[|marks| - 1].tag == tag then |marks|
    else LastOpen(marks[..|marks| - 1], tag)
  }

  /** What opening a `tag` closes: every block an open paragraph; an item or a
      note another; a cell another; a row a cell or a row. */
  predicate Shuts(tag: Tag, block: Tag) {
    || block == P
    || (tag in {Li, Dd} && block in {Li, Dd})
    || (tag in {Td, Th} && block in {Td, Th})
    || (tag == Tr && block in {Td, Th, Tr})
  }

  /** The blocks left open where a `tag` opens: all but those at the end that it
      closes. */
  function LeftOpen(blocks: seq<Mark>, tag: Tag): seq<Mark> {
    if blocks != [] && Shuts(tag, blocks[|blocks| - 1].tag) then LeftOpen(blocks[..|blocks| - 1], tag) else blocks
  }

  lemma ShutsExactly(tag: Tag, block: Tag)
    requires Block(tag)
    ensures Closes(tag, block) <==> Shuts(tag, block)
  {
  }

  function Cut(marks: seq<Mark>, tag: Tag): seq<Mark> {
    if LastOpen(marks, tag) == 0 then marks else marks[..LastOpen(marks, tag) - 1]
  }

  /** What an event does to the open tags. A block opens around the inline tags,
      which stay open in it; closing a block closes every inline tag. */
  function Nest(n: Nesting, event: Event): Nesting {
    match event
    case Start(tag, attrs) =>
      if Void(tag) then n
      else if Inline(tag) then n.(inlines := n.inlines + [Mark(tag, attrs)])
      else n.(blocks := LeftOpen(n.blocks, tag) + [Mark(tag, attrs)])
    case End(tag) =>
      if Inline(tag) then n.(inlines := Cut(n.inlines, tag))
      else if LastOpen(n.blocks, tag) == 0 then n
      else Nesting(Cut(n.blocks, tag), [])
    case Data(_) => n
  }

  ghost predicate Fits(stack: seq<Frame>, n: Nesting) {
    stack != [] && ValidNesting(n) && Marks(stack) == Flat(n)
  }

  lemma PushMarks(stack: seq<Frame>, frame: Frame)
    ensures Marks(stack + [frame]) == Marks(stack) + [MarkOf(frame)]
  {
  }

  lemma PopMarks(stack: seq<Frame>)
    requires |stack| > 1
    ensures Marks(Pop(stack)) == Marks(stack)[..|stack| - 1]
    ensures Marks(PopInline(stack)) == Marks(stack)[..|stack| - 1]
  {
  }

  lemma {:induction false} PopInlinesFits(stack: seq<Frame>, n: Nesting)
    requires Fits(stack, n)
    ensures Fits(PopInlines(stack), n.(inlines := []))
    ensures OpenInlines(stack) == n.inlines
    decreases |n.inlines|
  {
    assert MarkOf(Top(stack)) == Flat(n)[|Flat(n)| - 1];
    if n.inlines != [] {
      var outer := n.(inlines := n.inlines[..|n.inlines| - 1]);
      PopMarks(stack);
      assert Marks(PopInline(stack)) == Flat(outer);
      PopInlinesFits(PopInline(stack), outer);
    }
  }

  lemma {:induction false} AutoCloseFits(stack: seq<Frame>, n: Nesting, tag: Tag)
    requires Fits(stack, n) && n.inlines == [] && Block(tag)
    ensures Fits(AutoClose(stack, tag), n.(blocks := LeftOpen(n.blocks, tag)))
    decreases |stack|
  {
    assert MarkOf(Top(stack)) == Flat(n)[|Flat(n)| - 1];
    ShutsExactly(tag, Top(stack).tag);
    if n.blocks != [] && Shuts(tag, n.blocks[|n.blocks| - 1].tag) {
      var outer := n.(blocks := n.blocks[..|n.blocks| - 1]);
      PopMarks(stack);
      assert Marks(Pop(stack)) == Flat(outer);
      AutoCloseFits(Pop(stack), outer, tag);
    }
  }

  lemma {:induction false} OpenAllFits(stack: seq<Frame>, n: Nesting, marks: seq<Mark>)
    requires Fits(stack, n) && ValidNesting(n.(inlines := n.inlines + marks))
    ensures Fits(OpenAll(stack, marks), n.(inlines := n.inlines + marks))
    decreases |marks|
  {
    if marks == [] {
      assert n.inlines + marks == n.inlines;
    } else {
      var inner := n.(inlines := n.inlines + [marks[0]]);
      assert n.inlines + marks == inner.inlines + marks[1..];
      PushMarks(stack, Opened(marks[0]));
      assert Marks(stack + [Opened(marks[0])]) == Flat(inner);
      assert forall i | 0 <= i < |inner.inlines| :: inner.inlines[i] == (n.inlines + marks)[i];
      OpenAllFits(stack + [Opened(marks[0])], inner, marks[1..]);
    }
  }

  lemma {:induction false} CloseFromMarks(stack: seq<Frame>, depth: nat)
    requires stack != [] && 0 < depth <= |stack|
    ensures Marks(CloseFrom(stack, depth)) == Marks(stack)[..depth]
    decreases |stack|
  {
    if |stack| > depth {
      PopMarks(stack);
      CloseFromMarks(Pop(stack), depth);
    } else {
      assert Marks(stack)[..depth] == Marks(stack);
    }
  }

  lemma {:induction false} LastOpenAppends(a: seq<Mark>, b: seq<Mark>, tag: Tag)
    ensures LastOpen(a + b, tag) == if LastOpen(b, tag) > 0 then |a| + LastOpen(b, tag) else LastOpen(a, tag)
    decreases |b|
  {
    if b == [] {
      assert a + b == a;
    } else {
      assert (a + b)[..|a + b| - 1] == a + b[..|b| - 1];
      LastOpenAppends(a, b[..|b| - 1], tag);
    }
  }

  lemma {:induction false} DepthIsLastOpen(stack: seq<Frame>, tag: Tag)
    requires stack != []
    ensures Depth(stack, tag) == LastOpen(Marks(stack)[1..], tag)
    decreases |stack|
  {
    if |stack| > 1 {
      var below := stack[..|stack| - 1];
      assert Marks(below)[1..] == Marks(stack)[1..][..|stack| - 2];
      DepthIsLastOpen(below, tag);
    }
  }

  lemma {:induction false} NotAmong(marks: seq<Mark>, tag: Tag)
    requires forall i | 0 <= i < |marks| :: marks[i].tag != tag
    ensures LastOpen(marks, tag) == 0
  {
    if marks != [] { NotAmong(marks[..|marks| - 1], tag); }
  }

  lemma EndDepth(stack: seq<Frame>, n: Nesting, tag: Tag)
    requires Fits(stack, n) && Known(tag)
    ensures Depth(stack, tag)
            == if Inline(tag) && LastOpen(n.inlines, tag) > 0 then |n.blocks| + LastOpen(n.inlines, tag)
               else if Inline(tag) then 0 else LastOpen(n.blocks, tag)
  {
    DepthIsLastOpen(stack, tag);
    assert Flat(n)[1..] == n.blocks + n.inlines;
    hide LastOpen, Depth, Marks, Flat;
    LastOpenAppends(n.blocks, n.inlines, tag);
    OnlyOneHas(n, tag);
  }

  /** A tag is open among the blocks or among the inline tags, never both. */
  lemma OnlyOneHas(n: Nesting, tag: Tag)
    requires ValidNesting(n) && Known(tag)
    ensures LastOpen(if Inline(tag) then n.blocks else n.inlines, tag) == 0
  {
    NotAmong(if Inline(tag) then n.blocks else n.inlines, tag);
    hide LastOpen;
  }

  lemma EndFits(stack: seq<Frame>, n: Nesting, tag: Tag)
    requires Fits(stack, n) && Known(tag)
    ensures Fits(EndTag(stack, tag).value, Nest(n, End(tag)))
  {
    hide LastOpen, Depth, Marks, CloseFrom, Flat, Cut;
    EndDepth(stack, n, tag);
    NestValid(n, tag);
    if Depth(stack, tag) > 0 {
      CloseFromMarks(stack, Depth(stack, tag));
      EndFlat(n, tag, Depth(stack, tag));
    } else {
      CutNothing(n, tag);
    }
  }

  lemma NestValid(n: Nesting, tag: Tag)
    requires ValidNesting(n)
    ensures ValidNesting(Nest(n, End(tag)))
  {
    hide LastOpen;
  }

  lemma CutNothing(n: Nesting, tag: Tag)
    requires LastOpen(if Inline(tag) then n.inlines else n.blocks, tag) == 0
    ensures Nest(n, End(tag)) == n
  {
    hide LastOpen;
  }

  lemma EndFlat(n: Nesting, tag: Tag, depth: nat)
    requires 0 < depth && Known(tag)
    requires depth == if Inline(tag) && LastOpen(n.inlines, tag) > 0 then |n.blocks| + LastOpen(n.inlines, tag)
                      else if Inline(tag) then 0 else LastOpen(n.blocks, tag)
    ensures Flat(n)[..depth] == Flat(Nest(n, End(tag)))
  {
    hide LastOpen, Inline, Block;
  }

  lemma StartFits(stack: seq<Frame>, n: Nesting, tag: Tag, attrs: Attrs)
    requires Fits(stack, n) && Known(tag)
    ensures Fits(StartTag(stack, tag, attrs).value, Nest(n, Start(tag, attrs)))
  {
    if Block(tag) {
      PopInlinesFits(stack, n);
      var bare := n.(inlines := []);
      var outside := PopInlines(stack);
      AutoCloseFits(outside, bare, tag);
      LeftOpenValid(n.blocks, tag);
      BlockOpens(AutoClose(outside, tag), LeftOpen(n.blocks, tag), n.inlines, Mark(tag, attrs));
    } else {
      InlineOpens(stack, n, tag, attrs);
    }
  }

  lemma {:induction false} LeftOpenValid(blocks: seq<Mark>, tag: Tag)
    ensures LeftOpen(blocks, tag) <= blocks
  {
    if blocks != [] && Shuts(tag, blocks[|blocks| - 1].tag) { LeftOpenValid(blocks[..|blocks| - 1], tag); }
  }

  lemma BlockOpens(parent: seq<Frame>, blocks: seq<Mark>, inlines: seq<Mark>, mark: Mark)
    requires Fits(parent, Nesting(blocks, [])) && Block(mark.tag) && ValidNesting(Nesting(blocks, inlines))
    ensures Fits(OpenAll(parent + [Opened(mark)], inlines), Nesting(blocks + [mark], inlines))
  {
    var inner := Nesting(blocks + [mark], []);
    PushMarks(parent, Opened(mark));
    assert Marks(parent + [Opened(mark)]) == Flat(inner);
    assert [] + inlines == inlines;
    OpenAllFits(parent + [Opened(mark)], inner, inlines);
  }

  lemma InlineOpens(stack: seq<Frame>, n: Nesting, tag: Tag, attrs: Attrs)
    requires Fits(stack, n) && Inline(tag)
    ensures Fits(StartTag(stack, tag, attrs).value, Nest(n, Start(tag, attrs)))
  {
    assert AutoClose(stack, tag) == stack;
    if Void(tag) {
      assert Marks(StartTag(stack, tag, attrs).value) == Marks(stack);
    } else {
      PushMarks(stack, Frame(tag, attrs, []));
      assert Marks(stack + [Frame(tag, attrs, [])]) == Flat(Nest(n, Start(tag, attrs)));
    }
  }

  lemma HandleFits(stack: seq<Frame>, n: Nesting, event: Event)
    requires Fits(stack, n) && Handle(stack, event).Success?
    ensures Fits(Handle(stack, event).value, Nest(n, event))
  {
    match event
    case Start(tag, attrs) => StartFits(stack, n, tag, attrs);
    case End(tag) => EndFits(stack, n, tag);
    case Data(data) => assert Marks(AddData(stack, data)) == Marks(stack);
  }

  lemma {:induction false} AroundBlocks(stack: seq<Frame>, within: Nesting)
    requires forall i | 0 <= i < |stack| :: Block(stack[i].tag)
    ensures Around(stack, within) == within.(blocks := within.blocks + Marks(stack))
  {
    if stack == [] {
      assert within.blocks + [] == within.blocks;
    } else {
      AroundBlocks(stack[1..], Under(within, stack[0].tag, stack[0].attrs));
      assert Marks(stack) == [MarkOf(stack[0])] + Marks(stack[1..]);
    }
  }

  lemma {:induction false} AroundInlines(stack: seq<Frame>, within: Nesting)
    requires forall i | 0 <= i < |stack| :: Inline(stack[i].tag)
    ensures Around(stack, within) == within.(inlines := within.inlines + Marks(stack))
  {
    if stack == [] {
      assert within.inlines + [] == within.inlines;
    } else {
      AroundInlines(stack[1..], Under(within, stack[0].tag, stack[0].attrs));
      assert Marks(stack) == [MarkOf(stack[0])] + Marks(stack[1..]);
    }
  }

  /** The frames of the blocks, and those of the inline tags. */
  lemma FitsSplits(stack: seq<Frame>, n: Nesting)
    requires Fits(stack, n)
    ensures |stack| == 1 + |n.blocks| + |n.inlines| && stack[0].tag.RootTag? && NoVoid(stack)
    ensures var inner := 1 + |n.blocks|;
      && Marks(stack[1..inner]) == n.blocks && Marks(stack[inner..]) == n.inlines
      && (forall i | 0 <= i < |stack[1..inner]| :: Block(stack[1..inner][i].tag))
      && (forall i | 0 <= i < |stack[inner..]| :: Inline(stack[inner..][i].tag))
  {
    var inner := 1 + |n.blocks|;
    assert |Flat(n)| == |stack|;
    assert forall i | 0 <= i < |stack| :: MarkOf(stack[i]) == Flat(n)[i];
    assert forall i | 0 <= i < |n.blocks| :: MarkOf(stack[1..inner][i]) == n.blocks[i];
    assert forall i | 0 <= i < |n.inlines| :: MarkOf(stack[inner..][i]) == n.inlines[i];
  }

  lemma FitsAround(stack: seq<Frame>, n: Nesting)
    requires Fits(stack, n)
    ensures Around(stack, OUTSIDE) == n
  {
    FitsSplits(stack, n);
    var inner := 1 + |n.blocks|;
    assert stack == [stack[0]] + stack[1..inner] + stack[inner..];
    hide Fits, Marks, NoVoid;
    StackPiecesAppend([stack[0]] + stack[1..inner], stack[inner..], OUTSIDE);
    StackPiecesAppend([stack[0]], stack[1..inner], OUTSIDE);
    RootAround(stack[0]);
    AroundBlocks(stack[1..inner], OUTSIDE);
    AroundInlines(stack[inner..], Nesting(n.blocks, []));
    assert [] + n.blocks == n.blocks && [] + n.inlines == n.inlines;
  }

  lemma RootAround(root: Frame)
    requires root.tag.RootTag?
    ensures Around([root], OUTSIDE) == OUTSIDE
  {
    assert [root][1..] == [];
  }

  // ----- what the reading keeps open -----

  /** The innermost of `marks` that is a `tag` is the one at `j`. */
  predicate Innermost(marks: seq<Mark>, tag: Tag, j: nat) {
    j < |marks| && marks[j].tag == tag && forall i | j < i < |marks| :: marks[i].tag != tag
  }

  lemma {:induction false} LastOpenExactly(marks: seq<Mark>, tag: Tag)
    ensures if LastOpen(marks, tag) == 0 then forall i | 0 <= i < |marks| :: marks[i].tag != tag
            else Innermost(marks, tag, LastOpen(marks, tag) - 1)
  {
    if marks != [] && marks[|marks| - 1].tag != tag {
      LastOpenExactly(marks[..|marks| - 1], tag);
      assert forall i | 0 <= i < |marks| - 1 :: marks[i] == marks[..|marks| - 1][i];
    }
  }

  /** Exactly the last blocks that are, one after the other, an open paragraph,
      or an item or note where one opens, or a cell where one opens, or a cell or
      row where a row opens, are closed by the opening `tag`. */
  lemma {:induction false} LeftOpenExactly(blocks: seq<Mark>, tag: Tag) returns (k: nat)
    ensures k <= |blocks| && LeftOpen(blocks, tag) == blocks[..k]
    ensures forall i | k <= i < |blocks| ::
              || blocks[i].tag == P
              || (tag in {Li, Dd} && blocks[i].tag in {Li, Dd})
              || (tag in {Td, Th} && blocks[i].tag in {Td, Th})
              || (tag == Tr && blocks[i].tag in {Td, Th, Tr})
    ensures k > 0 ==>
              && blocks[k - 1].tag != P
              && (blocks[k - 1].tag in {Li, Dd} ==> tag !in {Li, Dd})
              && (blocks[k - 1].tag in {Td, Th} ==> tag !in {Td, Th, Tr})
              && (blocks[k - 1].tag == Tr ==> tag != Tr)
  {
    if blocks != [] && Shuts(tag, blocks[|blocks| - 1].tag) {
      k := LeftOpenExactly(blocks[..|blocks| - 1], tag);
      assert blocks[..|blocks| - 1][..k] == blocks[..k];
    } else {
      k := |blocks|;
      assert blocks[..k] == blocks;
    }
  }

  /** **What stays open.** An open heading, list, table, quote or division, and
      all it is in, stays as it is through every tag but its own closing tag, or
      that of a block around it: no opening tag ever closes one. */
  lemma StaysOpen(n: Nesting, event: Event, k: nat)
    requires KnownEvent(event) && k < |n.blocks|
    requires n.blocks[k].tag !in {P, Li, Dd, Td, Th, Tr}
    ensures n.blocks[..k + 1] <= Nest(n, event).blocks
            <==> !(event.End? && Block(event.tag) && exists j | 0 <= j <= k :: Innermost(n.blocks, event.tag, j))
  {
    match event
    case Start(tag, _) =>
      var left := LeftOpenExactly(n.blocks, tag);
      assert k < left;
    case End(tag) =>
      LastOpenExactly(n.blocks, tag);
    case Data(_) =>
  }

  /** What a closing tag closes: everything in the innermost open one of its
      kind, inline tags included if that is a block; or nothing. */
  lemma EndExactly(n: Nesting, tag: Tag)
    requires Known(tag)
    ensures var among := if Inline(tag) then n.inlines else n.blocks;
            var left := Nest(n, End(tag));
            if forall i | 0 <= i < |among| :: among[i].tag != tag then left == n
            else exists j | 0 <= j < |among| ::
              && Innermost(among, tag, j)
              && left == if Inline(tag) then Nesting(n.blocks, n.inlines[..j]) else Nesting(n.blocks[..j], [])
  {
    LastOpenExactly(if Inline(tag) then n.inlines else n.blocks, tag);
    hide LastOpen;
  }

  // ----- the main result -----

  /** The pieces the events spell, each inside the tags then open. */
  function Spelled(n: Nesting, events: seq<Event>): seq<Piece>
    decreases |events|
  {
    if events == [] then []
    else PieceOf(n, events[0]) + Spelled(Nest(n, events[0]), events[1..])
  }

  function NestAll(n: Nesting, events: seq<Event>): Nesting
    decreases |events|
  {
    if events == [] then n else NestAll(Nest(n, events[0]), events[1..])
  }

  /** **The stack is always the root, then blocks, then inline tags**: the two
      that an independent reading of the tags keeps apart. */
  lemma {:induction false} HandleAllFits(stack: seq<Frame>, n: Nesting, events: seq<Event>)
    requires Fits(stack, n) && HandleAll(stack, events).Success?
    ensures Fits(HandleAll(stack, events).value, NestAll(n, events))
    decreases |events|
  {
    if events != [] {
      HandleFits(stack, n, events[0]);
      hide Handle, Fits;
      HandleAllFits(Handle(stack, events[0]).value, Nest(n, events[0]), events[1..]);
    }
  }

  lemma {:induction false} HandleAllPieces(stack: seq<Frame>, n: Nesting, events: seq<Event>)
    requires Fits(stack, n) && HandleAll(stack, events).Success?
    ensures StackPieces(HandleAll(stack, events).value, OUTSIDE) == StackPieces(stack, OUTSIDE) + Spelled(n, events)
    decreases |events|
  {
    hide StackPieces, Around, Handle, Nest;
    if events != [] {
      var next, m := Handle(stack, events[0]).value, Nest(n, events[0]);
      HandleFits(stack, n, events[0]);
      StepPieces(stack, n, events[0]);
      HandleAllPieces(next, m, events[1..]);
      assert Spelled(n, events) == PieceOf(n, events[0]) + Spelled(m, events[1..]);
      assert HandleAll(stack, events) == HandleAll(next, events[1..]);
      hide HandleAll, Spelled, Fits;
    }
  }

  lemma StepPieces(stack: seq<Frame>, n: Nesting, event: Event)
    requires Fits(stack, n) && Handle(stack, event).Success?
    ensures StackPieces(Handle(stack, event).value, OUTSIDE) == StackPieces(stack, OUTSIDE) + PieceOf(n, event)
  {
    FitsAround(stack, n);
    FitsSplits(stack, n);
    hide StackPieces, Around, Handle, Fits;
    HandlePieces(stack, event);
  }

  lemma HandlePieces(stack: seq<Frame>, event: Event)
    requires stack != [] && NoVoid(stack) && Handle(stack, event).Success?
    ensures StackPieces(Handle(stack, event).value, OUTSIDE)
            == StackPieces(stack, OUTSIDE) + PieceOf(Around(stack, OUTSIDE), event)
  {
    if event.Data? { DataPieces(stack, event.data); } else { TagsKeepPieces(stack, event); }
  }

  /** **The parser conserves the page.** The pieces of the tree are the data and
      the breaks of the page, in order, each inside exactly the blocks and the
      inline tags that an independent reading keeps open: auto-closing,
      re-opening, dropping emptied tags and ignoring stray closes lose, repeat,
      restyle and move nothing. */
  lemma ParseConserves(events: seq<Event>)
    requires Parse(events).Success?
    ensures PiecesOf(Parse(events).value) == Spelled(OUTSIDE, events)
  {
    var none := OUTSIDE;
    assert Marks(EMPTY_STACK) == Flat(none);
    HandleAllPieces(EMPTY_STACK, none, events);
    HandleAllFits(EMPTY_STACK, none, events);
    var stack := HandleAll(EMPTY_STACK, events).value;
    FitsSplits(stack, NestAll(none, events));
    TreePieces(stack);
    assert StackPieces(EMPTY_STACK, OUTSIDE) == [] by { assert EMPTY_STACK[1..] == []; }
  }

  function DataIn(events: seq<Event>): string {
    if events == [] then "" else (if events[0].Data? then events[0].data else "") + DataIn(events[1..])
  }

  lemma {:induction false} SpelledText(n: Nesting, events: seq<Event>)
    ensures TextIn(Spelled(n, events)) == DataIn(events)
    decreases |events|
  {
    if events != [] {
      SpelledText(Nest(n, events[0]), events[1..]);
      TextAppends(PieceOf(n, events[0]), Spelled(Nest(n, events[0]), events[1..]));
      var first := PieceOf(n, events[0]);
      if first != [] { assert first[1..] == []; }
    }
  }

  lemma {:induction false} TextAppends(a: seq<Piece>, b: seq<Piece>)
    ensures TextIn(a + b) == TextIn(a) + TextIn(b)
  {
    if a == [] {
      assert a + b == b;
    } else {
      assert (a + b)[1..] == a[1..] + b;
      TextAppends(a[1..], b);
    }
  }

  lemma TextConserved(events: seq<Event>)
    requires Parse(events).Success?
    ensures TextIn(PiecesOf(Parse(events).value)) == DataIn(events)
  {
    ParseConserves(events);
    SpelledText(OUTSIDE, events);
  }

  predicate KnownEvent(event: Event) {
    match event
    case Start(tag, _) => Known(tag)
    case End(tag) => Known(tag)
    case Data(_) => true
  }

  /** A parse fails exactly on a tag it does not know. */
  lemma {:induction false} ParseFailsExactly(stack: seq<Frame>, events: seq<Event>)
    requires stack != []
    ensures HandleAll(stack, events).Success? <==> forall i | 0 <= i < |events| :: KnownEvent(events[i])
    decreases |events|
  {
    hide StartTag, EndTag, AddData;
    if events != [] {
      StepFailsExactly(stack, events[0]);
      if Handle(stack, events[0]).Success? {
        ParseFailsExactly(Handle(stack, events[0]).value, events[1..]);
        assert forall i | 1 <= i < |events| :: events[i] == events[1..][i - 1];
        assert forall i | 0 <= i < |events[1..]| :: events[1..][i] == events[i + 1];
      }
    }
  }

  lemma StepFailsExactly(stack: seq<Frame>, event: Event)
    requires stack != []
    ensures Handle(stack, event).Success? <==> KnownEvent(event)
  {
  }
}
