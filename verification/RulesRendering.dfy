/** The shape of a parsed rules page, and what it spares the renderer
    (`Renderer.inline`, `Renderer.blocks`). */
module RulesRendering {
  import opened Wrappers
  import opened RulesMarkup
  import opened RulesParsing

  // ----- the shape -----

  /** Whether a parse ever puts a `child` directly under a `parent`. */
  predicate Allowed(parent: Tag, child: Tag) {
    Known(child) && !(Block(child) && Inline(parent)) && !Closes(child, parent)
  }

  /** Every node among `nodes`, under a `parent`, and all they hold, is where it
      is allowed. */
  predicate Sound(parent: Tag, nodes: seq<Node>)
    decreases nodes
  {
    nodes == []
    || (&& (nodes[0].Element? ==> Allowed(parent, nodes[0].tag) && Sound(nodes[0].tag, nodes[0].children))
        && Sound(parent, nodes[1..]))
  }

  ghost predicate StackSound(stack: seq<Frame>) {
    && (forall i | 0 <= i < |stack| :: Sound(stack[i].tag, stack[i].children))
    && (forall i | 0 < i < |stack| :: Allowed(stack[i - 1].tag, stack[i].tag))
  }

  lemma {:induction false} SoundAppends(parent: Tag, a: seq<Node>, b: seq<Node>)
    requires Sound(parent, a) && Sound(parent, b)
    ensures Sound(parent, a + b)
  {
    if a == [] {
      assert a + b == b;
    } else {
      assert (a + b)[1..] == a[1..] + b;
      SoundAppends(parent, a[1..], b);
    }
  }

  lemma {:induction false} SoundRemoves(parent: Tag, nodes: seq<Node>, node: Node)
    requires Sound(parent, nodes)
    ensures Sound(parent, RemoveFirst(nodes, node))
  {
    if nodes != [] && nodes[0] != node {
      SoundRemoves(parent, nodes[1..], node);
      var rest := RemoveFirst(nodes[1..], node);
      assert ([nodes[0]] + rest)[1..] == rest;
    }
  }

  lemma AddSound(stack: seq<Frame>, node: Node)
    requires stack != [] && StackSound(stack) && Sound(Top(stack).tag, [node])
    ensures StackSound(WithChildren(stack, Top(stack).children + [node]))
  {
    SoundAppends(Top(stack).tag, Top(stack).children, [node]);
    hide Sound, Allowed;
  }

  lemma PopSound(stack: seq<Frame>)
    requires |stack| > 1 && StackSound(stack)
    ensures StackSound(Pop(stack))
  {
    var below := stack[..|stack| - 1];
    assert [NodeOf(Top(stack))][1..] == [];
    assert Allowed(stack[|stack| - 2].tag, stack[|stack| - 1].tag);
    assert Sound(Top(below).tag, [NodeOf(Top(stack))]);
    hide Sound, Allowed;
    AddSound(below, NodeOf(Top(stack)));
  }

  lemma PopInlineSound(stack: seq<Frame>)
    requires |stack| > 1 && StackSound(stack)
    ensures StackSound(PopInline(stack))
  {
    hide Sound, Allowed;
    PopSound(stack);
    SoundRemoves(Top(Pop(stack)).tag, Top(Pop(stack)).children, NodeOf(Top(stack)));
  }

  lemma {:induction false} PopInlinesSound(stack: seq<Frame>)
    requires stack != [] && StackSound(stack)
    ensures StackSound(PopInlines(stack))
    decreases |stack|
  {
    hide StackSound, Pop, PopInline;
    if |stack| > 1 && Inline(Top(stack).tag) {
      PopInlineSound(stack);
      PopInlinesSound(PopInline(stack));
    }
  }

  lemma {:induction false} AutoCloseSound(stack: seq<Frame>, tag: Tag)
    requires stack != [] && StackSound(stack)
    ensures StackSound(AutoClose(stack, tag))
    decreases |stack|
  {
    hide StackSound, Pop, Closes;
    if |stack| > 1 && Closes(tag, Top(stack).tag) {
      PopSound(stack);
      AutoCloseSound(Pop(stack), tag);
    }
  }

  lemma {:induction false} CloseFromSound(stack: seq<Frame>, depth: nat)
    requires stack != [] && StackSound(stack) && 0 < depth
    ensures StackSound(CloseFrom(stack, depth))
    decreases |stack|
  {
    hide StackSound, Pop;
    if |stack| > depth {
      PopSound(stack);
      CloseFromSound(Pop(stack), depth);
    }
  }

  lemma PushSound(stack: seq<Frame>, mark: Mark)
    requires stack != [] && StackSound(stack) && Allowed(Top(stack).tag, mark.tag)
    ensures StackSound(stack + [Opened(mark)])
  {
    hide Allowed;
  }

  lemma {:induction false} OpenAllSound(stack: seq<Frame>, marks: seq<Mark>)
    requires stack != [] && StackSound(stack)
    requires forall i | 0 <= i < |marks| :: Inline(marks[i].tag)
    ensures StackSound(OpenAll(stack, marks))
    decreases |marks|
  {
    hide StackSound;
    if marks != [] {
      PushSound(stack, marks[0]);
      OpenAllSound(stack + [Opened(marks[0])], marks[1..]);
    }
  }

  lemma {:induction false} LeftOpenTop(blocks: seq<Mark>, tag: Tag)
    ensures LeftOpen(blocks, tag) != [] ==> !Closes(tag, LeftOpen(blocks, tag)[|LeftOpen(blocks, tag)| - 1].tag)
  {
    if blocks != [] && Closes(tag, blocks[|blocks| - 1].tag) { LeftOpenTop(blocks[..|blocks| - 1], tag); }
  }

  /** A block opens where it is allowed. */
  lemma ParentAllows(stack: seq<Frame>, n: Nesting, tag: Tag)
    requires Fits(stack, n) && Known(tag)
    ensures Allowed(Top(AutoClose(if Block(tag) then PopInlines(stack) else stack, tag)).tag, tag)
  {
    if Block(tag) {
      PopInlinesFits(stack, n);
      AutoCloseFits(PopInlines(stack), n.(inlines := []), tag);
      var parent := AutoClose(PopInlines(stack), tag);
      LeftOpenTop(n.blocks, tag);
      hide AutoClose, PopInlines, LeftOpen;
      BareTop(parent, LeftOpen(n.blocks, tag), tag);
    } else {
      hide PopInlines, Fits;
    }
  }

  lemma BareTop(parent: seq<Frame>, blocks: seq<Mark>, tag: Tag)
    requires Fits(parent, Nesting(blocks, [])) && Block(tag)
    requires blocks != [] ==> !Closes(tag, blocks[|blocks| - 1].tag)
    ensures Allowed(Top(parent).tag, tag)
  {
    assert MarkOf(Top(parent)) == Marks(parent)[|parent| - 1] == Flat(Nesting(blocks, []))[|blocks|];
  }

  lemma StartSound(stack: seq<Frame>, n: Nesting, tag: Tag, attrs: Attrs)
    requires Fits(stack, n) && StackSound(stack) && Known(tag)
    ensures StackSound(StartTag(stack, tag, attrs).value)
  {
    var outside := if Block(tag) then PopInlines(stack) else stack;
    var parent := AutoClose(outside, tag);
    ParentAllows(stack, n, tag);
    PopInlinesFits(stack, n);
    hide StackSound, Fits, PopInlines, AutoClose, OpenAll, OpenInlines, Allowed;
    PopInlinesSound(stack);
    AutoCloseSound(outside, tag);
    if Void(tag) {
      VoidSound(parent, tag, attrs);
    } else {
      PushSound(parent, Mark(tag, attrs));
      InlinesInline(n, stack);
      OpenAllSound(parent + [Frame(tag, attrs, [])], if Block(tag) then OpenInlines(stack) else []);
    }
  }

  lemma InlinesInline(n: Nesting, stack: seq<Frame>)
    requires Fits(stack, n)
    ensures forall i | 0 <= i < |n.inlines| :: Inline(n.inlines[i].tag)
  {
  }

  lemma VoidSound(parent: seq<Frame>, tag: Tag, attrs: Attrs)
    requires parent != [] && StackSound(parent) && Allowed(Top(parent).tag, tag)
    ensures StackSound(WithChildren(parent, Top(parent).children + [Element(tag, attrs, [])]))
  {
    assert [Element(tag, attrs, [])][1..] == [];
    AddSound(parent, Element(tag, attrs, []));
  }

  lemma HandleSound(stack: seq<Frame>, n: Nesting, event: Event)
    requires Fits(stack, n) && StackSound(stack) && Handle(stack, event).Success?
    ensures StackSound(Handle(stack, event).value)
  {
    assert stack != [];
    hide StackSound, StartTag, Fits, CloseFrom, Depth;
    match event
    case Start(tag, attrs) => KnownStart(stack, tag, attrs); StartSound(stack, n, tag, attrs);
    case End(tag) => if Depth(stack, tag) > 0 { CloseFromSound(stack, Depth(stack, tag)); }
    case Data(data) => assert [Text(data)][1..] == []; AddSound(stack, Text(data));
  }

  lemma KnownStart(stack: seq<Frame>, tag: Tag, attrs: Attrs)
    requires stack != [] && StartTag(stack, tag, attrs).Success?
    ensures Known(tag)
  {
  }

  lemma {:induction false} HandleAllSound(stack: seq<Frame>, n: Nesting, events: seq<Event>)
    requires Fits(stack, n) && StackSound(stack) && HandleAll(stack, events).Success?
    ensures StackSound(HandleAll(stack, events).value)
    decreases |events|
  {
    hide StackSound, Handle, Nest;
    if events != [] {
      HandleFits(stack, n, events[0]);
      HandleSound(stack, n, events[0]);
      HandleAllSound(Handle(stack, events[0]).value, Nest(n, events[0]), events[1..]);
    }
  }

  lemma {:induction false} TreeSound(stack: seq<Frame>)
    requires stack != [] && StackSound(stack)
    ensures Tree(stack).Element? && Tree(stack).tag == stack[0].tag && Sound(stack[0].tag, Tree(stack).children)
    decreases |stack|
  {
    if |stack| > 1 {
      PopSound(stack);
      hide StackSound;
      TreeSound(Pop(stack));
    }
  }

  /** Every node of a parsed page is where its tag is allowed. */
  lemma ParseSound(events: seq<Event>)
    requires Parse(events).Success?
    ensures Parse(events).value.Element? && Parse(events).value.tag == RootTag
    ensures Sound(RootTag, Parse(events).value.children)
  {
    var none := Nesting([], []);
    assert Marks(EMPTY_STACK) == Flat(none);
    HandleAllSound(EMPTY_STACK, none, events);
    HandleAllFits(EMPTY_STACK, none, events);
    var stack := HandleAll(EMPTY_STACK, events).value;
    assert MarkOf(stack[0]) == Marks(stack)[0] == Flat(NestAll(none, events))[0];
    TreeSound(stack);
  }

  /** `node` is among `nodes`, or somewhere inside them. */
  predicate Occurs(nodes: seq<Node>, node: Node)
    decreases nodes
  {
    nodes != []
    && (nodes[0] == node || (nodes[0].Element? && Occurs(nodes[0].children, node)) || Occurs(nodes[1..], node))
  }

  lemma {:induction false} OccursSound(parent: Tag, nodes: seq<Node>, node: Node)
    requires Sound(parent, nodes) && Occurs(nodes, node) && node.Element?
    ensures Sound(node.tag, node.children)
    decreases nodes
  {
    if nodes[0] != node {
      if nodes[0].Element? && Occurs(nodes[0].children, node) {
        OccursSound(nodes[0].tag, nodes[0].children, node);
      } else {
        OccursSound(parent, nodes[1..], node);
      }
    }
  }

  lemma {:induction false} ChildAllowed(parent: Tag, nodes: seq<Node>, child: Node)
    requires Sound(parent, nodes) && child in nodes && child.Element?
    ensures Allowed(parent, child.tag) && Sound(child.tag, child.children)
  {
    if nodes[0] != child { ChildAllowed(parent, nodes[1..], child); }
  }

  /** **What a parse never nests**, whatever the page: a block in an inline tag
      or a paragraph; an item directly in an item, a paragraph or a note; a cell
      directly in a cell; a row directly in a cell or a row. */
  lemma NeverNested(events: seq<Event>, node: Node, child: Node)
    requires Parse(events).Success?
    requires Occurs(Parse(events).value.children, node) && node.Element? && child in node.children && child.Element?
    ensures Known(child.tag)
    ensures Inline(node.tag) || node.tag == P ==> Inline(child.tag)
    ensures child.tag == Li || child.tag == Dd ==> node.tag !in {Li, P, Dd}
    ensures child.tag == Td || child.tag == Th ==> node.tag !in {Td, Th, P}
    ensures child.tag == Tr ==> node.tag !in {Td, Th, Tr, P}
  {
    ParseSound(events);
    OccursSound(RootTag, Parse(events).value.children, node);
    ChildAllowed(node.tag, node.children, child);
  }

  // ----- rendering inline -----

  datatype RenderError = InInlinePosition(tag: Tag) | NoHeading(anchor: string)

  predicate Space(c: char) {
    c == ' ' || c == '\t' || c == '\n' || c == '\r'
  }

  /** Runs of white space, each as one space. */
  function Collapse(text: string): string {
    if text == [] then []
    else if !Space(text[0]) then [text[0]] + Collapse(text[1..])
    else if |text| > 1 && Space(text[1]) then Collapse(text[1..])
    else [' '] + Collapse(text[1..])
  }

  function Strip(text: string): string {
    if text == [] then []
    else if Space(text[0]) then Strip(text[1..])
    else if Space(text[|text| - 1]) then Strip(text[..|text| - 1])
    else text
  }

  function Wrapped(inner: string, marker: string): string {
    if Strip(inner) == [] then [] else marker + Strip(inner) + marker
  }

  /** A markdown link: out as it is, or to the heading `anchors` names. */
  function Link(attrs: Attrs, text: string, anchors: map<string, string>): Result<string, RenderError> {
    var href := if "href" in attrs then attrs["href"] else "";
    if href == [] || href[0] != '#' then Success("[" + text + "](" + href + ")")
    else
      var anchor := Fixup(href[1..]);
      if anchor in anchors then Success("[" + text + "](" + anchors[anchor] + ")")
      else Failure(NoHeading(href[1..]))
  }

  function Fixup(anchor: string): string {
    if anchor == "Evade" then "Evade_Action"
    else if anchor == "Per Investigator" then "Per_Investigator"
    else anchor
  }

  /** What one child is rendered as, where `inner` is what it holds. */
  function NodeText(node: Node, inner: Result<string, RenderError>, anchors: map<string, string>)
    : Result<string, RenderError>
  {
    match node
    case Text(data) => Success(Collapse(data))
    case Element(tag, attrs, _) =>
      if tag == Br then Success("\n")
      else if tag in {Em, I, Strong, B, Span, Cite, Div, A} then
        var text :- inner;
        if tag == Em || tag == I then Success(Wrapped(text, "*"))
        else if tag == Strong || tag == B then Success(Wrapped(text, "**"))
        else if tag == A then Link(attrs, Strip(text), anchors)
        else Success(text)
      else Failure(InInlinePosition(tag))
  }

  /** `Renderer.inline`, where `anchors` are the destinations of the headings. */
  function InlineText(children: seq<Node>, anchors: map<string, string>): Result<string, RenderError>
    decreases children
  {
    if children == [] then Success("")
    else
      var inner := if children[0].Element? then InlineText(children[0].children, anchors) else Success("");
      var first :- NodeText(children[0], inner, anchors);
      var rest :- InlineText(children[1..], anchors);
      Success(first + rest)
  }

  predicate BlockFound(r: Result<string, RenderError>) {
    r.Failure? && r.error.InInlinePosition?
  }

  ghost predicate InlineRun(children: seq<Node>) {
    forall i | 0 <= i < |children| :: children[i].Element? ==> Inline(children[i].tag)
  }

  /** A run of text and inline tags, in a sound tree, renders without meeting a
      block. */
  lemma {:induction false} InlineRunRenders(parent: Tag, children: seq<Node>, anchors: map<string, string>)
    requires Sound(parent, children) && InlineRun(children)
    ensures !BlockFound(InlineText(children, anchors))
    decreases children
  {
    if children != [] {
      assert InlineRun(children[1..]);
      InlineRunRenders(parent, children[1..], anchors);
      if children[0].Element? {
        var tag, inside := children[0].tag, children[0].children;
        InlineInside(tag, inside);
        InlineRunRenders(tag, inside, anchors);
      }
      hide Sound, Allowed, Collapse, Strip, Fixup;
    }
  }

  lemma {:induction false} InlineInside(tag: Tag, inside: seq<Node>)
    requires (Inline(tag) || tag == P) && Sound(tag, inside)
    ensures InlineRun(inside)
  {
    forall i | 0 <= i < |inside| && inside[i].Element? ensures Inline(inside[i].tag) {
      ChildAllowed(tag, inside, inside[i]);
    }
  }

  /** The runs of text and inline tags `Renderer.blocks` collects between the
      blocks among `children`, each after what is already `pending`. */
  function PendingRuns(children: seq<Node>, pending: seq<Node>): seq<seq<Node>>
    decreases |children|
  {
    if children == [] then [pending]
    else if children[0].Text? || Inline(children[0].tag) then PendingRuns(children[1..], pending + [children[0]])
    else [pending] + PendingRuns(children[1..], [])
  }

  lemma {:induction false} OccursInside(nodes: seq<Node>, node: Node, child: Node)
    requires Occurs(nodes, node) && node.Element? && child in node.children
    ensures Occurs(nodes, child)
    decreases nodes
  {
    if nodes[0] == node {
      AmongOccurs(node.children, child);
    } else if nodes[0].Element? && Occurs(nodes[0].children, node) {
      OccursInside(nodes[0].children, node, child);
    } else {
      OccursInside(nodes[1..], node, child);
    }
  }

  lemma {:induction false} AmongOccurs(nodes: seq<Node>, node: Node)
    requires node in nodes
    ensures Occurs(nodes, node)
  {
    if nodes[0] != node { AmongOccurs(nodes[1..], node); }
  }

  /** Every element among `nodes` is of the parsed page, wherever it stood. */
  ghost predicate OfPage(page: seq<Node>, nodes: seq<Node>) {
    forall i | 0 <= i < |nodes| :: nodes[i].Element? ==> Occurs(page, nodes[i])
  }

  lemma InlineNodeRenders(page: seq<Node>, node: Node, anchors: map<string, string>)
    requires Sound(RootTag, page) && Occurs(page, node) && node.Element? && Inline(node.tag)
    ensures !BlockFound(InlineText(node.children, anchors))
  {
    OccursSound(RootTag, page, node);
    InlineInside(node.tag, node.children);
    InlineRunRenders(node.tag, node.children, anchors);
  }

  lemma {:induction false} LooseRunRenders(page: seq<Node>, run: seq<Node>, anchors: map<string, string>)
    requires Sound(RootTag, page) && OfPage(page, run) && InlineRun(run)
    ensures !BlockFound(InlineText(run, anchors))
    decreases |run|
  {
    if run != [] {
      assert OfPage(page, run[1..]) && InlineRun(run[1..]);
      LooseRunRenders(page, run[1..], anchors);
      if run[0].Element? { InlineNodeRenders(page, run[0], anchors); }
      hide Sound, Occurs, Collapse, Strip, Fixup, Link, Wrapped;
    }
  }

  /** **No run of inline nodes of a parsed page holds a block**, from whichever
      parents they come: rendering it never reaches the error for one. */
  lemma RunsRender(events: seq<Event>, run: seq<Node>, anchors: map<string, string>)
    requires Parse(events).Success? && OfPage(Parse(events).value.children, run) && InlineRun(run)
    ensures !BlockFound(InlineText(run, anchors))
  {
    ParseSound(events);
    LooseRunRenders(Parse(events).value.children, run, anchors);
  }

  lemma {:induction false} PendingOfPage(page: seq<Node>, nodes: seq<Node>, pending: seq<Node>)
    requires OfPage(page, nodes) && OfPage(page, pending) && InlineRun(pending)
    ensures forall run | run in PendingRuns(nodes, pending) :: OfPage(page, run) && InlineRun(run)
    decreases |nodes|
  {
    hide Occurs;
    if nodes != [] {
      var inline := nodes[0].Text? || Inline(nodes[0].tag);
      PendingOfPage(page, nodes[1..], if inline then pending + [nodes[0]] else []);
    }
  }

  /** So `blocks` meets none in the runs it collects from any list of nodes of the
      page: a node's children, a slice of the flattened page, or the nodes before
      the glossary's first entry. */
  lemma BlocksRunsRender(events: seq<Event>, nodes: seq<Node>, run: seq<Node>, anchors: map<string, string>)
    requires Parse(events).Success? && OfPage(Parse(events).value.children, nodes)
    requires run in PendingRuns(nodes, [])
    ensures !BlockFound(InlineText(run, anchors))
  {
    PendingOfPage(Parse(events).value.children, nodes, []);
    RunsRender(events, run, anchors);
  }

  /** Nor does rendering a paragraph, or an inline tag by itself, as a list's item
      that is one is. */
  lemma ParagraphsRender(events: seq<Event>, node: Node, anchors: map<string, string>)
    requires Parse(events).Success? && Occurs(Parse(events).value.children, node)
    requires node.Element? && (node.tag == P || Inline(node.tag))
    ensures !BlockFound(InlineText(node.children, anchors))
  {
    var page := Parse(events).value.children;
    ParseSound(events);
    OccursSound(RootTag, page, node);
    InlineInside(node.tag, node.children);
    forall i | 0 <= i < |node.children| ensures Occurs(page, node.children[i]) {
      OccursInside(page, node, node.children[i]);
    }
    RunsRender(events, node.children, anchors);
  }

  /** `split_document`'s flattened page: the nodes outside every `div`. */
  function Flattened(nodes: seq<Node>): seq<Node>
    decreases nodes
  {
    if nodes == [] then []
    else
      (if nodes[0].Element? && nodes[0].tag == Div then Flattened(nodes[0].children) else [nodes[0]])
      + Flattened(nodes[1..])
  }

  lemma {:induction false} FlattenedOccur(nodes: seq<Node>, node: Node)
    requires node in Flattened(nodes)
    ensures Occurs(nodes, node)
    decreases nodes
  {
    if node in Flattened(nodes[1..]) {
      FlattenedOccur(nodes[1..], node);
    } else if nodes[0].Element? && nodes[0].tag == Div {
      FlattenedOccur(nodes[0].children, node);
    }
  }

  /** The files a page is split into are slices of it flattened, so rendering
      their runs meets no block. */
  lemma SlicesRender(events: seq<Event>, slice: seq<Node>, run: seq<Node>, anchors: map<string, string>)
    requires Parse(events).Success?
    requires forall i | 0 <= i < |slice| :: slice[i] in Flattened(Parse(events).value.children)
    requires run in PendingRuns(slice, [])
    ensures !BlockFound(InlineText(run, anchors))
  {
    forall i | 0 <= i < |slice| ensures Occurs(Parse(events).value.children, slice[i]) {
      FlattenedOccur(Parse(events).value.children, slice[i]);
    }
    BlocksRunsRender(events, slice, run, anchors);
  }

  // ----- exactly the paragraphs -----

  /** No page parses to a `tag` that inline rendering finds a block in. */
  ghost predicate InlineSafe(tag: Tag) {
    forall events, node, anchors |
      && Parse(events).Success?
      && Occurs(Parse(events).value.children, node) && node.Element? && node.tag == tag
      :: !BlockFound(InlineText(node.children, anchors))
  }

  /** `<tag><h1>`. */
  function HeadingIn(tag: Tag): seq<Event> {
    [Start(tag, map[]), Start(H1, map[])]
  }

  lemma TreePops(stack: seq<Frame>)
    requires |stack| > 1
    ensures Tree(stack) == Tree(Pop(stack))
  {
  }

  /** A block opens inside a top node that is no inline tag and that it does not
      close. */
  lemma TagOpens(stack: seq<Frame>, tag: Tag)
    requires stack != [] && Block(tag) && !Inline(Top(stack).tag) && !Closes(tag, Top(stack).tag)
    ensures Handle(stack, Start(tag, map[])) == Success(stack + [Frame(tag, map[], [])])
  {
    assert PopInlines(stack) == stack && OpenInlines(stack) == [] && AutoClose(stack, tag) == stack;
    hide PopInlines, OpenInlines, AutoClose, Closes;
  }

  lemma HeadingOpens(tag: Tag)
    requires Block(tag) && tag != P
    ensures HandleAll(EMPTY_STACK, HeadingIn(tag))
            == Success(EMPTY_STACK + [Frame(tag, map[], [])] + [Frame(H1, map[], [])])
  {
    var one := EMPTY_STACK + [Frame(tag, map[], [])];
    var two := one + [Frame(H1, map[], [])];
    TagOpens(EMPTY_STACK, tag);
    TagOpens(one, H1);
    hide Handle;
    assert HeadingIn(tag)[1..] == [Start(H1, map[])] && [Start(H1, map[])][1..] == [];
    assert HandleAll(two, []) == Success(two);
    assert HandleAll(one, [Start(H1, map[])]) == Success(two);
  }

  /** A node alone on top of `below` closes to its last child. */
  lemma PopLone(below: seq<Frame>, frame: Frame, node: Node)
    requires below != [] && Top(below).children == [] && node == NodeOf(frame)
    ensures Pop(below + [frame]) == WithChildren(below, [node])
  {
    assert (below + [frame])[..|below|] == below;
    assert Top(below).children + [node] == [node];
  }

  lemma HeadingStaysIn(tag: Tag)
    requires Block(tag) && tag != P
    ensures Parse(HeadingIn(tag))
            == Success(Element(RootTag, map[], [Element(tag, map[], [Element(H1, map[], [])])]))
  {
    HeadingOpens(tag);
    hide Handle, HandleAll, Pop, HeadingIn;
    var heading := Element(H1, map[], []);
    var inner := Element(tag, map[], [heading]);
    var one := EMPTY_STACK + [Frame(tag, map[], [])];
    var popped := EMPTY_STACK + [Frame(tag, map[], [heading])];
    PopLone(one, Frame(H1, map[], []), heading);
    assert one[..1] == EMPTY_STACK;
    assert WithChildren(one, [heading]) == popped;
    PopLone(EMPTY_STACK, Frame(tag, map[], [heading]), inner);
    assert WithChildren(EMPTY_STACK, [inner]) == [Frame(RootTag, map[], [inner])];
    TreePops(one + [Frame(H1, map[], [])]);
    TreePops(popped);
  }

  lemma HeadingFound(tag: Tag)
    ensures var node := Element(tag, map[], [Element(H1, map[], [])]);
      Occurs([node], node) && BlockFound(InlineText(node.children, map[]))
  {
    assert InlineText([Element(H1, map[], [])], map[]) == Failure(InInlinePosition(H1));
  }

  lemma ParagraphsAreSafe()
    ensures InlineSafe(P)
  {
    hide Parse, Occurs, InlineText, BlockFound;
    forall events, node, anchors |
      && Parse(events).Success?
      && Occurs(Parse(events).value.children, node) && node.Element? && node.tag == P
      ensures !BlockFound(InlineText(node.children, anchors))
    {
      ParagraphsRender(events, node, anchors);
    }
  }

  /** Of the blocks, exactly the paragraph is safe to render inline. Headings,
      table cells and notes, which the renderer also renders inline, are not. */
  lemma OnlyParagraphsAreSafe(tag: Tag)
    requires Block(tag)
    ensures InlineSafe(tag) <==> tag == P
  {
    if tag == P {
      ParagraphsAreSafe();
    } else {
      HeadingStaysIn(tag);
      HeadingFound(tag);
      hide Parse, Occurs, InlineText, BlockFound;
      var node := Element(tag, map[], [Element(H1, map[], [])]);
      assert Parse(HeadingIn(tag)).value.children == [node] && node.tag == tag;
      assert Occurs(Parse(HeadingIn(tag)).value.children, node);
    }
  }
}
