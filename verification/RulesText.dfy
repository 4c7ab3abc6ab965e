/** What inline rendering makes of the text (`collapse`, `Renderer.inline`,
    `Renderer.link`): every letter of it, in order, and besides only the marks of
    its tags; and exactly when it renders. */
module RulesText {
  import opened Wrappers
  import opened RulesMarkup
  import opened RulesParsing
  import opened RulesRendering

  // ----- white space -----

  /** The characters of `text` that are no white space. */
  function Ink(text: string): string {
    if text == [] then [] else (if Space(text[0]) then [] else [text[0]]) + Ink(text[1..])
  }

  lemma {:induction false} InkAppends(a: string, b: string)
    ensures Ink(a + b) == Ink(a) + Ink(b)
  {
    if a == [] {
      assert a + b == b;
    } else {
      assert (a + b)[1..] == a[1..] + b;
      InkAppends(a[1..], b);
    }
  }

  /** The words of `text`: its longest runs without white space. */
  function Words(text: string): (words: seq<string>)
    ensures text != [] && !Space(text[0]) ==> words != []
  {
    if text == [] then []
    else if Space(text[0]) then Words(text[1..])
    else if |text| > 1 && !Space(text[1]) then
      var rest := Words(text[1..]);
      [[text[0]] + rest[0]] + rest[1..]
    else [[text[0]]] + Words(text[1..])
  }

  /** **Collapsing keeps the words**, one space and no other white space in each
      gap it leaves. */
  lemma {:induction false} CollapseKeepsWords(text: string)
    ensures var collapsed := Collapse(text);
      && Words(collapsed) == Words(text) && Ink(collapsed) == Ink(text)
      && (forall i | 0 <= i < |collapsed| && Space(collapsed[i]) :: collapsed[i] == ' ')
      && (forall i | 0 <= i < |collapsed| - 1 && Space(collapsed[i]) :: !Space(collapsed[i + 1]))
      && (collapsed == [] <==> text == [])
      && (text != [] ==> (Space(collapsed[0]) <==> Space(text[0])))
  {
    if text != [] {
      CollapseKeepsWords(text[1..]);
      var rest := Collapse(text[1..]);
      if !Space(text[0]) {
        assert ([text[0]] + rest)[1..] == rest;
      } else if |text| == 1 || !Space(text[1]) {
        assert ([' '] + rest)[1..] == rest;
      }
    }
  }

  lemma {:induction false} StripKeepsInk(text: string)
    ensures Ink(Strip(text)) == Ink(text)
    ensures Strip(text) == [] <==> Ink(text) == []
    decreases |text|
  {
    if text != [] {
      var last := |text| - 1;
      if Space(text[0]) {
        StripKeepsInk(text[1..]);
      } else if Space(text[last]) {
        StripKeepsInk(text[..last]);
        assert text == text[..last] + [text[last]];
        InkAppends(text[..last], [text[last]]);
        assert [text[last]][1..] == [];
        assert Ink([text[last]]) == [] + Ink([]);
      }
    }
  }

  // ----- what is rendered -----

  /** A character of the text, or of a tag's marks. */
  datatype Glyph = Letter(c: char) | Markup(c: char)

  function Chars(glyphs: seq<Glyph>): (chars: string)
    ensures |chars| == |glyphs|
  {
    seq(|glyphs|, i requires 0 <= i < |glyphs| => glyphs[i].c)
  }

  function Letters(glyphs: seq<Glyph>): string {
    if glyphs == [] then [] else (if glyphs[0].Letter? then [glyphs[0].c] else []) + Letters(glyphs[1..])
  }

  function AsText(text: string): seq<Glyph> {
    seq(|text|, i requires 0 <= i < |text| => Letter(text[i]))
  }

  function AsMarks(marks: string): seq<Glyph> {
    seq(|marks|, i requires 0 <= i < |marks| => Markup(marks[i]))
  }

  /** Where a link leads, if it resolves: out, or to a heading by its anchor. */
  function Destination(attrs: Attrs, anchors: map<string, string>): Option<string> {
    if "href" !in attrs then Some("")
    else
      var href := attrs["href"];
      if href == "" || href[0] != '#' then Some(href)
      else if Fixup(href[1..]) in anchors then Some(anchors[Fixup(href[1..])])
      else None
  }

  /** A node can be rendered inline: it is no block but `div`, and no link that
      resolves to no heading; `inside` says if all it holds can. */
  predicate NodeRenders(node: Node, inside: bool, anchors: map<string, string>) {
    node.Element? && node.tag != Br ==>
      && (Inline(node.tag) || node.tag == Div)
      && inside
      && (node.tag == A ==> Destination(node.attrs, anchors).Some?)
  }

  predicate Renders(children: seq<Node>, anchors: map<string, string>)
    decreases children
  {
    children != [] ==>
      && NodeRenders(children[0], children[0].Element? ==> Renders(children[0].children, anchors), anchors)
      && Renders(children[1..], anchors)
  }

  /** What a node reads as, white space aside, where it holds `inner`: emphasis
      around what is not empty, and links. */
  function NodeMarked(node: Node, inner: seq<Glyph>, anchors: map<string, string>): seq<Glyph> {
    match node
    case Text(data) => AsText(Ink(data))
    case Element(tag, attrs, _) =>
      if tag == Br then []
      else if tag in {Em, I} then Emphasized(inner, "*")
      else if tag in {Strong, B} then Emphasized(inner, "**")
      else if tag == A then Linked(inner, Destination(attrs, anchors))
      else inner
  }

  function Marked(children: seq<Node>, anchors: map<string, string>): seq<Glyph>
    decreases children
  {
    if children == [] then []
    else
      NodeMarked(children[0], if children[0].Element? then Marked(children[0].children, anchors) else [], anchors)
      + Marked(children[1..], anchors)
  }

  function Emphasized(inner: seq<Glyph>, mark: string): seq<Glyph> {
    if inner == [] then [] else AsMarks(mark) + inner + AsMarks(mark)
  }

  function Linked(inner: seq<Glyph>, destination: Option<string>): seq<Glyph> {
    if destination.None? then []
    else AsMarks("[") + inner + AsMarks("](") + AsMarks(Ink(destination.value)) + AsMarks(")")
  }

  lemma CharsAppend(a: seq<Glyph>, b: seq<Glyph>)
    ensures Chars(a + b) == Chars(a) + Chars(b)
  {
  }

  lemma CharsOf(text: string)
    ensures Chars(AsText(text)) == text && Chars(AsMarks(text)) == text
  {
  }

  lemma MarkerInk()
    ensures Ink("*") == "*" && Ink("**") == "**"
  {
    assert "*"[1..] == "" && "**"[1..] == "*";
  }

  lemma WrappedInk(inner: string, marker: string, glyphs: seq<Glyph>)
    requires Ink(inner) == Chars(glyphs) && (marker == "*" || marker == "**")
    ensures Ink(Wrapped(inner, marker)) == Chars(Emphasized(glyphs, marker))
  {
    StripKeepsInk(inner);
    if glyphs != [] {
      MarkerInk();
      InkAppends(marker + Strip(inner), marker);
      InkAppends(marker, Strip(inner));
      CharsOf(marker);
      CharsAppend(AsMarks(marker) + glyphs, AsMarks(marker));
      CharsAppend(AsMarks(marker), glyphs);
    }
  }

  lemma LinkInk(attrs: Attrs, inner: string, anchors: map<string, string>, glyphs: seq<Glyph>)
    requires Ink(inner) == Chars(glyphs)
    ensures Link(attrs, Strip(inner), anchors).Success? <==> Destination(attrs, anchors).Some?
    ensures Link(attrs, Strip(inner), anchors).Success? ==>
              Ink(Link(attrs, Strip(inner), anchors).value) == Chars(Linked(glyphs, Destination(attrs, anchors)))
  {
    if Link(attrs, Strip(inner), anchors).Success? {
      var text, to := Strip(inner), Destination(attrs, anchors).value;
      assert Link(attrs, text, anchors).value == "[" + text + "](" + to + ")";
      hide Link, Destination, Strip;
      StripKeepsInk(inner);
      BracketsInk(text, to, glyphs);
    }
  }

  lemma BracketInk()
    ensures Ink("[") == "[" && Ink("](") == "](" && Ink(")") == ")"
  {
    assert "["[1..] == "" && "]("[1..] == "(" && "("[1..] == "" && ")"[1..] == "";
  }

  lemma BracketsInk(text: string, to: string, glyphs: seq<Glyph>)
    requires Ink(text) == Chars(glyphs)
    ensures Ink("[" + text + "](" + to + ")")
            == Chars(AsMarks("[") + glyphs + AsMarks("](") + AsMarks(Ink(to)) + AsMarks(")"))
  {
    BracketInk();
    hide Ink, Chars, AsMarks;
    InkAppends("[" + text + "](" + to, ")");
    InkAppends("[" + text + "](", to);
    InkAppends("[" + text, "](");
    InkAppends("[", text);
    CharsOf("[");
    CharsOf("](");
    CharsOf(")");
    CharsOf(Ink(to));
    CharsAppend(AsMarks("[") + glyphs + AsMarks("](") + AsMarks(Ink(to)), AsMarks(")"));
    CharsAppend(AsMarks("[") + glyphs + AsMarks("]("), AsMarks(Ink(to)));
    CharsAppend(AsMarks("[") + glyphs, AsMarks("]("));
    CharsAppend(AsMarks("["), glyphs);
  }

  lemma NodeExactly(node: Node, inner: Result<string, RenderError>, glyphs: seq<Glyph>, anchors: map<string, string>)
    requires inner.Success? ==> Ink(inner.value) == Chars(glyphs)
    ensures NodeText(node, inner, anchors).Success? <==> NodeRenders(node, inner.Success?, anchors)
    ensures NodeText(node, inner, anchors).Success? ==>
              Ink(NodeText(node, inner, anchors).value) == Chars(NodeMarked(node, glyphs, anchors))
  {
    hide Collapse, Strip, Wrapped, Link, Destination, Emphasized, Linked, Ink;
    match node
    case Text(data) => CollapseKeepsWords(data); CharsOf(Ink(data));
    case Element(tag, attrs, _) =>
      NewlineInk();
      if inner.Success? {
        WrappedInk(inner.value, "*", glyphs);
        WrappedInk(inner.value, "**", glyphs);
        LinkInk(attrs, inner.value, anchors, glyphs);
      }
  }

  lemma NewlineInk()
    ensures Ink("\n") == []
  {
  }

  /** **What inline rendering gives**, and exactly when it does: white space
      aside, the nodes as they read. */
  lemma {:induction false} InlineExactly(children: seq<Node>, anchors: map<string, string>)
    ensures InlineText(children, anchors).Success? <==> Renders(children, anchors)
    ensures Renders(children, anchors) ==> Ink(InlineText(children, anchors).value) == Chars(Marked(children, anchors))
    decreases children
  {
    if children != [] {
      hide NodeText, NodeRenders, NodeMarked, Ink, Chars;
      var node := children[0];
      var inner := if node.Element? then InlineText(node.children, anchors) else Success("");
      var glyphs := if node.Element? then Marked(node.children, anchors) else [];
      if node.Element? { InlineExactly(node.children, anchors); } else { NothingInk(); }
      InlineExactly(children[1..], anchors);
      NodeExactly(node, inner, glyphs, anchors);
      if Renders(children, anchors) {
        var first, rest := NodeText(node, inner, anchors).value, InlineText(children[1..], anchors).value;
        InkAppends(first, rest);
        CharsAppend(NodeMarked(node, glyphs, anchors), Marked(children[1..], anchors));
      }
    }
  }

  lemma NothingInk()
    ensures Ink("") == "" && Chars([]) == ""
  {
  }

  // ----- no letter is lost -----

  lemma {:induction false} LettersAppend(a: seq<Glyph>, b: seq<Glyph>)
    ensures Letters(a + b) == Letters(a) + Letters(b)
  {
    if a == [] {
      assert a + b == b;
    } else {
      var all, rest := a + b, a[1..];
      assert all[0] == a[0] && all[1..] == rest + b;
      LettersAppend(rest, b);
      var first := if a[0].Letter? then [a[0].c] else [];
      assert Letters(all) == first + Letters(rest + b);
      assert Letters(a) == first + Letters(rest);
    }
  }

  lemma {:induction false} LettersOfText(text: string)
    ensures Letters(AsText(text)) == text
  {
    if text != [] {
      LettersOfText(text[1..]);
      assert AsText(text)[1..] == AsText(text[1..]);
      assert [text[0]] + text[1..] == text;
    }
  }

  lemma {:induction false} LettersOfMarks(marks: string)
    ensures Letters(AsMarks(marks)) == []
  {
    if marks != [] {
      LettersOfMarks(marks[1..]);
      assert AsMarks(marks)[1..] == AsMarks(marks[1..]);
    }
  }

  lemma EmphasizedLetters(inner: seq<Glyph>, mark: string)
    ensures Letters(Emphasized(inner, mark)) == Letters(inner)
  {
    LettersAppend(AsMarks(mark) + inner, AsMarks(mark));
    LettersAppend(AsMarks(mark), inner);
    LettersOfMarks(mark);
  }

  lemma LinkedLetters(inner: seq<Glyph>, destination: Option<string>)
    requires destination.Some?
    ensures Letters(Linked(inner, destination)) == Letters(inner)
  {
    var to := Ink(destination.value);
    LettersAppend(AsMarks("[") + inner + AsMarks("](") + AsMarks(to), AsMarks(")"));
    LettersAppend(AsMarks("[") + inner + AsMarks("]("), AsMarks(to));
    LettersAppend(AsMarks("[") + inner, AsMarks("]("));
    LettersAppend(AsMarks("["), inner);
    LettersOfMarks("[");
    LettersOfMarks("](");
    LettersOfMarks(to);
    LettersOfMarks(")");
  }

  lemma {:induction false} MarkedLetters(children: seq<Node>, within: Nesting, anchors: map<string, string>)
    requires Renders(children, anchors)
    ensures Letters(Marked(children, anchors)) == Ink(TextIn(Pieces(children, within)))
    decreases children
  {
    if children != [] {
      hide Letters, Ink, TextIn;
      var node := children[0];
      MarkedLetters(children[1..], within, anchors);
      var glyphs := if node.Element? then Marked(node.children, anchors) else [];
      var pieces := FirstPieces(node, within);
      if node.Element? && node.tag != Br {
        MarkedLetters(node.children, Under(within, node.tag, node.attrs), anchors);
      }
      NodeLetters(node, glyphs, within, anchors);
      LettersAppend(NodeMarked(node, glyphs, anchors), Marked(children[1..], anchors));
      assert Pieces(children, within) == pieces + Pieces(children[1..], within);
      TextAppends(pieces, Pieces(children[1..], within));
      InkAppends(TextIn(pieces), TextIn(Pieces(children[1..], within)));
    } else {
      assert Pieces(children, within) == [];
    }
  }

  function FirstPieces(node: Node, within: Nesting): seq<Piece> {
    match node
    case Text(data) => [RulesMarkup.Words(data, within)]
    case Element(tag, attrs, inside) =>
      if Void(tag) then [Lone(Mark(tag, attrs), within)] else Pieces(inside, Under(within, tag, attrs))
  }

  lemma NodeLetters(node: Node, glyphs: seq<Glyph>, within: Nesting, anchors: map<string, string>)
    requires NodeRenders(node, true, anchors)
    requires node.Element? && node.tag != Br ==>
               Letters(glyphs) == Ink(TextIn(Pieces(node.children, Under(within, node.tag, node.attrs))))
    ensures Letters(NodeMarked(node, glyphs, anchors)) == Ink(TextIn(FirstPieces(node, within)))
  {
    hide Emphasized, Linked, Destination, Letters, Ink, TextIn, Pieces;
    match node
    case Text(data) =>
      LettersOfText(Ink(data));
      TextOfWords(data, within);
    case Element(tag, attrs, _) =>
      if tag == Br {
        TextOfLone(Mark(tag, attrs), within);
      } else {
        EmphasizedLetters(glyphs, "*");
        EmphasizedLetters(glyphs, "**");
        if tag == A { LinkedLetters(glyphs, Destination(attrs, anchors)); }
      }
  }

  lemma TextOfWords(data: string, within: Nesting)
    ensures TextIn([RulesMarkup.Words(data, within)]) == data
  {
    assert [RulesMarkup.Words(data, within)][1..] == [];
    assert data + "" == data;
  }

  lemma TextOfLone(mark: Mark, within: Nesting)
    ensures Ink(TextIn([Lone(mark, within)])) == Letters([])
  {
    assert [Lone(mark, within)][1..] == [];
  }

  /** **Inline rendering keeps the text**: white space aside, what is rendered is
      every letter of the nodes' text, in order, and between them only the marks
      of emphasis and links. */
  lemma RenderingKeepsText(children: seq<Node>, anchors: map<string, string>) returns (glyphs: seq<Glyph>)
    requires InlineText(children, anchors).Success?
    ensures Chars(glyphs) == Ink(InlineText(children, anchors).value)
    ensures Letters(glyphs) == Ink(TextIn(Pieces(children, OUTSIDE)))
  {
    InlineExactly(children, anchors);
    MarkedLetters(children, OUTSIDE, anchors);
    glyphs := Marked(children, anchors);
  }

  // ----- what is rendered where -----

  /** The runs, with the blocks between them. */
  function Interleaved(runs: seq<seq<Node>>, blocks: seq<Node>): seq<Node>
    requires |runs| == |blocks| + 1
  {
    if blocks == [] then runs[0] else runs[0] + [blocks[0]] + Interleaved(runs[1..], blocks[1..])
  }

  lemma InterleavedFirst(run: seq<Node>, block: Node, runs: seq<seq<Node>>, blocks: seq<Node>)
    requires |runs| == |blocks| + 1
    ensures Interleaved([run] + runs, [block] + blocks) == run + [block] + Interleaved(runs, blocks)
  {
    assert ([run] + runs)[1..] == runs && ([block] + blocks)[1..] == blocks;
  }

  /** **The runs `blocks` collects**, with the blocks it renders between them, are
      the children in their order: it renders each child once. */
  lemma {:induction false} RunsBetweenBlocks(children: seq<Node>, pending: seq<Node>) returns (blocks: seq<Node>)
    requires InlineRun(pending)
    ensures |PendingRuns(children, pending)| == |blocks| + 1
    ensures Interleaved(PendingRuns(children, pending), blocks) == pending + children
    ensures forall i | 0 <= i < |blocks| :: blocks[i].Element? && !Inline(blocks[i].tag)
    ensures forall run | run in PendingRuns(children, pending) :: InlineRun(run)
    decreases |children|
  {
    if children == [] {
      blocks := [];
      assert pending + children == pending;
    } else if children[0].Text? || Inline(children[0].tag) {
      blocks := RunsBetweenBlocks(children[1..], pending + [children[0]]);
      assert pending + [children[0]] + children[1..] == pending + children;
    } else {
      var rest := RunsBetweenBlocks(children[1..], []);
      blocks := [children[0]] + rest;
      InterleavedFirst(pending, children[0], PendingRuns(children[1..], []), rest);
      assert [] + children[1..] == children[1..];
      assert pending + [children[0]] + children[1..] == pending + children;
      hide InlineRun;
    }
  }

  /** The text of nodes is the same whatever tags are around them. */
  lemma {:induction false} TextAnywhere(nodes: seq<Node>, a: Nesting, b: Nesting)
    ensures TextIn(Pieces(nodes, a)) == TextIn(Pieces(nodes, b))
    decreases nodes
  {
    if nodes != [] {
      var node := nodes[0];
      if node.Element? && !Void(node.tag) {
        TextAnywhere(node.children, Under(a, node.tag, node.attrs), Under(b, node.tag, node.attrs));
      }
      FirstAnywhere(node, a, b);
      TextAnywhere(nodes[1..], a, b);
      hide TextIn;
      TextAppends(FirstPieces(node, a), Pieces(nodes[1..], a));
      TextAppends(FirstPieces(node, b), Pieces(nodes[1..], b));
      assert Pieces(nodes, a) == FirstPieces(node, a) + Pieces(nodes[1..], a);
      assert Pieces(nodes, b) == FirstPieces(node, b) + Pieces(nodes[1..], b);
    }
  }

  lemma FirstAnywhere(node: Node, a: Nesting, b: Nesting)
    requires node.Element? && !Void(node.tag) ==>
               TextIn(Pieces(node.children, Under(a, node.tag, node.attrs)))
               == TextIn(Pieces(node.children, Under(b, node.tag, node.attrs)))
    ensures TextIn(FirstPieces(node, a)) == TextIn(FirstPieces(node, b))
  {
    match node
    case Text(data) => TextOfWords(data, a); TextOfWords(data, b);
    case Element(tag, attrs, _) =>
      if Void(tag) {
        assert [Lone(Mark(tag, attrs), a)][1..] == [] && [Lone(Mark(tag, attrs), b)][1..] == [];
      }
  }

  lemma PiecesFirst(nodes: seq<Node>)
    requires nodes != []
    ensures TextIn(Pieces(nodes, OUTSIDE)) == TextIn(FirstPieces(nodes[0], OUTSIDE)) + TextIn(Pieces(nodes[1..], OUTSIDE))
  {
    assert Pieces(nodes, OUTSIDE) == FirstPieces(nodes[0], OUTSIDE) + Pieces(nodes[1..], OUTSIDE);
    TextAppends(FirstPieces(nodes[0], OUTSIDE), Pieces(nodes[1..], OUTSIDE));
  }

  /** Taking the page out of its `div`s leaves none of them at its top, and loses
      and moves no text. */
  lemma {:induction false} FlattenedKeepsText(nodes: seq<Node>)
    ensures TextIn(Pieces(Flattened(nodes), OUTSIDE)) == TextIn(Pieces(nodes, OUTSIDE))
    ensures forall node | node in Flattened(nodes) :: node.Element? ==> node.tag != Div
    decreases nodes
  {
    if nodes != [] {
      var node, rest := nodes[0], Flattened(nodes[1..]);
      FlattenedKeepsText(nodes[1..]);
      PiecesFirst(nodes);
      if node.Element? && node.tag == Div {
        FlattenedKeepsText(node.children);
        PiecesAppend(Flattened(node.children), rest, OUTSIDE);
        TextAppends(Pieces(Flattened(node.children), OUTSIDE), Pieces(rest, OUTSIDE));
        TextAnywhere(node.children, OUTSIDE, Under(OUTSIDE, node.tag, node.attrs));
      } else {
        assert ([node] + rest)[1..] == rest;
        PiecesFirst([node] + rest);
      }
    }
  }
}
