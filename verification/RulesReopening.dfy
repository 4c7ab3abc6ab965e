/** What becomes of an inline tag around a block: it is closed, dropped if it held
    nothing yet, and opened again inside. */
module RulesReopening {
  import opened Wrappers
  import opened RulesMarkup
  import opened RulesParsing

  /** Whatever follows a `node` among `nodes` is another. */
  predicate OnlyTwinsAfter(nodes: seq<Node>, node: Node) {
    forall i, j | 0 <= i < j < |nodes| && nodes[i] == node :: nodes[j] == node
  }

  lemma {:induction false} RemoveLastExactly(nodes: seq<Node>, node: Node)
    ensures RemoveFirst(nodes + [node], node) == nodes <==> OnlyTwinsAfter(nodes, node)
  {
    if nodes == [] {
      assert [node][1..] == [];
    } else if nodes[0] == node {
      var all := nodes + [node];
      assert RemoveFirst(all, node) == all[1..];
      if all[1..] == nodes { AllAlike(nodes, node); }
      if OnlyTwinsAfter(nodes, node) { assert all[1..] == nodes; }
    } else {
      RemoveLastExactly(nodes[1..], node);
      var rest := RemoveFirst(nodes[1..] + [node], node);
      assert (nodes + [node])[1..] == nodes[1..] + [node];
      assert [nodes[0]] + rest == nodes <==> rest == nodes[1..] by {
        assert ([nodes[0]] + rest)[1..] == rest;
        assert [nodes[0]] + nodes[1..] == nodes;
      }
      assert forall i | 0 < i < |nodes| :: nodes[i] == nodes[1..][i - 1];
    }
  }

  lemma {:induction false} AllAlike(nodes: seq<Node>, node: Node)
    requires nodes != [] && (nodes + [node])[1..] == nodes
    ensures forall k | 0 <= k < |nodes| :: nodes[k] == node
  {
    forall k | 0 <= k < |nodes| ensures nodes[k] == node { AlikeAt(nodes, node, k); }
  }

  lemma {:induction false} AlikeAt(nodes: seq<Node>, node: Node, k: nat)
    requires k < |nodes| && (nodes + [node])[1..] == nodes
    ensures nodes[k] == node
    decreases |nodes| - k
  {
    assert nodes[k] == (nodes + [node])[1..][k] == (nodes + [node])[k + 1];
    if k + 1 < |nodes| { AlikeAt(nodes, node, k + 1); }
  }

  /** Popping an inline tag that nothing was put in undoes its opening, exactly
      when no equal one before it is followed by something else: `remove` drops
      the first of the equals. */
  lemma PopUndoes(stack: seq<Frame>, mark: Mark)
    requires stack != []
    ensures PopInline(stack + [Opened(mark)]) == stack
            <==> OnlyTwinsAfter(Top(stack).children, Element(mark.tag, mark.attrs, []))
  {
    var node := Element(mark.tag, mark.attrs, []);
    var children := Top(stack).children;
    RemoveLastExactly(children, node);
    var left := RemoveFirst(children + [node], node);
    var popped := Pop(stack + [Opened(mark)]);
    assert (stack + [Opened(mark)])[..|stack|] == stack;
    assert popped == WithChildren(stack, children + [node]);
    assert PopInline(stack + [Opened(mark)]) == WithChildren(stack, left);
    if left == children {
      assert WithChildren(stack, children) == stack;
    } else {
      assert Top(WithChildren(stack, left)).children == left;
    }
  }

  lemma {:induction false} OpenAllAppends(stack: seq<Frame>, a: seq<Mark>, b: seq<Mark>)
    requires stack != []
    ensures OpenAll(stack, a + b) == OpenAll(OpenAll(stack, a), b)
    decreases |a|
  {
    if a == [] {
      assert a + b == b;
    } else {
      assert (a + b)[1..] == a[1..] + b;
      OpenAllAppends(stack + [Opened(a[0])], a[1..], b);
    }
  }

  lemma OpenAllLast(stack: seq<Frame>, marks: seq<Mark>)
    requires stack != [] && marks != []
    ensures var outer := OpenAll(stack, marks[..|marks| - 1]);
            OpenAll(stack, marks) == outer + [Opened(marks[|marks| - 1])]
  {
    var last := marks[|marks| - 1];
    assert marks == marks[..|marks| - 1] + [last];
    OpenAllAppends(stack, marks[..|marks| - 1], [last]);
    assert [last][1..] == [];
  }

  lemma OuterTop(stack: seq<Frame>, outer: seq<Mark>, node: Node)
    requires stack != [] && (outer == [] ==> OnlyTwinsAfter(Top(stack).children, node))
    ensures OnlyTwinsAfter(Top(OpenAll(stack, outer)).children, node)
  {
    if outer != [] { OpenAllLast(stack, outer); }
  }

  /** Inline tags that nothing was put in pop as if they had not opened. */
  lemma {:induction false} NewInlinesPop(stack: seq<Frame>, marks: seq<Mark>)
    requires stack != [] && (forall i | 0 <= i < |marks| :: Inline(marks[i].tag))
    requires marks != [] ==> OnlyTwinsAfter(Top(stack).children, Element(marks[0].tag, marks[0].attrs, []))
    ensures PopInlines(OpenAll(stack, marks)) == PopInlines(stack)
    ensures OpenInlines(OpenAll(stack, marks)) == OpenInlines(stack) + marks
    decreases |marks|
  {
    hide OpenAll, PopInlines, OpenInlines, OnlyTwinsAfter, Inline;
    if marks == [] {
      OpenNone(stack);
    } else {
      var outer := marks[..|marks| - 1];
      var last := marks[|marks| - 1];
      LastPops(stack, marks);
      NewInlinesPop(stack, outer);
      assert OpenInlines(stack) + outer + [last] == OpenInlines(stack) + marks;
    }
  }

  lemma OpenNone(stack: seq<Frame>)
    requires stack != []
    ensures OpenAll(stack, []) == stack && OpenInlines(stack) + [] == OpenInlines(stack)
  {
  }

  lemma LastPops(stack: seq<Frame>, marks: seq<Mark>)
    requires stack != [] && marks != [] && Inline(marks[|marks| - 1].tag)
    requires OnlyTwinsAfter(Top(stack).children, Element(marks[0].tag, marks[0].attrs, []))
    ensures var outer := OpenAll(stack, marks[..|marks| - 1]);
      && PopInlines(OpenAll(stack, marks)) == PopInlines(outer)
      && OpenInlines(OpenAll(stack, marks)) == OpenInlines(outer) + [marks[|marks| - 1]]
  {
    var outer := marks[..|marks| - 1];
    var last := marks[|marks| - 1];
    OpenAllLast(stack, marks);
    OuterTop(stack, outer, Element(last.tag, last.attrs, []));
    hide OpenAll, PopInlines, OpenInlines, PopInline, OnlyTwinsAfter, Inline;
    PopUndoes(OpenAll(stack, outer), last);
    PopsOne(OpenAll(stack, outer), last);
  }

  lemma PopsOne(stack: seq<Frame>, mark: Mark)
    requires stack != [] && Inline(mark.tag)
    ensures PopInlines(stack + [Opened(mark)]) == PopInlines(PopInline(stack + [Opened(mark)]))
    ensures OpenInlines(stack + [Opened(mark)]) == OpenInlines(PopInline(stack + [Opened(mark)])) + [mark]
  {
    hide PopInline;
  }

  function Starts(marks: seq<Mark>): seq<Event> {
    seq(|marks|, i requires 0 <= i < |marks| => Start(marks[i].tag, marks[i].attrs))
  }

  lemma {:induction false} StartsOpen(stack: seq<Frame>, marks: seq<Mark>, rest: seq<Event>)
    requires stack != [] && forall i | 0 <= i < |marks| :: Inline(marks[i].tag) && !Void(marks[i].tag)
    ensures HandleAll(stack, Starts(marks) + rest) == HandleAll(OpenAll(stack, marks), rest)
    decreases |marks|
  {
    var events := Starts(marks) + rest;
    if marks == [] {
      assert events == rest;
    } else {
      assert events[0] == Start(marks[0].tag, marks[0].attrs) && events[1..] == Starts(marks[1..]) + rest;
      assert Handle(stack, events[0]) == Success(stack + [Opened(marks[0])]);
      StartsOpen(stack + [Opened(marks[0])], marks[1..], rest);
    }
  }

  /** **A block in inline tags reads as the inline tags in the block**: opening a
      run of inline tags and then a block, as in `<strong><li>`, leaves exactly
      what opening the block and then the inline tags would, and nothing of the
      ones it closed. */
  lemma InlineAroundBlock(stack: seq<Frame>, marks: seq<Mark>, tag: Tag, attrs: Attrs)
    requires stack != [] && Block(tag)
    requires forall i | 0 <= i < |marks| :: Inline(marks[i].tag) && !Void(marks[i].tag)
    requires marks != [] ==> OnlyTwinsAfter(Top(stack).children, Element(marks[0].tag, marks[0].attrs, []))
    ensures HandleAll(stack, Starts(marks) + [Start(tag, attrs)]) == HandleAll(stack, [Start(tag, attrs)] + Starts(marks))
  {
    var block := Start(tag, attrs);
    var base := AutoClose(PopInlines(stack), tag) + [Frame(tag, attrs, [])];
    NewInlinesPop(stack, marks);
    OpenAllAppends(base, OpenInlines(stack), marks);
    StartsOpen(stack, marks, [block]);
    StartsOpen(OpenAll(base, OpenInlines(stack)), marks, []);
    assert Starts(marks) + [] == Starts(marks);
    assert ([block] + Starts(marks))[1..] == Starts(marks) && [block][1..] == [];
    hide OpenAll, PopInlines, OpenInlines, AutoClose;
  }
}
