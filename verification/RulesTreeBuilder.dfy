/** The tree builder as it runs (`RulesHTMLParser`): nodes with an identity, whose
    lists of children it appends to and removes from, and a stack of the open
    ones. Proved to do what the parser's stack of frames does. */
module RulesTreeBuilder {
  import opened Wrappers
  import opened RulesMarkup
  import opened RulesParsing

  type NodeId = nat

  datatype Child = DataChild(data: string) | NodeChild(id: NodeId)

  datatype Cell = Cell(tag: Tag, attrs: Attrs, children: seq<Child>)

  // ----- the trees in the store -----

  /** The nodes under `kids` have ids between `lo` and `hi`, each above its
      parent's. */
  ghost predicate Within(nodes: seq<Cell>, kids: seq<Child>, lo: NodeId, hi: nat)
    requires hi <= |nodes|
    decreases hi - lo, |kids|
  {
    kids == []
    || (&& (kids[0].NodeChild? ==>
              lo < kids[0].id < hi && Within(nodes, nodes[kids[0].id].children, kids[0].id, hi))
        && Within(nodes, kids[1..], lo, hi))
  }

  ghost function Built(nodes: seq<Cell>, kids: seq<Child>, lo: NodeId): (built: seq<Node>)
    requires Within(nodes, kids, lo, |nodes|)
    ensures |built| == |kids|
    decreases |nodes| - lo, |kids|
  {
    if kids == [] then []
    else [BuiltChild(nodes, kids[0], lo)] + Built(nodes, kids[1..], lo)
  }

  ghost function BuiltChild(nodes: seq<Cell>, kid: Child, lo: NodeId): Node
    requires kid.NodeChild? ==> lo < kid.id < |nodes| && Within(nodes, nodes[kid.id].children, kid.id, |nodes|)
    decreases |nodes| - lo, 0
  {
    match kid
    case DataChild(data) => Text(data)
    case NodeChild(id) => Element(nodes[id].tag, nodes[id].attrs, Built(nodes, nodes[id].children, id))
  }

  lemma {:induction false} WithinWider(nodes: seq<Cell>, kids: seq<Child>, lo: NodeId, hi: nat, wider: nat)
    requires hi <= wider <= |nodes| && Within(nodes, kids, lo, hi)
    ensures Within(nodes, kids, lo, wider)
    decreases hi - lo, |kids|
  {
    if kids != [] {
      if kids[0].NodeChild? { WithinWider(nodes, nodes[kids[0].id].children, kids[0].id, hi, wider); }
      WithinWider(nodes, kids[1..], lo, hi, wider);
    }
  }

  /** Trees are untouched by changes to nodes outside their range. */
  lemma {:induction false} BuiltFrame(nodes: seq<Cell>, later: seq<Cell>, kids: seq<Child>, lo: NodeId, hi: nat)
    requires hi <= |nodes| <= |later| && Within(nodes, kids, lo, hi)
    requires forall x | lo < x < hi :: later[x] == nodes[x]
    ensures Within(later, kids, lo, hi)
    ensures Within(nodes, kids, lo, |nodes|) && Within(later, kids, lo, |later|)
    ensures Built(later, kids, lo) == Built(nodes, kids, lo)
    decreases hi - lo, |kids|
  {
    if kids != [] {
      if kids[0].NodeChild? { BuiltFrame(nodes, later, nodes[kids[0].id].children, kids[0].id, hi); }
      BuiltFrame(nodes, later, kids[1..], lo, hi);
      WithinWider(nodes, kids, lo, hi, |nodes|);
    }
  }

  lemma {:induction false} BuiltAppends(nodes: seq<Cell>, a: seq<Child>, b: seq<Child>, lo: NodeId)
    requires Within(nodes, a, lo, |nodes|) && Within(nodes, b, lo, |nodes|)
    ensures Within(nodes, a + b, lo, |nodes|)
    ensures Built(nodes, a + b, lo) == Built(nodes, a, lo) + Built(nodes, b, lo)
    decreases |a|
  {
    if a == [] {
      assert a + b == b;
    } else {
      assert (a + b)[1..] == a[1..] + b;
      BuiltAppends(nodes, a[1..], b, lo);
    }
  }

  // ----- the stack as frames -----

  /** `id` is open, `next` the open node above it, if any: then `next` is its
      last child, and what else is under it was made before. */
  ghost predicate OpenNode(nodes: seq<Cell>, id: NodeId, next: Option<NodeId>) {
    && id < |nodes|
    && var kids := nodes[id].children;
    && match next
       case None => Within(nodes, kids, id, |nodes|)
       case Some(above) =>
         && id < above < |nodes|
         && kids != [] && kids[|kids| - 1] == NodeChild(above)
         && Within(nodes, kids[..|kids| - 1], id, above)
  }

  ghost function FrameOf(nodes: seq<Cell>, id: NodeId, next: Option<NodeId>): Frame
    requires OpenNode(nodes, id, next)
  {
    var Cell(tag, attrs, kids) := nodes[id];
    if next.None? then Frame(tag, attrs, Built(nodes, kids, id))
    else
      WithinWider(nodes, kids[..|kids| - 1], id, next.value, |nodes|);
      Frame(tag, attrs, Built(nodes, kids[..|kids| - 1], id))
  }

  function Above(stack: seq<NodeId>, i: nat): Option<NodeId>
    requires i < |stack|
  {
    if i == |stack| - 1 then None else Some(stack[i + 1])
  }

  /** **The stack is the tree's rightmost spine.** */
  ghost predicate Spine(nodes: seq<Cell>, stack: seq<NodeId>) {
    stack != [] && forall i | 0 <= i < |stack| :: OpenNode(nodes, stack[i], Above(stack, i))
  }

  ghost function Frames(nodes: seq<Cell>, stack: seq<NodeId>): (frames: seq<Frame>)
    requires Spine(nodes, stack)
    ensures |frames| == |stack| && frames != []
  {
    seq(|stack|, i requires 0 <= i < |stack| => FrameOf(nodes, stack[i], Above(stack, i)))
  }

  lemma LoneKid(nodes: seq<Cell>, id: NodeId, lo: NodeId)
    requires lo < id < |nodes| && Within(nodes, nodes[id].children, id, |nodes|)
    ensures Within(nodes, [NodeChild(id)], lo, |nodes|)
    ensures Built(nodes, [NodeChild(id)], lo)
            == [Element(nodes[id].tag, nodes[id].attrs, Built(nodes, nodes[id].children, id))]
  {
    assert [NodeChild(id)][1..] == [];
  }

  /** Closing `top` leaves it the last of its parent's children. */
  lemma CloseNode(nodes: seq<Cell>, parent: NodeId, top: NodeId)
    requires OpenNode(nodes, parent, Some(top)) && OpenNode(nodes, top, None)
    ensures OpenNode(nodes, parent, None)
    ensures FrameOf(nodes, parent, None)
            == FrameOf(nodes, parent, Some(top)).(
                 children := FrameOf(nodes, parent, Some(top)).children + [NodeOf(FrameOf(nodes, top, None))])
  {
    var kids := nodes[parent].children;
    var closed := kids[..|kids| - 1];
    assert kids == closed + [NodeChild(top)];
    WithinWider(nodes, closed, parent, top, |nodes|);
    LoneKid(nodes, top, parent);
    BuiltAppends(nodes, closed, [NodeChild(top)], parent);
    hide Within, Built;
  }

  lemma PopSpine(nodes: seq<Cell>, stack: seq<NodeId>)
    requires Spine(nodes, stack) && |stack| > 1
    ensures Spine(nodes, stack[..|stack| - 1])
    ensures Frames(nodes, stack[..|stack| - 1]) == Pop(Frames(nodes, stack))
  {
    hide OpenNode, FrameOf;
    var n := |stack|;
    var below := stack[..n - 1];
    assert OpenNode(nodes, stack[n - 2], Above(stack, n - 2)) && OpenNode(nodes, stack[n - 1], Above(stack, n - 1));
    CloseNode(nodes, stack[n - 2], stack[n - 1]);
    assert forall i | 0 <= i < n - 2 :: Above(below, i) == Above(stack, i);
    assert Spine(nodes, below);
    forall i | 0 <= i < n - 1 ensures Frames(nodes, below)[i] == Pop(Frames(nodes, stack))[i] {
    }
  }

  lemma {:induction false} Increasing(nodes: seq<Cell>, stack: seq<NodeId>, i: nat, j: nat)
    requires Spine(nodes, stack) && i <= j < |stack|
    ensures stack[i] <= stack[j] && (i < j ==> stack[i] < stack[j])
    decreases j - i
  {
    hide OpenNode;
    if i < j {
      NextAbove(nodes, stack, i);
      Increasing(nodes, stack, i + 1, j);
    }
  }

  lemma NextAbove(nodes: seq<Cell>, stack: seq<NodeId>, i: nat)
    requires i + 1 < |stack| && OpenNode(nodes, stack[i], Above(stack, i))
    ensures stack[i] < stack[i + 1]
  {
  }

  /** An open node is untouched by changes from the next one up. */
  lemma OpenNodeFrame(nodes: seq<Cell>, later: seq<Cell>, id: NodeId, above: NodeId)
    requires OpenNode(nodes, id, Some(above)) && |nodes| <= |later|
    requires forall x | id <= x < above :: later[x] == nodes[x]
    ensures OpenNode(later, id, Some(above))
    ensures FrameOf(later, id, Some(above)) == FrameOf(nodes, id, Some(above))
  {
    var kids := nodes[id].children;
    BuiltFrame(nodes, later, kids[..|kids| - 1], id, above);
    hide Within, Built;
  }

  /** The open nodes below the top one, where only nodes from the top one up
      have changed and the top one is open still. */
  lemma BelowTop(nodes: seq<Cell>, later: seq<Cell>, stack: seq<NodeId>)
    requires Spine(nodes, stack) && |nodes| <= |later|
    requires forall x | 0 <= x < stack[|stack| - 1] :: later[x] == nodes[x]
    requires OpenNode(later, stack[|stack| - 1], None)
    ensures Spine(later, stack)
    ensures Frames(later, stack)
            == Frames(nodes, stack)[..|stack| - 1] + [FrameOf(later, stack[|stack| - 1], None)]
  {
    hide OpenNode, FrameOf;
    forall i | 0 <= i < |stack| - 1
      ensures OpenNode(nodes, stack[i], Above(stack, i)) && OpenNode(later, stack[i], Above(stack, i))
      ensures FrameOf(later, stack[i], Above(stack, i)) == FrameOf(nodes, stack[i], Above(stack, i))
    {
      Increasing(nodes, stack, i + 1, |stack| - 1);
      OpenNodeFrame(nodes, later, stack[i], stack[i + 1]);
    }
    assert Above(stack, |stack| - 1) == None;
    assert Spine(later, stack);
  }

  /** New children for the top node, whose trees are in place. */
  lemma SetTop(nodes: seq<Cell>, stack: seq<NodeId>, later: seq<Cell>, kids: seq<Child>)
    requires Spine(nodes, stack) && stack[|stack| - 1] < |nodes|
    requires var top := stack[|stack| - 1];
      later == nodes[top := nodes[top].(children := kids)] && Within(nodes, kids, top, |nodes|)
    ensures Spine(later, stack)
    ensures Frames(later, stack)
            == WithChildren(Frames(nodes, stack), Built(nodes, kids, stack[|stack| - 1]))
  {
    var top := stack[|stack| - 1];
    assert OpenNode(nodes, top, Above(stack, |stack| - 1));
    BuiltFrame(nodes, later, kids, top, |nodes|);
    hide Within, Built;
    BelowTop(nodes, later, stack);
    hide Spine;
    assert Top(Frames(nodes, stack)) == FrameOf(nodes, top, None);
    assert FrameOf(later, top, None) == FrameOf(nodes, top, None).(children := Built(nodes, kids, top));
  }

  /** The store once a new node is put last under `top`. */
  function Grown(nodes: seq<Cell>, top: NodeId, tag: Tag, attrs: Attrs): seq<Cell>
    requires top < |nodes|
  {
    nodes[top := nodes[top].(children := nodes[top].children + [NodeChild(|nodes|)])] + [Cell(tag, attrs, [])]
  }

  lemma GrownTop(nodes: seq<Cell>, top: NodeId, tag: Tag, attrs: Attrs)
    requires OpenNode(nodes, top, None)
    ensures var later := Grown(nodes, top, tag, attrs);
      && OpenNode(later, top, Some(|nodes|)) && OpenNode(later, |nodes|, None)
      && FrameOf(later, top, Some(|nodes|)) == FrameOf(nodes, top, None)
      && FrameOf(later, |nodes|, None) == Frame(tag, attrs, [])
  {
    var kids := nodes[top].children;
    var later := Grown(nodes, top, tag, attrs);
    assert later[top].children[..|kids|] == kids;
    BuiltFrame(nodes, later, kids, top, |nodes|);
  }

  /** Each frame of the grown stack is the one it was, or the new one. */
  lemma GrowAt(nodes: seq<Cell>, stack: seq<NodeId>, tag: Tag, attrs: Attrs, i: nat)
    requires Spine(nodes, stack) && stack[|stack| - 1] < |nodes| && i <= |stack|
    ensures var later, taller := Grown(nodes, stack[|stack| - 1], tag, attrs), stack + [|nodes|];
      && OpenNode(later, taller[i], Above(taller, i))
      && FrameOf(later, taller[i], Above(taller, i))
         == if i < |stack| then Frames(nodes, stack)[i] else Frame(tag, attrs, [])
  {
    hide OpenNode, FrameOf;
    var n, top := |stack|, stack[|stack| - 1];
    var later, taller := Grown(nodes, top, tag, attrs), stack + [|nodes|];
    if i < n - 1 {
      assert Above(taller, i) == Above(stack, i);
      GrowBelow(nodes, stack, later, i);
    } else {
      assert Above(stack, n - 1) == None && Above(taller, n - 1) == Some(|nodes|) && Above(taller, n) == None;
      assert OpenNode(nodes, top, Above(stack, n - 1));
      GrownTop(nodes, top, tag, attrs);
    }
  }

  lemma GrowSpine(nodes: seq<Cell>, stack: seq<NodeId>, tag: Tag, attrs: Attrs)
    requires Spine(nodes, stack) && stack[|stack| - 1] < |nodes|
    ensures var later := Grown(nodes, stack[|stack| - 1], tag, attrs);
      && Spine(later, stack + [|nodes|])
      && Frames(later, stack + [|nodes|]) == Frames(nodes, stack) + [Frame(tag, attrs, [])]
  {
    var later, taller := Grown(nodes, stack[|stack| - 1], tag, attrs), stack + [|nodes|];
    hide OpenNode, FrameOf, Grown, Above;
    forall i | 0 <= i < |taller|
      ensures OpenNode(later, taller[i], Above(taller, i))
      ensures FrameOf(later, taller[i], Above(taller, i)) == (Frames(nodes, stack) + [Frame(tag, attrs, [])])[i]
    {
      GrowAt(nodes, stack, tag, attrs, i);
    }
    assert Spine(later, taller);
  }

  lemma GrowBelow(nodes: seq<Cell>, stack: seq<NodeId>, later: seq<Cell>, i: nat)
    requires Spine(nodes, stack) && i < |stack| - 1 && |nodes| <= |later|
    requires forall x | 0 <= x < stack[|stack| - 1] :: x < |nodes| && later[x] == nodes[x]
    ensures OpenNode(later, stack[i], Above(stack, i))
    ensures FrameOf(later, stack[i], Above(stack, i)) == Frames(nodes, stack)[i]
  {
    hide FrameOf, OpenNode;
    assert OpenNode(nodes, stack[i], Above(stack, i));
    Increasing(nodes, stack, i + 1, |stack| - 1);
    OpenNodeFrame(nodes, later, stack[i], stack[i + 1]);
  }

  lemma {:induction false} TruncateSpine(nodes: seq<Cell>, stack: seq<NodeId>, depth: nat)
    requires Spine(nodes, stack) && 0 < depth <= |stack|
    ensures Spine(nodes, stack[..depth])
    ensures Frames(nodes, stack[..depth]) == CloseFrom(Frames(nodes, stack), depth)
    decreases |stack|
  {
    hide Spine, Frames, Pop;
    if depth == |stack| {
      assert stack[..depth] == stack;
    } else {
      PopSpine(nodes, stack);
      var below := stack[..|stack| - 1];
      TruncateSpine(nodes, below, depth);
      assert below[..depth] == stack[..depth];
    }
  }

  /** The tree under the root, open nodes and all, is the one the frames stand
      for. */
  lemma {:induction false} RootTree(nodes: seq<Cell>, stack: seq<NodeId>)
    requires Spine(nodes, stack)
    ensures stack[0] < |nodes| && Within(nodes, nodes[stack[0]].children, stack[0], |nodes|)
    ensures Tree(Frames(nodes, stack))
            == Element(nodes[stack[0]].tag, nodes[stack[0]].attrs, Built(nodes, nodes[stack[0]].children, stack[0]))
    decreases |stack|
  {
    if |stack| == 1 {
      assert OpenNode(nodes, stack[0], Above(stack, 0));
    } else {
      hide Spine, Frames, Pop;
      PopSpine(nodes, stack);
      RootTree(nodes, stack[..|stack| - 1]);
    }
  }

  // ----- removing an emptied node -----

  lemma {:induction false} WithinParts(nodes: seq<Cell>, a: seq<Child>, b: seq<Child>, lo: NodeId)
    requires Within(nodes, a + b, lo, |nodes|)
    ensures Within(nodes, a, lo, |nodes|) && Within(nodes, b, lo, |nodes|)
    decreases |a|
  {
    if a == [] {
      assert a + b == b;
    } else {
      assert (a + b)[1..] == a[1..] + b;
      WithinParts(nodes, a[1..], b, lo);
    }
  }

  lemma BuiltWithout(nodes: seq<Cell>, kids: seq<Child>, lo: NodeId, k: nat)
    requires Within(nodes, kids, lo, |nodes|) && k < |kids|
    ensures Within(nodes, WithoutAt(kids, k), lo, |nodes|)
    ensures Built(nodes, WithoutAt(kids, k), lo) == WithoutAt(Built(nodes, kids, lo), k)
  {
    var a, b := kids[..k], kids[k + 1..];
    assert kids == a + ([kids[k]] + b);
    WithinParts(nodes, a, [kids[k]] + b, lo);
    WithinParts(nodes, [kids[k]], b, lo);
    hide Within, Built;
    BuiltAppends(nodes, [kids[k]], b, lo);
    BuiltAppends(nodes, a, [kids[k]] + b, lo);
    BuiltAppends(nodes, a, b, lo);
  }

  lemma {:induction false} BuiltAt(nodes: seq<Cell>, kids: seq<Child>, lo: NodeId, k: nat)
    requires Within(nodes, kids, lo, |nodes|) && k < |kids|
    ensures kids[k].NodeChild? ==> lo < kids[k].id < |nodes| && Within(nodes, nodes[kids[k].id].children, kids[k].id, |nodes|)
    ensures Built(nodes, kids, lo)[k] == BuiltChild(nodes, kids[k], lo)
    decreases k
  {
    if k > 0 { BuiltAt(nodes, kids[1..], lo, k - 1); }
  }

  lemma {:induction false} RemoveFirstAt(all: seq<Node>, node: Node, k: nat)
    requires k < |all| && all[k] == node && node !in all[..k]
    ensures RemoveFirst(all, node) == WithoutAt(all, k)
    decreases k
  {
    if k > 0 {
      assert all[..k][0] == all[0] && all[1..][..k - 1] == all[..k][1..];
      RemoveFirstAt(all[1..], node, k - 1);
    }
  }

  /** Whether a child equals an element that holds nothing. */
  predicate EqualsEmpty(nodes: seq<Cell>, kid: Child, tag: Tag, attrs: Attrs)
    requires kid.NodeChild? ==> kid.id < |nodes|
  {
    kid.NodeChild? && nodes[kid.id] == Cell(tag, attrs, [])
  }

  lemma EqualsEmptyBuilt(nodes: seq<Cell>, kids: seq<Child>, lo: NodeId, k: nat, tag: Tag, attrs: Attrs)
    requires Within(nodes, kids, lo, |nodes|) && k < |kids|
    ensures kids[k].NodeChild? ==> kids[k].id < |nodes|
    ensures EqualsEmpty(nodes, kids[k], tag, attrs) <==> Built(nodes, kids, lo)[k] == Element(tag, attrs, [])
  {
    BuiltAt(nodes, kids, lo, k);
  }

  /** Where `kids` first hold a child equal to an empty `<tag>`. */
  method FirstEqual(nodes: seq<Cell>, kids: seq<Child>, ghost lo: NodeId, tag: Tag, attrs: Attrs) returns (k: nat)
    requires Within(nodes, kids, lo, |nodes|) && Element(tag, attrs, []) in Built(nodes, kids, lo)
    ensures k < |kids|
    ensures RemoveFirst(Built(nodes, kids, lo), Element(tag, attrs, [])) == WithoutAt(Built(nodes, kids, lo), k)
  {
    ghost var all := Built(nodes, kids, lo);
    hide Within, Built;
    k := 0;
    while true
      invariant 0 <= k < |kids|
      invariant Element(tag, attrs, []) !in all[..k]
      decreases |kids| - k
    {
      EqualsEmptyBuilt(nodes, kids, lo, k, tag, attrs);
      if EqualsEmpty(nodes, kids[k], tag, attrs) { break; }
      assert all[..k + 1] == all[..k] + [all[k]];
      assert all[..|all|] == all;
      k := k + 1;
    }
    RemoveFirstAt(all, Element(tag, attrs, []), k);
  }

  lemma DataBuilt(nodes: seq<Cell>, kids: seq<Child>, lo: NodeId, data: string)
    requires Within(nodes, kids, lo, |nodes|)
    ensures Within(nodes, kids + [DataChild(data)], lo, |nodes|)
    ensures Built(nodes, kids + [DataChild(data)], lo) == Built(nodes, kids, lo) + [Text(data)]
  {
    assert [DataChild(data)][1..] == [];
    BuiltAppends(nodes, kids, [DataChild(data)], lo);
  }

  lemma InlineUnfolds(frames: seq<Frame>)
    requires frames != []
    ensures if |frames| > 1 && Inline(Top(frames).tag) then
              && PopInlines(frames) == PopInlines(PopInline(frames))
              && OpenInlines(frames) == OpenInlines(PopInline(frames)) + [MarkOf(Top(frames))]
            else PopInlines(frames) == frames && OpenInlines(frames) == []
  {
  }

  lemma DepthUnfolds(frames: seq<Frame>, depth: nat, tag: Tag)
    requires depth < |frames|
    ensures Depth(frames[..depth + 1], tag)
            == if depth == 0 then 0 else if frames[depth].tag == tag then depth else Depth(frames[..depth], tag)
  {
    assert frames[..depth + 1][..depth] == frames[..depth];
  }

  // ----- the parser -----

  class RulesHTMLParser {
    var nodes: seq<Cell>
    var stack: seq<NodeId>

    ghost predicate Valid()
      reads this
    {
      Spine(nodes, stack)
    }

    ghost function Value(): (frames: seq<Frame>)
      reads this
      requires Valid()
      ensures frames != []
    {
      Frames(nodes, stack)
    }

    constructor ()
      ensures Valid() && Value() == EMPTY_STACK
    {
      nodes := [Cell(RootTag, map[], [])];
      stack := [0];
    }

    /** The open node on top is what the top frame stands for. */
    lemma TopIs()
      requires Valid()
      ensures stack != [] && stack[|stack| - 1] < |nodes| && |Value()| == |stack|
      ensures var cell := nodes[stack[|stack| - 1]];
        && Within(nodes, cell.children, stack[|stack| - 1], |nodes|)
        && Top(Value()) == Frame(cell.tag, cell.attrs, Built(nodes, cell.children, stack[|stack| - 1]))
    {
      assert OpenNode(nodes, stack[|stack| - 1], Above(stack, |stack| - 1));
    }

    method PopNode()
      requires Valid() && |stack| > 1
      modifies this`stack
      ensures Valid() && Value() == Pop(old(Value())) && |stack| == old(|stack|) - 1
    {
      PopSpine(nodes, stack);
      stack := stack[..|stack| - 1];
    }

    /** `children.remove`: take the first child of the top node that equals an
        empty `<tag>` out of it. */
    method RemoveChild(tag: Tag, attrs: Attrs)
      requires Valid() && Element(tag, attrs, []) in Top(Value()).children
      modifies this`nodes
      ensures Valid()
      ensures stack == old(stack)
      ensures Value() == WithChildren(old(Value()), RemoveFirst(Top(old(Value())).children, Element(tag, attrs, [])))
    {
      TopIs();
      hide Within, Built, Spine, Frames;
      ghost var before := nodes;
      var top := stack[|stack| - 1];
      var kids := nodes[top].children;
      var k := FirstEqual(nodes, kids, top, tag, attrs);
      BuiltWithout(nodes, kids, top, k);
      nodes := nodes[top := nodes[top].(children := kids[..k] + kids[k + 1..])];
      SetTop(before, stack, nodes, WithoutAt(kids, k));
    }

    method Append(child: string)
      requires Valid()
      modifies this`nodes
      ensures Valid() && Value() == AddData(old(Value()), child)
    {
      TopIs();
      ghost var before := nodes;
      var top := stack[|stack| - 1];
      ghost var kids := nodes[top].children;
      DataBuilt(nodes, kids, top, child);
      hide Within, Built, Spine, Frames;
      nodes := nodes[top := nodes[top].(children := nodes[top].children + [DataChild(child)])];
      SetTop(before, stack, nodes, kids + [DataChild(child)]);
    }

    /** Make a node, put it last under the top one, and open it. */
    method Push(tag: Tag, attrs: Attrs)
      requires Valid()
      modifies this
      ensures Valid() && Value() == old(Value()) + [Frame(tag, attrs, [])]
    {
      TopIs();
      GrowSpine(nodes, stack, tag, attrs);
      var id, top := |nodes|, stack[|stack| - 1];
      nodes := nodes[top := nodes[top].(children := nodes[top].children + [NodeChild(id)])] + [Cell(tag, attrs, [])];
      stack := stack + [id];
    }

    /** The tag of the open node on top. */
    method TopTag() returns (tag: Tag)
      requires Valid()
      ensures tag == Top(Value()).tag && |stack| == |Value()|
    {
      TopIs();
      tag := nodes[stack[|stack| - 1]].tag;
    }

    /** Pop an open inline node; one that holds nothing leaves its parent. */
    method PopInlineNode() returns (mark: Mark)
      requires Valid() && |stack| > 1 && |Value()| == |stack|
      modifies this
      ensures Valid() && Value() == PopInline(old(Value())) && |stack| == old(|stack|) - 1
      ensures mark == MarkOf(Top(old(Value())))
    {
      TopIs();
      var cell := nodes[stack[|stack| - 1]];
      mark := Mark(cell.tag, cell.attrs);
      hide Spine, Frames, Within, Built;
      PopNode();
      if cell.children == [] {
        RemoveChild(cell.tag, cell.attrs);
      }
    }

    /** Close the open inline nodes, to be opened again. */
    method PopInlineNodes() returns (reopen: seq<Mark>)
      requires Valid()
      modifies this
      ensures Valid() && Value() == PopInlines(old(Value()))
      ensures reopen == OpenInlines(old(Value()))
    {
      reopen := [];
      hide Spine, Frames, PopInline, MarkOf, Top;
      InlineUnfolds(Value());
      var tag := TopTag();
      while |stack| > 1 && Inline(tag)
        invariant Valid() && tag == Top(Value()).tag && |stack| == |Value()|
        invariant PopInlines(Value()) == PopInlines(old(Value()))
        invariant OpenInlines(Value()) + reopen == OpenInlines(old(Value()))
        decreases |stack|
      {
        InlineUnfolds(Value());
        var mark := PopInlineNode();
        reopen := [mark] + reopen;
        tag := TopTag();
      }
      InlineUnfolds(Value());
    }

    method CloseAuto(tag: Tag)
      requires Valid()
      modifies this`stack
      ensures Valid() && Value() == AutoClose(old(Value()), tag)
    {
      TopIs();
      ghost var before := Value();
      while |stack| > 1 && Closes(tag, nodes[stack[|stack| - 1]].tag)
        invariant Valid() && stack[|stack| - 1] < |nodes| && |Value()| == |stack|
        invariant Top(Value()).tag == nodes[stack[|stack| - 1]].tag
        invariant AutoClose(Value(), tag) == AutoClose(before, tag)
        decreases |stack|
      {
        hide Spine, Frames, Within, Built, Closes;
        PopNode();
        TopIs();
      }
    }

    method Reopen(reopen: seq<Mark>)
      requires Valid()
      modifies this
      ensures Valid() && Value() == OpenAll(old(Value()), reopen)
    {
      ghost var before := Value();
      for i := 0 to |reopen|
        invariant Valid() && OpenAll(Value(), reopen[i..]) == OpenAll(before, reopen)
      {
        hide Spine, Frames, Within, Built;
        assert reopen[i..][1..] == reopen[i + 1..] && reopen[i..][0] == reopen[i];
        Push(reopen[i].tag, reopen[i].attrs);
      }
    }

    method HandleStartTag(tag: Tag, attrs: Attrs) returns (error: Option<ParseError>)
      requires Valid()
      modifies this
      ensures Valid()
      ensures match StartTag(old(Value()), tag, attrs)
              case Success(frames) => error == None && Value() == frames
              case Failure(e) => error == Some(e) && Value() == old(Value())
    {
      hide Spine, Frames, Within, Built, Closes, PopInlines, OpenInlines, AutoClose, OpenAll;
      if !Known(tag) { return Some(UnknownTag(tag)); }
      var reopen := [];
      if Block(tag) {
        reopen := PopInlineNodes();
      }
      CloseAuto(tag);
      ghost var parent := Value();
      Push(tag, attrs);
      if Void(tag) {
        assert Pop(parent + [Frame(tag, attrs, [])]) == WithChildren(parent, Top(parent).children + [Element(tag, attrs, [])]) by {
          assert (parent + [Frame(tag, attrs, [])])[..|parent|] == parent;
        }
        PopNode();
        return None;
      }
      Reopen(reopen);
      error := None;
    }

    /** Feed the parser the page's events, up to the first it refuses. */
    method Feed(events: seq<Event>) returns (error: Option<ParseError>)
      requires Valid()
      modifies this
      ensures Valid()
      ensures match HandleAll(old(Value()), events)
              case Success(frames) => error == None && Value() == frames
              case Failure(e) => error == Some(e)
    {
      hide Spine, Frames, StartTag, EndTag, AddData;
      error := None;
      for i := 0 to |events|
        invariant Valid() && error == None
        invariant HandleAll(Value(), events[i..]) == HandleAll(old(Value()), events)
      {
        assert events[i..][0] == events[i] && events[i..][1..] == events[i + 1..];
        error := HandleEvent(events[i]);
        if error.Some? { return; }
      }
    }

    method HandleEvent(event: Event) returns (error: Option<ParseError>)
      requires Valid()
      modifies this
      ensures Valid()
      ensures match Handle(old(Value()), event)
              case Success(frames) => error == None && Value() == frames
              case Failure(e) => error == Some(e)
    {
      hide Spine, Frames, StartTag, EndTag, AddData;
      match event {
        case Start(tag, attrs) => error := HandleStartTag(tag, attrs);
        case End(tag) => error := HandleEndTag(tag);
        case Data(data) => Append(data); error := None;
      }
    }

    /** The page as parsed so far: the tree under the root node. */
    ghost function Page(): Node
      reads this
      requires Valid()
    {
      RootTree(nodes, stack);
      Element(nodes[stack[0]].tag, nodes[stack[0]].attrs, Built(nodes, nodes[stack[0]].children, stack[0]))
    }

    lemma PageIsTree()
      requires Valid()
      ensures Page() == Tree(Value())
    {
      RootTree(nodes, stack);
    }

    method HandleEndTag(tag: Tag) returns (error: Option<ParseError>)
      requires Valid()
      modifies this`stack
      ensures Valid()
      ensures match EndTag(old(Value()), tag)
              case Success(frames) => error == None && Value() == frames
              case Failure(e) => error == Some(e) && Value() == old(Value())
    {
      if !Known(tag) { return Some(UnknownClosingTag(tag)); }
      var depth := FindOpen(tag);
      if depth > 0 {
        hide Spine, Frames, Within, Built;
        TruncateSpine(nodes, stack, depth);
        stack := stack[..depth];
      }
      error := None;
    }

    /** The depth of the innermost open `tag` above the root; 0 if none is. */
    method FindOpen(tag: Tag) returns (depth: nat)
      requires Valid()
      ensures depth == Depth(Value(), tag) && depth < |stack| == |Value()|
    {
      hide Spine, Frames, Depth;
      TopIs();
      ghost var frames := Value();
      depth := |stack| - 1;
      assert frames[..|stack|] == frames;
      while depth > 0
        invariant 0 <= depth < |stack| == |frames|
        invariant Depth(frames[..depth + 1], tag) == Depth(frames, tag)
      {
        TagAt(depth);
        DepthUnfolds(frames, depth, tag);
        if nodes[stack[depth]].tag == tag { return; }
        depth := depth - 1;
      }
      DepthUnfolds(frames, 0, tag);
    }

    lemma TagAt(i: nat)
      requires Valid() && i < |stack|
      ensures stack[i] < |nodes| && |Value()| == |stack| && Value()[i].tag == nodes[stack[i]].tag
    {
      assert OpenNode(nodes, stack[i], Above(stack, i));
    }
  }

  /** Parse a page: build its tree in the store, or refuse it. */
  method ParsePage(events: seq<Event>) returns (parser: RulesHTMLParser, error: Option<ParseError>)
    ensures fresh(parser) && parser.Valid()
    ensures match Parse(events)
            case Success(page) => error == None && parser.Page() == page
            case Failure(e) => error == Some(e)
    ensures error == None ==> PiecesOf(parser.Page()) == Spelled(OUTSIDE, events)
  {
    parser := new RulesHTMLParser();
    error := parser.Feed(events);
    parser.PageIsTree();
    if error == None { ParseConserves(events); }
  }
}
