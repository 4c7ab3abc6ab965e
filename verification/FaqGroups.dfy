/** Which lines of an FAQ column the first pass of `paragraphs` keeps together:
    a line goes to the first group it joins, and groups are never merged. */
module FaqGroups {
  import opened FaqColumns
  import opened FaqParagraphs

  /** Two lines share a block, or start less than `SAME_LINE_Y` apart. */
  predicate Related(a: Line, b: Line) {
    a.block == b.block || Gap(a, b) < SAME_LINE_Y
  }

  /** Any two related lines are in one group. */
  ghost predicate KeptTogether(groups: seq<seq<Line>>) {
    forall g, h, i, j | 0 <= g < |groups| && 0 <= h < |groups| && 0 <= i < |groups[g]| && 0 <= j < |groups[h]| ::
      Related(groups[g][i], groups[h][j]) ==> g == h
  }

  /** At most one of `groups` has a line related to `line`. */
  ghost predicate JoinsOne(groups: seq<seq<Line>>, line: Line) {
    forall g, h | 0 <= g < h < |groups| :: !(Joins(groups[g], line) && Joins(groups[h], line))
  }

  // ----- placing one line -----

  function FirstJoined(groups: seq<seq<Line>>, line: Line): (k: nat)
    ensures k <= |groups| && (k < |groups| ==> Joins(groups[k], line))
    ensures forall g | 0 <= g < k :: !Joins(groups[g], line)
  {
    if groups == [] then 0
    else if Joins(groups[0], line) then 0
    else FirstJoined(groups[1..], line) + 1
  }

  lemma {:induction false} PlaceAt(groups: seq<seq<Line>>, line: Line)
    ensures var k := FirstJoined(groups, line);
      Place(groups, line) == if k < |groups| then groups[k := groups[k] + [line]] else groups + [[line]]
  {
    hide Joins;
    if groups != [] && !Joins(groups[0], line) { PlaceAt(groups[1..], line); }
  }

  lemma JoinsRelated(group: seq<Line>, line: Line)
    ensures Joins(group, line) <==> exists i | 0 <= i < |group| :: Related(group[i], line)
    ensures forall i | 0 <= i < |group| :: Related(group[i], line) <==> Related(line, group[i])
  {
    assert forall i | 0 <= i < |group| ::
      Related(group[i], line) <==> (group[i].block == line.block || Gap(line, group[i]) < SAME_LINE_Y);
  }

  /** No line of `b` joins group `a`. */
  ghost predicate Clear(a: seq<Line>, b: seq<Line>) {
    forall i, j | 0 <= i < |a| && 0 <= j < |b| :: !Related(a[i], b[j])
  }

  ghost predicate AllClear(groups: seq<seq<Line>>) {
    forall g, h | 0 <= g < h < |groups| :: Clear(groups[g], groups[h])
  }

  lemma AcrossUnrelated(groups: seq<seq<Line>>, g: nat, h: nat, i: nat, j: nat)
    requires AllClear(groups) && g < |groups| && h < |groups| && g != h && i < |groups[g]| && j < |groups[h]|
    ensures !Related(groups[g][i], groups[h][j])
  {
    if g < h {
      assert Clear(groups[g], groups[h]);
    } else {
      assert Clear(groups[h], groups[g]);
      assert !Related(groups[h][j], groups[g][i]);
    }
  }

  lemma TogetherIsClear(groups: seq<seq<Line>>)
    ensures KeptTogether(groups) <==> AllClear(groups)
  {
    if AllClear(groups) {
      forall g, h, i, j |
        0 <= g < |groups| && 0 <= h < |groups| && 0 <= i < |groups[g]| && 0 <= j < |groups[h]|
        && Related(groups[g][i], groups[h][j])
        ensures g == h
      {
        if g != h { AcrossUnrelated(groups, g, h, i, j); }
      }
    }
  }

  lemma ClearWith(a: seq<Line>, b: seq<Line>, line: Line)
    ensures Clear(a + [line], b) <==> Clear(a, b) && !Joins(b, line)
    ensures Clear(b, a + [line]) <==> Clear(b, a) && !Joins(b, line)
    ensures Clear(b, [line]) <==> !Joins(b, line)
  {
    JoinsRelated(b, line);
    assert forall i | 0 <= i < |a| :: (a + [line])[i] == a[i];
    assert (a + [line])[|a|] == line;
    assert [line][0] == line;
    hide Joins, Related;
  }

  /** Placing a line keeps related lines together exactly when they were, and it
      joins at most one of the groups. */
  lemma PlaceClears(groups: seq<seq<Line>>, line: Line)
    ensures AllClear(Place(groups, line)) <==> AllClear(groups) && JoinsOne(groups, line)
  {
    var k, after := FirstJoined(groups, line), Place(groups, line);
    PlaceAt(groups, line);
    hide Joins, Clear, Place;
    if k == |groups| {
      forall g | 0 <= g < |groups| ensures Clear(groups[g], [line]) {
        ClearWith([], groups[g], line);
      }
      AddedClear(groups, [line]);
    } else {
      forall g | 0 <= g < |groups| && g != k
        ensures Clear(after[g], after[k]) <==> Clear(groups[g], groups[k]) && !Joins(groups[g], line)
        ensures Clear(after[k], after[g]) <==> Clear(groups[k], groups[g]) && !Joins(groups[g], line)
      {
        ClearWith(groups[k], groups[g], line);
      }
      PlacedClear(groups, after, line, k);
    }
  }

  lemma AddedClear(groups: seq<seq<Line>>, group: seq<Line>)
    requires forall g | 0 <= g < |groups| :: Clear(groups[g], group)
    ensures AllClear(groups + [group]) <==> AllClear(groups)
  {
    hide Clear;
    var after := groups + [group];
    if AllClear(after) {
      forall g, h | 0 <= g < h < |groups| ensures Clear(groups[g], groups[h]) {
        assert Clear(after[g], after[h]);
      }
    }
  }

  lemma PlacedClear(groups: seq<seq<Line>>, after: seq<seq<Line>>, line: Line, k: nat)
    requires k < |groups| == |after| && Joins(groups[k], line)
    requires forall g | 0 <= g < |groups| && g != k ::
      && after[g] == groups[g]
      && (Clear(after[g], after[k]) <==> Clear(groups[g], groups[k]) && !Joins(groups[g], line))
      && (Clear(after[k], after[g]) <==> Clear(groups[k], groups[g]) && !Joins(groups[g], line))
    ensures AllClear(after) <==> AllClear(groups) && JoinsOne(groups, line)
  {
    hide Joins, Clear;
    if AllClear(after) {
      forall g, h | 0 <= g < h < |groups| ensures Clear(groups[g], groups[h]) {
        assert Clear(after[g], after[h]);
      }
      forall g | 0 <= g < |groups| && g != k ensures !Joins(groups[g], line) {
        assert g < k ==> Clear(after[g], after[k]);
        assert k < g ==> Clear(after[k], after[g]);
      }
    }
    if AllClear(groups) && JoinsOne(groups, line) {
      forall g | 0 <= g < |groups| && g != k ensures !Joins(groups[g], line) {
      }
      forall g, h | 0 <= g < h < |groups| ensures Clear(after[g], after[h]) {
        assert Clear(groups[g], groups[h]);
      }
    }
  }

  // ----- a whole column -----

  /** Each line, as it is placed, joins at most one group already made. */
  ghost predicate EachJoinsOne(column: seq<Line>) {
    forall k | 0 <= k < |column| :: JoinsOne(Grouped(column[..k]), column[k])
  }

  lemma {:induction false} GroupedClear(column: seq<Line>)
    ensures AllClear(Grouped(column)) <==> EachJoinsOne(column)
  {
    hide AllClear, JoinsOne;
    if column == [] {
      NoneClear();
    } else {
      var front, line := column[..|column| - 1], column[|column| - 1];
      GroupedClear(front);
      PlaceClears(Grouped(front), line);
      LastJoinsOne(column);
      hide Place, EachJoinsOne;
    }
  }

  lemma LastJoinsOne(column: seq<Line>)
    requires column != []
    ensures var front := column[..|column| - 1];
      EachJoinsOne(column) <==> EachJoinsOne(front) && JoinsOne(Grouped(front), column[|column| - 1])
  {
    hide JoinsOne, Grouped;
    var front := column[..|column| - 1];
    assert forall k | 0 <= k < |front| :: front[..k] == column[..k] && front[k] == column[k];
  }

  lemma NoneClear()
    ensures AllClear([])
  {
  }

  /** **Related lines stay together exactly when no line joins two groups.** */
  lemma RelatedStayTogether(column: seq<Line>)
    ensures KeptTogether(Grouped(column)) <==> EachJoinsOne(column)
  {
    TogetherIsClear(Grouped(column));
    GroupedClear(column);
    hide KeptTogether, AllClear, EachJoinsOne;
  }

  // ----- chains of related lines -----

  ghost predicate Chain(column: seq<Line>, path: seq<Line>) {
    && path != []
    && (forall i | 0 <= i < |path| :: path[i] in column)
    && (forall i | 0 <= i < |path| - 1 :: Related(path[i], path[i + 1]))
  }

  ghost predicate ChainOf(column: seq<Line>, a: Line, b: Line, path: seq<Line>) {
    Chain(column, path) && path[0] == a && path[|path| - 1] == b
  }

  /** A chain of lines of the column, each related to the next, leads from `a` to
      `b`. */
  ghost predicate Linked(column: seq<Line>, a: Line, b: Line) {
    exists path :: ChainOf(column, a, b, path)
  }

  lemma LinkedItself(column: seq<Line>, a: Line)
    requires a in column
    ensures Linked(column, a, a)
  {
    assert ChainOf(column, a, a, [a]);
  }

  lemma LinkedMore(column: seq<Line>, a: Line, b: Line, c: Line)
    requires Linked(column, a, b) && c in column && Related(b, c)
    ensures Linked(column, a, c)
  {
    hide Related;
    var path :| ChainOf(column, a, b, path);
    assert ChainOf(column, a, c, path + [c]);
  }

  lemma LinkedLonger(column: seq<Line>, longer: seq<Line>, a: Line, b: Line)
    requires Linked(column, a, b) && forall line | line in column :: line in longer
    ensures Linked(longer, a, b)
  {
    hide Related;
    var path :| ChainOf(column, a, b, path);
    assert ChainOf(longer, a, b, path);
  }

  lemma {:induction false} LinkedThrough(column: seq<Line>, a: Line, b: Line, path: seq<Line>)
    requires Linked(column, a, b) && Chain(column, path) && Related(b, path[0])
    ensures Linked(column, a, path[|path| - 1])
    decreases |path|
  {
    LinkedMore(column, a, b, path[0]);
    if |path| > 1 {
      assert Related(path[0], path[1]);
      assert forall i | 0 <= i < |path[1..]| :: path[1..][i] == path[i + 1];
      hide Related;
      LinkedThrough(column, a, path[0], path[1..]);
    }
  }

  lemma LinkedJoins(column: seq<Line>, a: Line, b: Line, c: Line)
    requires Linked(column, a, b) && Linked(column, b, c)
    ensures Linked(column, a, c)
  {
    var path :| ChainOf(column, b, c, path);
    assert Related(b, path[0]);
    hide Related;
    LinkedThrough(column, a, b, path);
  }

  lemma LinkedBack(column: seq<Line>, a: Line, b: Line)
    requires Linked(column, a, b)
    ensures Linked(column, b, a)
  {
    var path :| ChainOf(column, a, b, path);
    var back := seq(|path|, i requires 0 <= i < |path| => path[|path| - 1 - i]);
    forall i | 0 <= i < |back| - 1 ensures Related(back[i], back[i + 1]) {
      assert Related(path[|path| - 2 - i], path[|path| - 2 - i + 1]);
    }
    hide Related;
    assert ChainOf(column, b, a, back);
  }

  // ----- a group is linked -----

  /** The lines of a group are linked to its first. */
  ghost predicate GroupLinked(column: seq<Line>, group: seq<Line>) {
    group != [] && forall i | 0 <= i < |group| :: Linked(column, group[0], group[i])
  }

  lemma JoinedLinked(column: seq<Line>, group: seq<Line>, line: Line)
    requires GroupLinked(column, group) && Joins(group, line) && line in column
    ensures GroupLinked(column, group + [line])
  {
    JoinsRelated(group, line);
    hide Joins, Related, Linked;
    var i :| 0 <= i < |group| && Related(group[i], line);
    LinkedMore(column, group[0], group[i], line);
  }

  lemma LongerLinked(column: seq<Line>, longer: seq<Line>, group: seq<Line>)
    requires GroupLinked(column, group) && forall line | line in column :: line in longer
    ensures GroupLinked(longer, group)
  {
    hide Linked;
    forall i | 0 <= i < |group| ensures Linked(longer, group[0], group[i]) {
      LinkedLonger(column, longer, group[0], group[i]);
    }
  }

  lemma {:induction false} GroupsLinked(column: seq<Line>)
    ensures forall g | 0 <= g < |Grouped(column)| :: GroupLinked(column, Grouped(column)[g])
    decreases |column|
  {
    if column != [] {
      var front, line := column[..|column| - 1], column[|column| - 1];
      var groups := Grouped(front);
      GroupsLinked(front);
      PlaceAt(groups, line);
      assert column == front + [line];
      hide GroupLinked, Joins, Place;
      assert forall other | other in front :: other in column;
      hide Grouped;
      var k := FirstJoined(groups, line);
      forall g | 0 <= g < |groups| ensures GroupLinked(column, groups[g]) {
        LongerLinked(front, column, groups[g]);
      }
      if k < |groups| {
        JoinedLinked(column, groups[k], line);
      } else {
        LoneLinked(column, line);
      }
      GroupedLast(column);
    }
  }

  lemma GroupedLast(column: seq<Line>)
    requires column != []
    ensures Grouped(column) == Place(Grouped(column[..|column| - 1]), column[|column| - 1])
  {
  }

  lemma LoneLinked(column: seq<Line>, line: Line)
    requires line in column
    ensures GroupLinked(column, [line])
  {
    LinkedItself(column, line);
  }

  /** Two lines of one group are linked. */
  lemma SameGroupLinked(column: seq<Line>, g: nat, i: nat, j: nat)
    requires g < |Grouped(column)| && i < |Grouped(column)[g]| && j < |Grouped(column)[g]|
    ensures Linked(column, Grouped(column)[g][i], Grouped(column)[g][j])
  {
    GroupsLinked(column);
    hide Linked;
    var group := Grouped(column)[g];
    assert GroupLinked(column, group);
    LinkedBack(column, group[0], group[i]);
    LinkedJoins(column, group[i], group[0], group[j]);
  }

  // ----- linked lines stay together -----

  lemma {:induction false} FlatHas<T>(groups: seq<seq<T>>, item: T) returns (g: nat, i: nat)
    requires item in Flat(groups)
    ensures g < |groups| && i < |groups[g]| && groups[g][i] == item
  {
    if item in groups[0] {
      g := 0;
      i :| 0 <= i < |groups[0]| && groups[0][i] == item;
    } else {
      g, i := FlatHas(groups[1..], item);
      g := g + 1;
    }
  }

  lemma {:induction false} FlatHolds<T>(groups: seq<seq<T>>, g: nat, i: nat)
    requires g < |groups| && i < |groups[g]|
    ensures groups[g][i] in Flat(groups)
  {
    if g > 0 { FlatHolds(groups[1..], g - 1, i); }
  }

  /** Every line of the column sits in some group. */
  lemma SomeGroup(column: seq<Line>, line: Line) returns (g: nat, i: nat)
    requires line in column
    ensures g < |Grouped(column)| && i < |Grouped(column)[g]| && Grouped(column)[g][i] == line
  {
    GroupedKeeps(column);
    assert line in multiset(Flat(Grouped(column)));
    g, i := FlatHas(Grouped(column), line);
  }

  lemma FromColumn(column: seq<Line>, g: nat, i: nat)
    requires g < |Grouped(column)| && i < |Grouped(column)[g]|
    ensures Grouped(column)[g][i] in column
  {
    GroupedKeeps(column);
    FlatHolds(Grouped(column), g, i);
    assert Grouped(column)[g][i] in multiset(Flat(Grouped(column)));
  }

  lemma {:induction false} ChainStays(column: seq<Line>, path: seq<Line>, g: nat, h: nat, i: nat, j: nat)
    requires KeptTogether(Grouped(column)) && Chain(column, path)
    requires g < |Grouped(column)| && i < |Grouped(column)[g]| && Grouped(column)[g][i] == path[0]
    requires h < |Grouped(column)| && j < |Grouped(column)[h]| && Grouped(column)[h][j] == path[|path| - 1]
    ensures g == h
    decreases |path|
  {
    if |path| == 1 {
      assert Related(Grouped(column)[g][i], Grouped(column)[h][j]);
    } else {
      var f, k := SomeGroup(column, path[1]);
      assert Related(path[0], path[1]);
      assert Related(Grouped(column)[g][i], Grouped(column)[f][k]);
      assert g == f;
      assert forall i | 0 <= i < |path[1..]| :: path[1..][i] == path[i + 1];
      hide Related, KeptTogether;
      ChainStays(column, path[1..], f, h, k, j);
    }
  }

  // ----- blocks that overlap -----

  /** How far down a line reaches, taken to be at least `SAME_LINE_Y` tall. */
  function Foot(line: Line): real {
    if line.y1 < line.y0 + SAME_LINE_Y then line.y0 + SAME_LINE_Y else line.y1
  }

  /** Block `x` starts above where block `y` ends. */
  ghost predicate StartsAbove(column: seq<Line>, x: nat, y: nat) {
    exists p, q | p in column && q in column :: p.block == x && q.block == y && p.y0 < Foot(q)
  }

  /** The blocks' extents down the page overlap. */
  ghost predicate Overlap(column: seq<Line>, x: nat, y: nat) {
    StartsAbove(column, x, y) && StartsAbove(column, y, x)
  }

  /** The lines of overlapping blocks, and of one block, are in one group. */
  ghost predicate Reassembled(column: seq<Line>) {
    var groups: seq<seq<Line>> := Grouped(column);
    forall g, h, i, j | 0 <= g < |groups| && 0 <= h < |groups| && 0 <= i < |groups[g]| && 0 <= j < |groups[h]| ::
      Overlap(column, groups[g][i].block, groups[h][j].block) ==> g == h
  }

  /** Between overlapping blocks, and within one, a chain of lines leads from any
      line to any other, each sharing the next one's block or starting less than
      `SAME_LINE_Y` from it. */
  ghost predicate OverlapsLinked(column: seq<Line>) {
    forall a, b | a in column && b in column && Overlap(column, a.block, b.block) :: Linked(column, a, b)
  }

  lemma RelatedOverlap(column: seq<Line>, a: Line, b: Line)
    requires a in column && b in column && Related(a, b)
    ensures Overlap(column, a.block, b.block)
  {
    if a.block == b.block {
      assert a.y0 < Foot(a);
    } else {
      assert a.y0 < Foot(b) && b.y0 < Foot(a);
    }
  }

  lemma ReassembledTogether(column: seq<Line>)
    requires Reassembled(column)
    ensures KeptTogether(Grouped(column)) && OverlapsLinked(column)
  {
    var groups: seq<seq<Line>> := Grouped(column);
    hide Linked, Grouped, Overlap;
    forall g, h, i, j |
      0 <= g < |groups| && 0 <= h < |groups| && 0 <= i < |groups[g]| && 0 <= j < |groups[h]|
      && Related(groups[g][i], groups[h][j])
      ensures g == h
    {
      FromColumn(column, g, i);
      FromColumn(column, h, j);
      RelatedOverlap(column, groups[g][i], groups[h][j]);
    }
    forall a, b | a in column && b in column && Overlap(column, a.block, b.block) ensures Linked(column, a, b) {
      var g, i := SomeGroup(column, a);
      var h, j := SomeGroup(column, b);
      assert g == h;
      SameGroupLinked(column, g, i, j);
    }
  }

  lemma TogetherReassembled(column: seq<Line>)
    requires KeptTogether(Grouped(column)) && OverlapsLinked(column)
    ensures Reassembled(column)
  {
    var groups: seq<seq<Line>> := Grouped(column);
    hide Grouped, Overlap, KeptTogether, Chain;
    forall g: nat, h: nat, i: nat, j: nat |
      g < |groups| && h < |groups| && i < |groups[g]| && j < |groups[h]|
      && Overlap(column, groups[g][i].block, groups[h][j].block)
      ensures g == h
    {
      FromColumn(column, g, i);
      FromColumn(column, h, j);
      assert Linked(column, groups[g][i], groups[h][j]);
      var path :| ChainOf(column, groups[g][i], groups[h][j], path);
      ChainStays(column, path, g, h, i, j);
    }
  }

  /** **Blocks that overlap are one paragraph exactly when** no line joins two
      groups as it is placed, and a chain of related lines leads from each of the
      blocks' lines to each other. */
  lemma BlocksReassembled(column: seq<Line>)
    ensures Reassembled(column) <==> EachJoinsOne(column) && OverlapsLinked(column)
  {
    RelatedStayTogether(column);
    hide EachJoinsOne, KeptTogether;
    if Reassembled(column) { ReassembledTogether(column); }
    if KeptTogether(Grouped(column)) && OverlapsLinked(column) { TogetherReassembled(column); }
    hide Reassembled, OverlapsLinked;
  }

  // ----- two that are not -----

  /** A line one word wide. */
  function Single(y0: real, block: nat): Line {
    Line(y0, y0 + 12.0, block, [Word(0.0, 10.0, "")])
  }

  lemma OverlappingGrouped(a: Line, b: Line, c: Line, d: Line)
    requires a == Single(10.0, 1) && b == Single(30.0, 2) && c == Single(50.0, 1) && d == Single(51.0, 2)
    ensures Grouped([a, b, c, d]) == [[a, c, d], [b]]
  {
    assert [a, b, c, d][..3] == [a, b, c] && [a, b, c][..2] == [a, b] && [a, b][..1] == [a] && [a][..0] == [];
    assert Grouped([a]) == [[a]];
    assert !Joins([a], b);
    assert [[a]][1..] == [];
    assert Grouped([a, b]) == Place([[a]], b) == [[a]] + [[b]];
    assert [a][0].block == c.block && Joins([a], c);
    assert [[a], [b]][1..] == [[b]] && [a] + [c] == [a, c];
    assert Grouped([a, b, c]) == Place([[a], [b]], c) == [[a] + [c]] + [[b]];
    assert Gap(d, [a, c][1]) < SAME_LINE_Y && Joins([a, c], d);
    assert [[a, c], [b]][1..] == [[b]];
    assert [a, c] + [d] == [a, c, d];
  }

  /** Two blocks overlap if a line of each starts above the foot of one of the
      other's. */
  lemma FourOverlap(column: seq<Line>, x: nat, y: nat, i: nat, j: nat, k: nat)
    requires i < |column| && j < |column| && k < |column|
    requires column[i].block == x && column[j].block == y && column[k].block == x
    requires column[i].y0 < Foot(column[j]) && column[j].y0 < Foot(column[k])
    ensures Overlap(column, x, y)
  {
    assert column[i] in column && column[j] in column && column[k] in column;
    hide Foot;
  }

  /** Two blocks that overlap down the page need not become one paragraph: a
      line that joins two groups goes to the first, and leaves its block's. */
  lemma OverlappingBlocksSplit()
    ensures var a, b, c, d := Single(10.0, 1), Single(30.0, 2), Single(50.0, 1), Single(51.0, 2);
      && Grouped([a, b, c, d]) == [[a, c, d], [b]]
      && Overlap([a, b, c, d], 1, 2) && OverlapsLinked([a, b, c, d])
      && !EachJoinsOne([a, b, c, d]) && !Reassembled([a, b, c, d])
  {
    var a, b, c, d := Single(10.0, 1), Single(30.0, 2), Single(50.0, 1), Single(51.0, 2);
    var column := [a, b, c, d];
    OverlappingGrouped(a, b, c, d);
    FourOverlap(column, 1, 2, 0, 1, 2);
    AllLinked(column, a, b, c, d);
    assert Related(Grouped(column)[0][2], Grouped(column)[1][0]);
    assert !KeptTogether(Grouped(column));
    hide Grouped, KeptTogether, Related, Overlap, OverlapsLinked, EachJoinsOne, Reassembled;
    RelatedStayTogether(column);
    BlocksReassembled(column);
  }

  /** Four lines, each related to the next, are all linked. */
  lemma AllLinked(column: seq<Line>, a: Line, b: Line, c: Line, d: Line)
    requires column == [a, b, c, d] && Related(a, c) && Related(c, d) && Related(d, b)
    ensures OverlapsLinked(column)
  {
    assert column[0] == a && column[1] == b && column[2] == c && column[3] == d;
    hide Related, Linked, Overlap;
    LinkedItself(column, a);
    LinkedMore(column, a, a, c);
    LinkedMore(column, a, c, d);
    LinkedMore(column, a, d, b);
    forall x, y | x in column && y in column ensures Linked(column, x, y) {
      assert Linked(column, a, x) && Linked(column, a, y);
      LinkedBack(column, a, x);
      LinkedJoins(column, x, a, y);
    }
  }

  lemma InterleavedGrouped(a: Line, b: Line, c: Line, d: Line)
    requires a == Single(10.0, 1) && b == Single(30.0, 2) && c == Single(50.0, 1) && d == Single(70.0, 2)
    ensures Grouped([a, b, c, d]) == [[a, c], [b, d]]
  {
    assert [a, b, c, d][..3] == [a, b, c] && [a, b, c][..2] == [a, b] && [a, b][..1] == [a] && [a][..0] == [];
    assert Grouped([a]) == [[a]];
    assert !Joins([a], b);
    assert [[a]][1..] == [];
    assert Grouped([a, b]) == Place([[a]], b) == [[a]] + [[b]];
    assert [a][0].block == c.block && Joins([a], c);
    assert [[a], [b]][1..] == [[b]] && [a] + [c] == [a, c];
    assert Grouped([a, b, c]) == Place([[a], [b]], c) == [[a] + [c]] + [[b]];
    assert !Joins([a, c], d);
    assert [b][0].block == d.block && Joins([b], d);
    assert [[a, c], [b]][1..] == [[b]] && [b] + [d] == [b, d] && [[b]][1..] == [];
    assert Place([[b]], d) == [[b, d]] + [];
  }

  /** Nor need two blocks with a line each between the other's: no line of one
      starts near a line of the other, so nothing brings them together. */
  lemma InterleavedBlocksSplit()
    ensures var a, b, c, d := Single(10.0, 1), Single(30.0, 2), Single(50.0, 1), Single(70.0, 2);
      && Grouped([a, b, c, d]) == [[a, c], [b, d]]
      && Overlap([a, b, c, d], 1, 2) && EachJoinsOne([a, b, c, d])
      && !OverlapsLinked([a, b, c, d]) && !Reassembled([a, b, c, d])
  {
    var a, b, c, d := Single(10.0, 1), Single(30.0, 2), Single(50.0, 1), Single(70.0, 2);
    var column := [a, b, c, d];
    InterleavedGrouped(a, b, c, d);
    FourOverlap(column, 1, 2, 0, 1, 2);
    TwoApart([a, c], [b, d]);
    assert Grouped(column)[0][0] == a && Grouped(column)[1][0] == b;
    assert a.block == 1 && b.block == 2;
    hide Grouped, KeptTogether, Related, Overlap, OverlapsLinked, EachJoinsOne;
    assert !Reassembled(column);
    hide Reassembled;
    RelatedStayTogether(column);
    BlocksReassembled(column);
  }

  lemma TwoApart(first: seq<Line>, second: seq<Line>)
    requires forall i, j | 0 <= i < |first| && 0 <= j < |second| ::
      !Related(first[i], second[j]) && !Related(second[j], first[i])
    ensures KeptTogether([first, second])
  {
    hide Related;
    assert [first, second][0] == first && [first, second][1] == second;
  }
}
