/** Regrouping an FAQ page's lines (`paragraphs`, `merge_lines` in
    `scripts/ffg-faq.py`): no word is lost or repeated on the way. */
module FaqParagraphs {
  import opened Wrappers
  import opened FaqColumns
  import FisherYates

  function Flat<T>(groups: seq<seq<T>>): seq<T> {
    if groups == [] then [] else groups[0] + Flat(groups[1..])
  }

  /** What the items hold, together. */
  function Bag<T>(items: seq<T>, holds: T -> multiset<Word>): multiset<Word> {
    if items == [] then multiset{} else Bag(items[..|items| - 1], holds) + holds(items[|items| - 1])
  }

  function LineWords(line: Line): multiset<Word> {
    multiset(line.words)
  }

  function WordsIn(lines: seq<Line>): multiset<Word> {
    Bag(lines, LineWords)
  }

  lemma {:induction false} BagAppends<T>(a: seq<T>, b: seq<T>, holds: T -> multiset<Word>)
    ensures Bag(a + b, holds) == Bag(a, holds) + Bag(b, holds)
    decreases |b|
  {
    if b == [] {
      assert a + b == a;
    } else {
      assert (a + b)[..|a + b| - 1] == a + b[..|b| - 1];
      BagAppends(a, b[..|b| - 1], holds);
    }
  }

  lemma BagOne<T>(item: T, holds: T -> multiset<Word>)
    ensures Bag([item], holds) == holds(item)
  {
    assert [item][..0] == [];
  }

  lemma TakeOut<T>(items: seq<T>, i: nat)
    requires i < |items|
    ensures multiset(items) == multiset(WithoutAt(items, i)) + multiset{items[i]}
  {
    assert items == items[..i] + [items[i]] + items[i + 1..];
  }

  lemma BagTakeOut<T>(items: seq<T>, i: nat, holds: T -> multiset<Word>)
    requires i < |items|
    ensures Bag(items, holds) == Bag(WithoutAt(items, i), holds) + holds(items[i])
  {
    hide Bag;
    assert items == items[..i] + ([items[i]] + items[i + 1..]);
    BagAppends(items[..i], [items[i]] + items[i + 1..], holds);
    BagAppends([items[i]], items[i + 1..], holds);
    BagAppends(items[..i], items[i + 1..], holds);
    BagOne(items[i], holds);
  }

  /** The items hold the same, in any order. */
  lemma {:induction false} BagAnyOrder<T>(a: seq<T>, b: seq<T>, holds: T -> multiset<Word>)
    requires multiset(a) == multiset(b)
    ensures Bag(a, holds) == Bag(b, holds)
    decreases |a|
  {
    if a == [] {
      assert |b| == |multiset(b)| == 0;
    } else {
      var n := |a| - 1;
      assert a[n] in multiset(a);
      var i :| 0 <= i < |b| && b[i] == a[n];
      TakeOut(a, n);
      TakeOut(b, i);
      assert WithoutAt(a, n) == a[..n];
      FisherYates.Cancel(multiset(a[..n]), multiset(WithoutAt(b, i)), multiset{a[n]});
      BagAnyOrder(a[..n], WithoutAt(b, i), holds);
      BagTakeOut(b, i, holds);
    }
  }

  // ----- columns -----

  function FromColumn(lines: seq<Line>, edges: seq<real>, k: nat): seq<Line>
    requires edges != [] && forall line | line in lines :: edges[0] <= X0(line)
  {
    if lines == [] then []
    else
      var last := lines[|lines| - 1];
      FromColumn(lines[..|lines| - 1], edges, k) + if ColumnFor(edges, last) >= k then [last] else []
  }

  lemma AppendIf<T>(items: seq<T>, item: T, appended: bool)
    ensures multiset(items + if appended then [item] else []) == multiset(items) + if appended then multiset{item} else multiset{}
  {
  }

  lemma {:induction false} ColumnSplits(lines: seq<Line>, edges: seq<real>, k: nat)
    requires edges != [] && forall line | line in lines :: edges[0] <= X0(line)
    ensures multiset(FromColumn(lines, edges, k))
            == multiset(InColumn(lines, edges, k)) + multiset(FromColumn(lines, edges, k + 1))
  {
    if lines != [] {
      var front, last := lines[..|lines| - 1], lines[|lines| - 1];
      ColumnSplits(front, edges, k);
      var at := ColumnFor(edges, last);
      AppendIf(FromColumn(front, edges, k), last, at >= k);
      AppendIf(InColumn(front, edges, k), last, at == k);
      AppendIf(FromColumn(front, edges, k + 1), last, at >= k + 1);
      hide ColumnFor;
    }
  }

  lemma {:induction false} AllAndNone(lines: seq<Line>, edges: seq<real>)
    requires edges != [] && forall line | line in lines :: edges[0] <= X0(line)
    ensures FromColumn(lines, edges, 0) == lines
    ensures FromColumn(lines, edges, |edges|) == []
  {
    if lines != [] {
      AllAndNone(lines[..|lines| - 1], edges);
    }
  }

  /** The `k`th column's lines, then those of the ones after it. */
  lemma FlatUnfolds(lines: seq<Line>, edges: seq<real>, k: nat)
    requires edges != [] && (forall line | line in lines :: edges[0] <= X0(line)) && k < |edges|
    ensures Flat(ColumnsFrom(lines, edges, k))
            == SortBy(InColumn(lines, edges, k), LineLe) + Flat(ColumnsFrom(lines, edges, k + 1))
  {
    hide InColumn, SortBy, LineLe;
    var column, rest := SortBy(InColumn(lines, edges, k), LineLe), ColumnsFrom(lines, edges, k + 1);
    if column == [] {
      assert [] + rest == rest && column + Flat(rest) == Flat(rest);
    } else {
      FlatFirst(column, rest);
    }
  }

  lemma {:induction false} ColumnsFromKeep(lines: seq<Line>, edges: seq<real>, k: nat)
    requires edges != [] && (forall line | line in lines :: edges[0] <= X0(line)) && k <= |edges|
    ensures multiset(Flat(ColumnsFrom(lines, edges, k))) == multiset(FromColumn(lines, edges, k))
    decreases |edges| - k
  {
    if k == |edges| {
      AllAndNone(lines, edges);
    } else {
      hide InColumn, FromColumn, ColumnsFrom, Flat, SortBy, ColumnFor, LineLe;
      ColumnSplits(lines, edges, k);
      SortKeeps(InColumn(lines, edges, k), LineLe);
      ColumnsFromKeep(lines, edges, k + 1);
      FlatUnfolds(lines, edges, k);
    }
  }

  /** Every line of the page is in exactly one column. */
  lemma ColumnsConserve(lines: seq<Line>, edges: seq<real>)
    requires edges != [] && forall line | line in lines :: edges[0] <= X0(line)
    ensures multiset(Flat(ColumnsFrom(lines, edges, 0))) == multiset(lines)
  {
    ColumnsFromKeep(lines, edges, 0);
    AllAndNone(lines, edges);
  }

  // ----- merging line fragments -----

  function Gap(a: Line, b: Line): real {
    if a.y0 < b.y0 then b.y0 - a.y0 else a.y0 - b.y0
  }

  /** `line` joins the last line so far, if it shares its top edge. */
  function MergeInto(merged: seq<Line>, line: Line): seq<Line> {
    if merged == [] || Gap(merged[|merged| - 1], line) >= SAME_LINE_Y then merged + [line]
    else
      var last := merged[|merged| - 1];
      var words := SortBy(last.words + line.words, WordLe);
      merged[|merged| - 1 := Line(last.y0, if last.y1 < line.y1 then line.y1 else last.y1, last.block, words)]
  }

  function MergeAll(lines: seq<Line>): seq<Line> {
    if lines == [] then [] else MergeInto(MergeAll(lines[..|lines| - 1]), lines[|lines| - 1])
  }

  function Merged(lines: seq<Line>): seq<Line> {
    MergeAll(SortBy(lines, LineLe))
  }

  lemma MergeUnfolds(sorted: seq<Line>, i: nat)
    requires i < |sorted|
    ensures MergeAll(sorted[..i + 1]) == MergeInto(MergeAll(sorted[..i]), sorted[i])
  {
    assert sorted[..i + 1][..i] == sorted[..i];
    hide MergeInto;
  }

  /** Rejoin the fragments of each line. */
  method MergeLines(lines: seq<Line>) returns (merged: seq<Line>)
    ensures merged == Merged(lines)
    ensures WordsOrdered(lines) ==> WordsOrdered(merged)
  {
    if WordsOrdered(lines) { MergeOrdersWords(lines); }
    var sorted := SortBy(lines, LineLe);
    hide SortBy, LineLe, WordLe;
    merged := [];
    for i := 0 to |sorted|
      invariant merged == MergeAll(sorted[..i])
    {
      hide MergeAll, Gap;
      var line := sorted[i];
      MergeUnfolds(sorted, i);
      if merged != [] && Gap(merged[|merged| - 1], line) < SAME_LINE_Y {
        var previous := merged[|merged| - 1];
        var words := SortBy(previous.words + line.words, WordLe);
        var y1 := if previous.y1 < line.y1 then line.y1 else previous.y1;
        merged := merged[|merged| - 1 := Line(previous.y0, y1, previous.block, words)];
      } else {
        merged := merged + [line];
      }
    }
    assert sorted[..|sorted|] == sorted;
  }

  lemma MergeIntoKeeps(merged: seq<Line>, line: Line)
    ensures WordsIn(MergeInto(merged, line)) == WordsIn(merged) + multiset(line.words)
  {
    var all := MergeInto(merged, line);
    assert WordsIn(all) == WordsIn(all[..|all| - 1]) + multiset(all[|all| - 1].words);
    if merged == [] || Gap(merged[|merged| - 1], line) >= SAME_LINE_Y {
      assert all[..|merged|] == merged;
    } else {
      var last := merged[|merged| - 1];
      SortKeeps(last.words + line.words, WordLe);
      assert all[..|merged| - 1] == merged[..|merged| - 1];
    }
  }

  lemma {:induction false} MergeAllKeeps(lines: seq<Line>)
    ensures WordsIn(MergeAll(lines)) == WordsIn(lines)
  {
    if lines != [] {
      MergeAllKeeps(lines[..|lines| - 1]);
      MergeIntoKeeps(MergeAll(lines[..|lines| - 1]), lines[|lines| - 1]);
    }
  }

  /** Merging loses and repeats no word. */
  lemma MergeConserves(lines: seq<Line>)
    ensures WordsIn(Merged(lines)) == WordsIn(lines)
  {
    SortKeeps(lines, LineLe);
    MergeAllKeeps(SortBy(lines, LineLe));
    BagAnyOrder(SortBy(lines, LineLe), lines, LineWords);
  }

  /** The lines go down the page, each at least `SAME_LINE_Y` below the last. */
  ghost predicate Spaced(lines: seq<Line>) {
    forall i | 0 <= i < |lines| - 1 :: lines[i + 1].y0 - lines[i].y0 >= SAME_LINE_Y
  }

  /** The words of every line go from left to right. */
  ghost predicate WordsOrdered(lines: seq<Line>) {
    forall i | 0 <= i < |lines| :: Ordered(lines[i].words, WordLe)
  }

  lemma {:induction false} MergeAllSpaces(lines: seq<Line>)
    requires Ordered(lines, LineLe)
    ensures Spaced(MergeAll(lines))
    ensures lines != [] ==> MergeAll(lines) != [] && MergeAll(lines)[|MergeAll(lines)| - 1].y0 <= lines[|lines| - 1].y0
    ensures lines != [] ==> MergeAll(lines)[0].y0 == lines[0].y0
  {
    if lines != [] {
      var front, line := lines[..|lines| - 1], lines[|lines| - 1];
      MergeAllSpaces(front);
      if front != [] {
        assert LineLe(lines[|lines| - 2], line);
        assert front[|front| - 1] == lines[|lines| - 2];
        hide Ordered, MergeAll;
        MergeIntoSpaces(MergeAll(front), line);
      }
    }
  }

  lemma MergeIntoSpaces(merged: seq<Line>, line: Line)
    requires Spaced(merged) && merged != [] && merged[|merged| - 1].y0 <= line.y0
    ensures var all := MergeInto(merged, line);
      Spaced(all) && all != [] && all[|all| - 1].y0 <= line.y0 && all[0].y0 == merged[0].y0
  {
    hide SortBy;
  }

  /** Merged lines are apart, in order down the page, and start where the first
      of them did. */
  lemma MergeSpaces(lines: seq<Line>)
    ensures Spaced(Merged(lines)) && (lines != [] ==> Merged(lines) != [])
    ensures forall line | line in lines :: Merged(lines)[0].y0 <= line.y0
  {
    var sorted := SortBy(lines, LineLe);
    LineLeTotal();
    SortOrders(lines, LineLe);
    SortKeeps(lines, LineLe);
    MergeAllSpaces(sorted);
    forall line | line in lines ensures Merged(lines)[0].y0 <= line.y0 {
      assert line in multiset(sorted);
      var i :| 0 <= i < |sorted| && sorted[i] == line;
      if i > 0 { assert LineLe(sorted[0], sorted[i]); }
    }
  }

  lemma {:induction false} MergeAllOrdersWords(lines: seq<Line>)
    requires WordsOrdered(lines)
    ensures WordsOrdered(MergeAll(lines))
  {
    if lines != [] {
      MergeAllOrdersWords(lines[..|lines| - 1]);
      hide Ordered;
      MergeIntoOrdersWords(MergeAll(lines[..|lines| - 1]), lines[|lines| - 1]);
    }
  }

  lemma MergeIntoOrdersWords(merged: seq<Line>, line: Line)
    requires WordsOrdered(merged) && Ordered(line.words, WordLe)
    ensures WordsOrdered(MergeInto(merged, line))
  {
    if merged != [] {
      WordLeTotal();
      SortOrders(merged[|merged| - 1].words + line.words, WordLe);
    }
    hide Ordered, SortBy, Gap;
  }

  /** Merging lines whose words go from left to right leaves lines whose words
      do. */
  lemma MergeOrdersWords(lines: seq<Line>)
    requires WordsOrdered(lines)
    ensures WordsOrdered(Merged(lines))
  {
    var sorted := SortBy(lines, LineLe);
    SortKeeps(lines, LineLe);
    hide Ordered, SortBy, MergeAll;
    forall i | 0 <= i < |sorted| ensures Ordered(sorted[i].words, WordLe) {
      assert sorted[i] in multiset(lines);
    }
    MergeAllOrdersWords(sorted);
  }

  /** `line`'s words are in `home`, which starts where `line` does, or less than
      `SAME_LINE_Y` above it, and reaches as far down. */
  ghost predicate Houses(home: Line, line: Line) {
    && home.y0 <= line.y0 < home.y0 + SAME_LINE_Y
    && line.y1 <= home.y1
    && multiset(line.words) <= multiset(home.words)
  }

  ghost predicate Housed(merged: seq<Line>, line: Line) {
    exists i | 0 <= i < |merged| :: Houses(merged[i], line)
  }

  lemma MergeIntoHouses(merged: seq<Line>, line: Line)
    requires merged != [] ==> merged[|merged| - 1].y0 <= line.y0
    ensures var all := MergeInto(merged, line); all != [] && Houses(all[|all| - 1], line)
  {
    if merged != [] {
      SortKeeps(merged[|merged| - 1].words + line.words, WordLe);
      assert multiset(merged[|merged| - 1].words + line.words)
          == multiset(merged[|merged| - 1].words) + multiset(line.words);
    }
    hide SortBy;
  }

  /** A line with a home keeps one when another line is merged in. */
  lemma MergeIntoKeepsHouse(merged: seq<Line>, line: Line, housed: Line)
    requires Housed(merged, housed)
    ensures Housed(MergeInto(merged, line), housed)
  {
    var i :| 0 <= i < |merged| && Houses(merged[i], housed);
    var all := MergeInto(merged, line);
    MergeIntoReaches(merged, line, i);
    assert Houses(all[i], housed);
  }

  /** Merging a line in takes nothing from the lines there are. */
  lemma MergeIntoReaches(merged: seq<Line>, line: Line, i: nat)
    requires i < |merged|
    ensures var all := MergeInto(merged, line);
      && i < |all| && all[i].y0 == merged[i].y0 && merged[i].y1 <= all[i].y1
      && multiset(merged[i].words) <= multiset(all[i].words)
  {
    var last := merged[|merged| - 1];
    SortKeeps(last.words + line.words, WordLe);
    assert multiset(last.words + line.words) == multiset(last.words) + multiset(line.words);
    hide SortBy, Gap;
  }

  lemma {:induction false} MergeAllHouses(lines: seq<Line>, k: nat)
    requires Ordered(lines, LineLe) && k < |lines|
    ensures Housed(MergeAll(lines), lines[k])
    decreases |lines|
  {
    var front, line := lines[..|lines| - 1], lines[|lines| - 1];
    var merged := MergeAll(front);
    MergeAllSpaces(front);
    hide Ordered, MergeAll, Houses;
    if k < |lines| - 1 {
      MergeAllHouses(front, k);
      MergeIntoKeepsHouse(merged, line, lines[k]);
    } else {
      assert front != [] ==> LineLe(front[|front| - 1], line) by { assert Ordered(lines, LineLe); }
      MergeIntoHouses(merged, line);
    }
  }

  /** Every fragment is in the merged line it belongs to. */
  lemma MergeHouses(lines: seq<Line>, k: nat)
    requires k < |lines|
    ensures Housed(Merged(lines), lines[k])
  {
    LineLeTotal();
    SortOrders(lines, LineLe);
    SortKeeps(lines, LineLe);
    var sorted := SortBy(lines, LineLe);
    assert lines[k] in multiset(sorted);
    var i :| 0 <= i < |sorted| && sorted[i] == lines[k];
    MergeAllHouses(sorted, i);
  }

  // ----- paragraphs -----

  datatype Para = Para(lines: seq<Line>, page: nat)

  predicate Joins(group: seq<Line>, line: Line) {
    exists i | 0 <= i < |group| :: group[i].block == line.block || Gap(line, group[i]) < SAME_LINE_Y
  }

  /** `line` goes in the first group it joins, or in a new one. */
  function Place(groups: seq<seq<Line>>, line: Line): seq<seq<Line>> {
    if groups == [] then [[line]]
    else if Joins(groups[0], line) then [groups[0] + [line]] + groups[1..]
    else [groups[0]] + Place(groups[1..], line)
  }

  function Grouped(column: seq<Line>): seq<seq<Line>> {
    if column == [] then [] else Place(Grouped(column[..|column| - 1]), column[|column| - 1])
  }

  function MergeGroups(groups: seq<seq<Line>>, page: nat): (paras: seq<Para>)
    ensures |paras| == |groups|
  {
    if groups == [] then []
    else MergeGroups(groups[..|groups| - 1], page) + [Para(Merged(groups[|groups| - 1]), page)]
  }

  /** A paragraph's top edge. */
  function ParaTop(para: Para): real {
    if para.lines == [] then 0.0 else TopOf(para.lines)
  }

  function TopOf(lines: seq<Line>): (top: real)
    requires lines != []
    ensures forall line | line in lines :: top <= line.y0
    ensures exists i | 0 <= i < |lines| :: top == lines[i].y0
  {
    if |lines| == 1 then lines[0].y0
    else
      var rest := TopOf(lines[1..]);
      if lines[0].y0 < rest then lines[0].y0 else rest
  }

  predicate ParaLe(a: Para, b: Para) {
    ParaTop(a) <= ParaTop(b)
  }

  function ParagraphsOf(column: seq<Line>, page: nat): seq<Para> {
    SortBy(MergeGroups(Grouped(column), page), ParaLe)
  }

  /** Group a column's lines into paragraphs. */
  method Paragraphs(column: seq<Line>, page: nat) returns (merged: seq<Para>)
    ensures merged == ParagraphsOf(column, page)
  {
    var groups: seq<seq<Line>> := [];
    for i := 0 to |column|
      invariant groups == Grouped(column[..i])
    {
      assert column[..i + 1][..i] == column[..i];
      groups := PlaceLine(groups, column[i]);
    }
    assert column[..|column|] == column;
    merged := [];
    for i := 0 to |groups|
      invariant merged == MergeGroups(groups[..i], page)
    {
      assert groups[..i + 1][..i] == groups[..i];
      var lines := MergeLines(groups[i]);
      merged := merged + [Para(lines, page)];
    }
    assert groups[..|groups|] == groups;
    merged := SortBy(merged, ParaLe);
  }

  method PlaceLine(groups: seq<seq<Line>>, line: Line) returns (placed: seq<seq<Line>>)
    ensures placed == Place(groups, line)
  {
    hide Joins;
    for i := 0 to |groups|
      invariant Place(groups, line) == groups[..i] + Place(groups[i..], line)
    {
      assert groups[i..] == [groups[i]] + groups[i + 1..];
      if Joins(groups[i], line) {
        placed := groups[..i] + ([groups[i] + [line]] + groups[i + 1..]);
        return;
      }
      assert groups[..i + 1] == groups[..i] + [groups[i]];
    }
    assert groups[|groups|..] == [] && groups[..|groups|] == groups;
    placed := groups + [[line]];
  }

  /** A line of `group` is in `line`'s block, or starts less than `SAME_LINE_Y`
      above or below it. */
  ghost predicate Near(group: seq<Line>, line: Line) {
    exists i | 0 <= i < |group| ::
      group[i].block == line.block || -SAME_LINE_Y < group[i].y0 - line.y0 < SAME_LINE_Y
  }

  ghost predicate NearNone(groups: seq<seq<Line>>, line: Line) {
    forall k | 0 <= k < |groups| :: !Near(groups[k], line)
  }

  /** The first of `groups` that `line` is near is the `k`th, and `after` is
      `groups` with `line` last in that one. */
  ghost predicate PlacedAt(groups: seq<seq<Line>>, line: Line, after: seq<seq<Line>>, k: nat) {
    && k < |groups| && Near(groups[k], line) && NearNone(groups[..k], line)
    && after == groups[k := groups[k] + [line]]
  }

  /** `line` goes last in the first group it is near, or in a group of its own
      after them all. */
  ghost predicate PlacedIn(groups: seq<seq<Line>>, line: Line, after: seq<seq<Line>>) {
    if NearNone(groups, line) then after == groups + [[line]] else exists k: nat :: PlacedAt(groups, line, after, k)
  }

  lemma NearNoneFirst(first: seq<Line>, rest: seq<seq<Line>>, line: Line)
    ensures NearNone([first] + rest, line) <==> !Near(first, line) && NearNone(rest, line)
  {
    hide Near;
    var groups := [first] + rest;
    assert groups[0] == first;
    forall k | 0 <= k < |groups| ensures groups[k] == if k == 0 then first else rest[k - 1] {
    }
    if NearNone(groups, line) {
      forall k | 0 <= k < |rest| ensures !Near(rest[k], line) {
        assert !Near(groups[k + 1], line);
      }
    }
  }

  lemma PlacedLater(first: seq<Line>, rest: seq<seq<Line>>, line: Line, after: seq<seq<Line>>)
    requires PlacedIn(rest, line, after) && !Near(first, line)
    ensures PlacedIn([first] + rest, line, [first] + after)
  {
    var groups := [first] + rest;
    NearNoneFirst(first, rest, line);
    if NearNone(rest, line) {
      assert [first] + (rest + [[line]]) == groups + [[line]];
    } else {
      var k: nat :| PlacedAt(rest, line, after, k);
      NearNoneFirst(first, rest[..k], line);
      assert groups[..k + 1] == [first] + rest[..k];
      hide Near, NearNone;
      assert [first] + after == groups[k + 1 := groups[k + 1] + [line]];
      assert PlacedAt(groups, line, [first] + after, k + 1);
    }
  }

  lemma {:induction false} PlaceExactly(groups: seq<seq<Line>>, line: Line)
    ensures PlacedIn(groups, line, Place(groups, line))
  {
    if groups == [] {
      assert groups + [[line]] == [[line]];
    } else {
      var first, rest := groups[0], groups[1..];
      assert groups == [first] + rest;
      assert Joins(first, line) <==> Near(first, line);
      hide Near, Joins;
      NearNoneFirst(first, rest, line);
      if Near(first, line) {
        assert [first + [line]] + rest == groups[0 := first + [line]];
        assert PlacedAt(groups, line, Place(groups, line), 0);
      } else {
        PlaceExactly(rest, line);
        PlacedLater(first, rest, line, Place(rest, line));
        hide PlacedIn;
      }
    }
  }

  lemma FlatFirst<T>(first: seq<T>, rest: seq<seq<T>>)
    ensures Flat([first] + rest) == first + Flat(rest)
  {
    assert ([first] + rest)[1..] == rest;
  }

  lemma {:induction false} PlaceKeeps(groups: seq<seq<Line>>, line: Line)
    ensures multiset(Flat(Place(groups, line))) == multiset(Flat(groups)) + multiset{line}
  {
    hide Joins;
    if groups == [] {
      assert [[line]] + [] == [[line]];
      FlatFirst([line], []);
    } else {
      var first, rest := groups[0], groups[1..];
      assert groups == [first] + rest;
      FlatFirst(first, rest);
      FlatFirst(first + [line], rest);
      PlaceKeeps(rest, line);
      FlatFirst(first, Place(rest, line));
      hide Flat;
    }
  }

  ghost predicate NoneEmpty(groups: seq<seq<Line>>) {
    forall i | 0 <= i < |groups| :: groups[i] != []
  }

  lemma {:induction false} PlaceNonEmpty(groups: seq<seq<Line>>, line: Line)
    requires NoneEmpty(groups)
    ensures NoneEmpty(Place(groups, line))
  {
    hide Joins;
    if groups != [] {
      PlaceNonEmpty(groups[1..], line);
    }
  }

  /** Each line of a column is in exactly one group, and no group is empty. */
  lemma {:induction false} GroupedKeeps(column: seq<Line>)
    ensures multiset(Flat(Grouped(column))) == multiset(column)
    ensures NoneEmpty(Grouped(column))
  {
    if column != [] {
      GroupedKeeps(column[..|column| - 1]);
      PlaceKeeps(Grouped(column[..|column| - 1]), column[|column| - 1]);
      PlaceNonEmpty(Grouped(column[..|column| - 1]), column[|column| - 1]);
      hide Place, Flat;
      assert column == column[..|column| - 1] + [column[|column| - 1]];
    }
  }

  function ParaWords(para: Para): multiset<Word> {
    WordsIn(para.lines)
  }

  function WordsInParas(paras: seq<Para>): multiset<Word> {
    Bag(paras, ParaWords)
  }

  lemma {:induction false} FlatAppends<T>(a: seq<seq<T>>, b: seq<T>)
    ensures Flat(a + [b]) == Flat(a) + b
  {
    if a == [] {
      assert [b][1..] == [];
      assert a + [b] == [b];
      assert Flat([b]) == b + Flat([]);
    } else {
      assert (a + [b])[1..] == a[1..] + [b];
      FlatAppends(a[1..], b);
    }
  }

  lemma {:induction false} MergeGroupsKeeps(groups: seq<seq<Line>>, page: nat)
    ensures WordsInParas(MergeGroups(groups, page)) == WordsIn(Flat(groups))
  {
    if groups != [] {
      var front, last := groups[..|groups| - 1], groups[|groups| - 1];
      MergeGroupsKeeps(front, page);
      MergeConserves(last);
      assert groups == front + [last];
      FlatAppends(front, last);
      BagAppends(Flat(front), last, LineWords);
      var paras := MergeGroups(groups, page);
      assert paras[..|paras| - 1] == MergeGroups(front, page);
      hide Merged, Flat;
    }
  }

  /** Whether a paragraph is put together as it should be. */
  ghost predicate WellSet(para: Para) {
    para.lines != [] && Spaced(para.lines)
  }

  lemma {:induction false} MergeGroupsWellSet(groups: seq<seq<Line>>, page: nat)
    requires NoneEmpty(groups)
    ensures forall para | para in MergeGroups(groups, page) :: WellSet(para)
  {
    if groups != [] {
      MergeGroupsWellSet(groups[..|groups| - 1], page);
      MergeSpaces(groups[|groups| - 1]);
      hide Merged;
    }
  }

  ghost predicate AllWordsOrdered(groups: seq<seq<Line>>) {
    forall i | 0 <= i < |groups| :: WordsOrdered(groups[i])
  }

  lemma {:induction false} PlaceOrdered(groups: seq<seq<Line>>, line: Line)
    requires AllWordsOrdered(groups) && Ordered(line.words, WordLe)
    ensures AllWordsOrdered(Place(groups, line))
  {
    hide Joins, Ordered;
    if groups != [] {
      PlaceOrdered(groups[1..], line);
      assert WordsOrdered(groups[0]);
      assert WordsOrdered(groups[0] + [line]);
    }
  }

  lemma {:induction false} GroupedOrdered(column: seq<Line>)
    requires WordsOrdered(column)
    ensures AllWordsOrdered(Grouped(column))
  {
    if column != [] {
      hide Ordered, Place;
      GroupedOrdered(column[..|column| - 1]);
      PlaceOrdered(Grouped(column[..|column| - 1]), column[|column| - 1]);
    }
  }

  lemma {:induction false} MergeGroupsOrdered(groups: seq<seq<Line>>, page: nat)
    requires AllWordsOrdered(groups)
    ensures forall para | para in MergeGroups(groups, page) :: WordsOrdered(para.lines)
  {
    if groups != [] {
      hide WordsOrdered, Merged;
      MergeGroupsOrdered(groups[..|groups| - 1], page);
      MergeOrdersWords(groups[|groups| - 1]);
    }
  }

  /** Where each line's words go from left to right, so do each merged line's. */
  lemma ParagraphsOrderWords(column: seq<Line>, page: nat)
    requires WordsOrdered(column)
    ensures forall para | para in ParagraphsOf(column, page) :: WordsOrdered(para.lines)
  {
    var paras := MergeGroups(Grouped(column), page);
    GroupedOrdered(column);
    MergeGroupsOrdered(Grouped(column), page);
    SortKeeps(paras, ParaLe);
    hide Grouped, MergeGroups, WordsOrdered, SortBy;
    forall para | para in ParagraphsOf(column, page) ensures WordsOrdered(para.lines) {
      assert para in multiset(SortBy(paras, ParaLe));
    }
  }

  /** **Regrouping a column conserves it**: its words, no more and no fewer, in
      paragraphs that go down the page, of lines that go down the page at least
      `SAME_LINE_Y` apart, their words from left to right if the column's were. */
  lemma ParagraphsConserve(column: seq<Line>, page: nat)
    ensures WordsInParas(ParagraphsOf(column, page)) == WordsIn(column)
    ensures Ordered(ParagraphsOf(column, page), ParaLe)
    ensures forall para | para in ParagraphsOf(column, page) :: WellSet(para)
    ensures WordsOrdered(column) ==> forall para | para in ParagraphsOf(column, page) :: WordsOrdered(para.lines)
  {
    if WordsOrdered(column) { ParagraphsOrderWords(column, page); }
    hide WordsOrdered;
    var paras := MergeGroups(Grouped(column), page);
    GroupedKeeps(column);
    MergeGroupsKeeps(Grouped(column), page);
    MergeGroupsWellSet(Grouped(column), page);
    SortKeeps(paras, ParaLe);
    ParaLeTotal();
    SortOrders(paras, ParaLe);
    BagAnyOrder(SortBy(paras, ParaLe), paras, ParaWords);
    BagAnyOrder(Flat(Grouped(column)), column, LineWords);
    hide Grouped, MergeGroups, Bag, WellSet, Ordered, SortBy;
    forall para | para in ParagraphsOf(column, page) ensures WellSet(para) {
      assert para in multiset(SortBy(paras, ParaLe));
    }
  }

  lemma ParaLeTotal()
    ensures Total<Para>(ParaLe)
  {
    hide ParaTop;
  }

  // ----- what a merged line is made of -----

  /** A merged line starts where one of `lines` does, in its block, and ends where
      one does. */
  ghost predicate MadeOf(merged: Line, lines: seq<Line>) {
    && (exists i | 0 <= i < |lines| :: merged.y0 == lines[i].y0 && merged.block == lines[i].block)
    && (exists i | 0 <= i < |lines| :: merged.y1 == lines[i].y1)
  }

  lemma MadeOfMore(merged: Line, lines: seq<Line>, line: Line)
    ensures MadeOf(merged, lines) ==> MadeOf(merged, lines + [line])
  {
    var more := lines + [line];
    assert forall i | 0 <= i < |lines| :: more[i] == lines[i];
  }

  lemma {:induction false} MergeAllMadeOf(lines: seq<Line>)
    ensures forall k | 0 <= k < |MergeAll(lines)| :: MadeOf(MergeAll(lines)[k], lines)
  {
    if lines != [] {
      var front, line := lines[..|lines| - 1], lines[|lines| - 1];
      assert lines == front + [line];
      MergeAllMadeOf(front);
      var merged := MergeAll(front);
      MergeIntoMadeOf(merged, line, front);
      hide MadeOf, MergeInto;
    }
  }

  lemma MergeIntoMadeOf(merged: seq<Line>, line: Line, front: seq<Line>)
    requires forall k | 0 <= k < |merged| :: MadeOf(merged[k], front)
    ensures var all := MergeInto(merged, line);
      forall k | 0 <= k < |all| :: MadeOf(all[k], front + [line])
  {
    hide SortBy, Gap;
    var all := MergeInto(merged, line);
    assert (front + [line])[|front|] == line;
    forall k | 0 <= k < |merged| ensures MadeOf(merged[k], front + [line]) {
      MadeOfMore(merged[k], front, line);
    }
  }

  /** Each merged line starts, in its block, where the first of its fragments
      does, and ends where one does. */
  lemma MergeMadeOf(lines: seq<Line>, k: nat)
    requires k < |Merged(lines)|
    ensures MadeOf(Merged(lines)[k], lines)
  {
    var sorted := SortBy(lines, LineLe);
    SortKeeps(lines, LineLe);
    MergeAllMadeOf(sorted);
    hide SortBy, MergeAll;
    var merged := Merged(lines)[k];
    assert MadeOf(merged, sorted);
    var i :| 0 <= i < |sorted| && merged.y0 == sorted[i].y0 && merged.block == sorted[i].block;
    var j :| 0 <= j < |sorted| && merged.y1 == sorted[j].y1;
    assert sorted[i] in multiset(lines) && sorted[j] in multiset(lines);
    var a :| 0 <= a < |lines| && lines[a] == sorted[i];
    var b :| 0 <= b < |lines| && lines[b] == sorted[j];
  }
}
