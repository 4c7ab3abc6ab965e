/** A page of the FAQ read whole (`scripts/ffg-faq.py`): its columns from left to
    right, and each column's paragraphs from top to bottom. */
module FaqPages {
  import opened Wrappers
  import opened FaqColumns
  import opened FaqParagraphs

  function AllParagraphs(columns: seq<seq<Line>>, page: nat): seq<Para> {
    if columns == [] then [] else AllParagraphs(columns[..|columns| - 1], page) + ParagraphsOf(columns[|columns| - 1], page)
  }

  lemma FlatLast<T>(groups: seq<seq<T>>)
    requires groups != []
    ensures Flat(groups) == Flat(groups[..|groups| - 1]) + groups[|groups| - 1]
  {
    assert groups == groups[..|groups| - 1] + [groups[|groups| - 1]];
    FlatAppends(groups[..|groups| - 1], groups[|groups| - 1]);
  }

  lemma ParasAppend(a: seq<Para>, b: seq<Para>)
    ensures WordsInParas(a + b) == WordsInParas(a) + WordsInParas(b)
  {
    BagAppends(a, b, ParaWords);
  }

  lemma LinesAppend(a: seq<Line>, b: seq<Line>)
    ensures WordsIn(a + b) == WordsIn(a) + WordsIn(b)
  {
    BagAppends(a, b, LineWords);
  }

  lemma ColumnKeeps(column: seq<Line>, page: nat)
    ensures WordsInParas(ParagraphsOf(column, page)) == WordsIn(column)
  {
    ParagraphsConserve(column, page);
  }

  lemma {:induction false} AllParagraphsKeep(columns: seq<seq<Line>>, page: nat)
    ensures WordsInParas(AllParagraphs(columns, page)) == WordsIn(Flat(columns))
  {
    if columns != [] {
      var front, last := columns[..|columns| - 1], columns[|columns| - 1];
      hide ParagraphsOf, WellSet, Ordered, Bag, Flat;
      AllParagraphsKeep(front, page);
      ColumnKeeps(last, page);
      assert AllParagraphs(columns, page) == AllParagraphs(front, page) + ParagraphsOf(last, page);
      FlatLast(columns);
      hide AllParagraphs, WordsIn, WordsInParas;
      ParasAppend(AllParagraphs(front, page), ParagraphsOf(last, page));
      LinesAppend(Flat(front), last);
    }
  }

  lemma PageConserves(lines: seq<Line>, edges: seq<real>, columns: seq<seq<Line>>, page: nat)
    requires if lines == [] then columns == []
             else
               && edges != [] && (forall line | line in lines :: edges[0] <= X0(line))
               && columns == ColumnsFrom(lines, edges, 0)
    ensures WordsInParas(AllParagraphs(columns, page)) == WordsIn(lines)
  {
    AllParagraphsKeep(columns, page);
    if lines != [] {
      ColumnsConserve(lines, edges);
      BagAnyOrder(Flat(columns), lines, LineWords);
    }
  }

  // ----- in reading order -----

  /** A column's lines go down the page, and from left to right where level. */
  ghost predicate GoesDown(column: seq<Line>) {
    forall i, j | 0 <= i < j < |column| ::
      column[i].y0 < column[j].y0 || (column[i].y0 == column[j].y0 && X0(column[i]) <= X0(column[j]))
  }

  /** The columns go from left to right: each holds exactly the lines put in one
      column of the page, none twice and none empty, going down the page. `at`
      says which column each is. */
  ghost predicate Columned(lines: seq<Line>, edges: seq<real>, columns: seq<seq<Line>>, at: seq<nat>)
    requires edges != [] && forall line | line in lines :: edges[0] <= X0(line)
  {
    && |at| == |columns|
    && (forall i, j | 0 <= i < j < |at| :: at[i] < at[j])
    && (forall i, line: Line | 0 <= i < |columns| :: line in columns[i] <==> line in lines && ColumnFor(edges, line) == at[i])
    && (forall i | 0 <= i < |columns| :: columns[i] != [] && GoesDown(columns[i]))
    && (forall line | line in lines :: ColumnFor(edges, line) in at)
  }

  lemma SortedGoesDown(lines: seq<Line>)
    ensures GoesDown(SortBy(lines, LineLe))
  {
    LineLeTotal();
    SortOrders(lines, LineLe);
  }

  lemma {:induction false} ColumnsLeftToRight(lines: seq<Line>, edges: seq<real>, k: nat) returns (at: seq<nat>)
    requires edges != [] && (forall line | line in lines :: edges[0] <= X0(line)) && k <= |edges|
    ensures var columns := ColumnsFrom(lines, edges, k);
      && |at| == |columns|
      && (forall i | 0 <= i < |at| :: k <= at[i] < |edges|)
      && (forall i, j | 0 <= i < j < |at| :: at[i] < at[j])
      && (forall i, line: Line | 0 <= i < |columns| :: line in columns[i] <==> line in lines && ColumnFor(edges, line) == at[i])
      && (forall i | 0 <= i < |columns| :: columns[i] != [] && GoesDown(columns[i]))
      && (forall line | line in lines && ColumnFor(edges, line) >= k :: ColumnFor(edges, line) in at)
    decreases |edges| - k
  {
    hide InColumn, SortBy, ColumnFor, LineLe, GoesDown;
    if k == |edges| {
      at := [];
    } else {
      var column := SortBy(InColumn(lines, edges, k), LineLe);
      SortedColumnExactly(lines, edges, k);
      SortedGoesDown(InColumn(lines, edges, k));
      var rest := ColumnsLeftToRight(lines, edges, k + 1);
      at := if column == [] then rest else [k] + rest;
      ColumnFirst(lines, edges, k, column, rest);
    }
  }

  lemma ColumnFirst(lines: seq<Line>, edges: seq<real>, k: nat, column: seq<Line>, rest: seq<nat>)
    requires edges != [] && (forall line | line in lines :: edges[0] <= X0(line)) && k < |edges|
    requires column == SortBy(InColumn(lines, edges, k), LineLe)
    ensures ColumnsFrom(lines, edges, k)
            == (if column == [] then [] else [column]) + ColumnsFrom(lines, edges, k + 1)
  {
  }

  /** `paras` are the paragraphs of the columns, one column after the other: those
      of each hold its words, on this page, and go down it. */
  ghost predicate ReadsDown(paras: seq<Para>, columns: seq<seq<Line>>, page: nat, cuts: seq<nat>) {
    && |cuts| == |columns| + 1 && cuts[0] == 0 && cuts[|columns|] == |paras|
    && forall i | 0 <= i < |columns| :: CutReads(paras, columns, page, cuts, i)
  }

  ghost predicate CutReads(paras: seq<Para>, columns: seq<seq<Line>>, page: nat, cuts: seq<nat>, i: nat)
    requires i < |columns| && |cuts| == |columns| + 1
  {
    cuts[i] <= cuts[i + 1] <= |paras| && ReadsColumn(paras[cuts[i]..cuts[i + 1]], columns[i], page)
  }

  ghost predicate ReadsColumn(paras: seq<Para>, column: seq<Line>, page: nat) {
    && WordsInParas(paras) == WordsIn(column)
    && (forall i, j | 0 <= i < j < |paras| :: ParaTop(paras[i]) <= ParaTop(paras[j]))
    && (forall i | 0 <= i < |paras| :: paras[i].page == page && WellSet(paras[i]))
  }

  lemma {:induction false} MergeGroupsPage(groups: seq<seq<Line>>, page: nat)
    ensures forall para | para in MergeGroups(groups, page) :: para.page == page
  {
    if groups != [] {
      MergeGroupsPage(groups[..|groups| - 1], page);
      hide Merged;
    }
  }

  lemma ColumnReads(column: seq<Line>, page: nat)
    ensures ReadsColumn(ParagraphsOf(column, page), column, page)
  {
    var paras := ParagraphsOf(column, page);
    ParagraphsConserve(column, page);
    MergeGroupsPage(Grouped(column), page);
    SortKeeps(MergeGroups(Grouped(column), page), ParaLe);
    hide WordsIn, WordsInParas, Grouped, MergeGroups, WellSet, SortBy, ParaTop;
    forall i | 0 <= i < |paras| ensures paras[i].page == page && WellSet(paras[i]) {
      assert paras[i] in multiset(paras);
    }
  }

  lemma ReadDownMore(
    paras: seq<Para>, more: seq<Para>, columns: seq<seq<Line>>, last: seq<Line>, page: nat, cuts: seq<nat>)
    requires ReadsDown(paras, columns, page, cuts) && ReadsColumn(more, last, page)
    ensures ReadsDown(paras + more, columns + [last], page, cuts + [|paras + more|])
  {
    hide ReadsColumn;
    var all, ends := paras + more, cuts + [|paras + more|];
    forall i | 0 <= i < |columns + [last]| ensures CutReads(all, columns + [last], page, ends, i) {
      if i < |columns| {
        assert CutReads(paras, columns, page, cuts, i);
        assert all[ends[i]..ends[i + 1]] == paras[cuts[i]..cuts[i + 1]];
      } else {
        assert all[ends[i]..ends[i + 1]] == more;
      }
    }
  }

  lemma {:induction false} AllReadDown(columns: seq<seq<Line>>, page: nat) returns (cuts: seq<nat>)
    ensures ReadsDown(AllParagraphs(columns, page), columns, page, cuts)
  {
    hide ReadsColumn, ParagraphsOf;
    if columns == [] {
      cuts := [0];
    } else {
      var front, last := columns[..|columns| - 1], columns[|columns| - 1];
      var before := AllReadDown(front, page);
      ColumnReads(last, page);
      ReadDownMore(AllParagraphs(front, page), ParagraphsOf(last, page), front, last, page, before);
      cuts := before + [|AllParagraphs(columns, page)|];
      assert columns == front + [last];
      hide ReadsDown;
    }
  }

  /** What a page reads as: its columns from left to right, and in each its
      paragraphs from top to bottom; the words are the page's. */
  ghost predicate ReadsAs(lines: seq<Line>, page: nat, edges: seq<real>, columns: seq<seq<Line>>, paras: seq<Para>)
    requires lines != [] ==> edges != [] && forall line | line in lines :: edges[0] <= X0(line)
  {
    && WordsInParas(paras) == WordsIn(lines)
    && (if lines == [] then columns == [] else exists at :: Columned(lines, edges, columns, at))
    && exists cuts :: ReadsDown(paras, columns, page, cuts)
  }

  lemma PageReads(lines: seq<Line>, edges: seq<real>, columns: seq<seq<Line>>, page: nat)
    requires if lines == [] then columns == []
             else
               && edges != [] && (forall line | line in lines :: edges[0] <= X0(line))
               && columns == ColumnsFrom(lines, edges, 0)
    ensures ReadsAs(lines, page, edges, columns, AllParagraphs(columns, page))
  {
    hide ReadsDown, Columned, WordsIn, WordsInParas, AllParagraphs, ColumnsFrom, ColumnFor;
    PageConserves(lines, edges, columns, page);
    var cuts := AllReadDown(columns, page);
    if lines != [] { ColumnsColumned(lines, edges, columns); }
  }

  lemma ColumnsColumned(lines: seq<Line>, edges: seq<real>, columns: seq<seq<Line>>)
    requires edges != [] && (forall line | line in lines :: edges[0] <= X0(line))
    requires columns == ColumnsFrom(lines, edges, 0)
    ensures exists at :: Columned(lines, edges, columns, at)
  {
    hide ColumnsFrom, ColumnFor, GoesDown;
    var at := ColumnsLeftToRight(lines, edges, 0);
    assert Columned(lines, edges, columns, at);
  }

  /** A page's paragraphs in reading order, column by column. It fails exactly on
      words whose bins are no indices, and on a line over the next column's
      edge. */
  method ReadPage(lines: seq<Line>, page: nat)
    returns (r: Result<seq<Para>, ConversionError>, ghost edges: seq<real>, ghost columns: seq<seq<Line>>)
    ensures r == Failure(BinOutOfRange) <==> !AllInRange(lines)
    ensures lines == [] ==> r == Success([])
    ensures lines != [] && AllInRange(lines) ==>
      && AreEdges(edges, lines) && Starts(edges, lines)
      && (r.Success? <==> NoneCrosses(lines, edges, |edges|))
    ensures r.Success? ==> (lines != [] ==> Starts(edges, lines)) && ReadsAs(lines, page, edges, columns, r.value)
  {
    var found;
    found, edges := Columns(lines);
    columns := [];
    if found.Failure? {
      if found != Failure(BinOutOfRange) { CrossingFails(lines, edges, found); }
      return Failure(found.error), edges, columns;
    }
    columns := found.value;
    hide AreEdges, AllInRange, ReadsAs, ParagraphsOf, ColumnsFrom, NoneCrosses;
    PageReads(lines, edges, columns, page);
    var paras := AllOf(found.value, page);
    r := Success(paras);
    if lines == [] { NoParagraphs(page); }
  }

  lemma NoParagraphs(page: nat)
    ensures AllParagraphs([], page) == []
  {
  }

  lemma CrossingFails(lines: seq<Line>, edges: seq<real>, r: Result<seq<seq<Line>>, ConversionError>)
    requires Starts(edges, lines) && Split(lines, edges, r) && r.Failure?
    ensures !NoneCrosses(lines, edges, |edges|)
  {
  }

  method AllOf(columns: seq<seq<Line>>, page: nat) returns (paras: seq<Para>)
    ensures paras == AllParagraphs(columns, page)
  {
    hide ParagraphsOf;
    paras := [];
    for i := 0 to |columns|
      invariant paras == AllParagraphs(columns[..i], page)
    {
      assert columns[..i + 1][..i] == columns[..i];
      var more := Paragraphs(columns[i], page);
      paras := paras + more;
    }
    assert columns[..|columns|] == columns;
  }
}
