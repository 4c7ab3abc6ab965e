/** The geometry of an FAQ page (`scripts/ffg-faq.py`): columns found by the
    gutters between them, lines regrouped into paragraphs, and line fragments
    merged. Coordinates are in points, as exact reals. */
module FaqColumns {
  import opened Wrappers

  datatype Word = Word(x0: real, x1: real, text: string)

  datatype LineData = Line(y0: real, y1: real, block: nat, words: seq<Word>)

  /** A line as read: never without words. */
  type Line = line: LineData | line.words != [] witness Line(0.0, 0.0, 0, [Word(0.0, 0.0, "")])

  const GUTTER_WIDTH: nat := 9
  const SAME_LINE_Y: real := 2.0
  const SLACK: real := 0.5

  function X0(line: Line): real {
    line.words[0].x0
  }

  function X1(line: Line): real {
    line.words[|line.words| - 1].x1
  }

  /** The words run from left to right: none sticks out of its line. */
  ghost predicate LeftToRight(line: Line) {
    forall w | w in line.words :: X0(line) <= w.x0 <= w.x1 <= X1(line)
  }

  function Leftmost(lines: seq<Line>): (left: real)
    requires lines != []
    ensures forall line | line in lines :: left <= X0(line)
    ensures exists line | line in lines :: left == X0(line)
  {
    if |lines| == 1 then X0(lines[0])
    else
      var rest := Leftmost(lines[1..]);
      if X0(lines[0]) < rest then X0(lines[0]) else rest
  }

  function Rightmost(lines: seq<Line>): (right: real)
    requires lines != []
    ensures forall line | line in lines :: X1(line) <= right
    ensures exists line | line in lines :: right == X1(line)
  {
    if |lines| == 1 then X1(lines[0])
    else
      var rest := Rightmost(lines[1..]);
      if X1(lines[0]) > rest then X1(lines[0]) else rest
  }

  // ----- where ink falls -----

  /** The bin, one point wide, that `x` falls in, counted from `left`. */
  function Bin(x: real, left: real): int {
    if x >= left then (x - left).Floor else -(left - x).Floor
  }

  /** How many bins a page gets. */
  function Width(lines: seq<Line>): nat
    requires lines != []
  {
    var width := Bin(Rightmost(lines), Leftmost(lines)) + 2;
    if width < 0 then 0 else width
  }

  predicate Covers(word: Word, left: real, bin: int) {
    Bin(word.x0, left) <= bin <= Bin(word.x1, left)
  }

  /** The word inks slot `b`: a bin left of the first counts back from the last,
      as a negative index does. */
  predicate Marks(word: Word, left: real, width: nat, b: int) {
    0 <= b < width && (Covers(word, left, b) || Covers(word, left, b - width))
  }

  /** The word's bins are all indices of `width` bins. */
  predicate InRange(word: Word, left: real, width: nat) {
    Bin(word.x0, left) <= Bin(word.x1, left) ==>
      0 <= Bin(word.x0, left) + width && Bin(word.x1, left) < width
  }

  ghost predicate LineInRange(line: Line, left: real, width: nat) {
    forall k | 0 <= k < |line.words| :: InRange(line.words[k], left, width)
  }

  ghost predicate AllInRange(lines: seq<Line>) {
    lines == [] || forall k | 0 <= k < |lines| :: LineInRange(lines[k], Leftmost(lines), Width(lines))
  }

  ghost predicate LineInk(line: Line, left: real, width: nat, b: int) {
    exists k | 0 <= k < |line.words| :: Marks(line.words[k], left, width, b)
  }

  ghost predicate Ink(lines: seq<Line>, left: real, width: nat, b: int) {
    exists k | 0 <= k < |lines| :: LineInk(lines[k], left, width, b)
  }

  /** Ink after at least a gutter's width of bins without any. */
  ghost predicate EdgeAt(lines: seq<Line>, left: real, width: nat, bin: int) {
    && bin >= GUTTER_WIDTH && Ink(lines, left, width, bin)
    && forall j | bin - GUTTER_WIDTH <= j < bin :: !Ink(lines, left, width, j)
  }

  lemma BinMonotone(x: real, y: real, left: real)
    requires left <= x <= y
    ensures 0 <= Bin(x, left) <= Bin(y, left)
  {
  }

  /** Lines whose words run from left to right stay within the bins, none of
      them counted from the end. */
  lemma ReadingOrderInRange(lines: seq<Line>)
    requires forall line | line in lines :: LeftToRight(line)
    ensures AllInRange(lines)
  {
    if lines != [] {
      var left, right := Leftmost(lines), Rightmost(lines);
      forall k, w | 0 <= k < |lines| && 0 <= w < |lines[k].words| ensures InRange(lines[k].words[w], left, Width(lines)) {
        var line := lines[k];
        assert line in lines && line.words[w] in line.words && line.words[0] in line.words;
        BinMonotone(line.words[w].x0, line.words[w].x1, left);
        BinMonotone(line.words[w].x1, right, left);
      }
    }
  }

  // ----- the edges -----

  /** Every bin where ink starts again after a gutter, in order, after the first. */
  ghost predicate AreEdgeBins(bins: seq<nat>, lines: seq<Line>, left: real, width: nat) {
    && bins != [] && bins[0] == 0
    && (forall i, j | 0 <= i < j < |bins| :: bins[i] < bins[j])
    && (forall i | 0 < i < |bins| :: EdgeAt(lines, left, width, bins[i]))
    && (forall bin: nat | EdgeAt(lines, left, width, bin) :: bin in bins)
  }

  function Placed(bins: seq<nat>, left: real): (edges: seq<real>)
    ensures |edges| == |bins|
  {
    seq(|bins|, i requires 0 <= i < |bins| => left + bins[i] as real)
  }

  /** What the edges of a page are: its leftmost ink, and where ink starts again
      after each gutter. */
  ghost predicate AreEdges(edges: seq<real>, lines: seq<Line>) {
    if lines == [] then edges == []
    else
      exists bins ::
        AreEdgeBins(bins, lines, Leftmost(lines), Width(lines)) && edges == Placed(bins, Leftmost(lines))
  }

  /** Mark a word's bins, unless one is no index of `occupied`. */
  method MarkWord(occupied: array<bool>, word: Word, left: real) returns (ok: bool)
    modifies occupied
    ensures ok <==> InRange(word, left, occupied.Length)
    ensures ok ==> forall b | 0 <= b < occupied.Length ::
      occupied[b] <==> old(occupied[b]) || Marks(word, left, occupied.Length, b)
  {
    var lo, hi := Bin(word.x0, left), Bin(word.x1, left);
    if lo > hi { return true; }
    for bin := lo to hi + 1
      invariant lo < bin ==> 0 <= lo + occupied.Length && bin <= occupied.Length
      invariant forall b | 0 <= b < occupied.Length ::
        occupied[b] <==> old(occupied[b]) || lo <= b < bin || lo <= b - occupied.Length < bin
    {
      if bin + occupied.Length < 0 || bin >= occupied.Length { return false; }
      occupied[if bin < 0 then bin + occupied.Length else bin] := true;
    }
    ok := true;
  }

  method MarkLine(occupied: array<bool>, line: Line, left: real) returns (ok: bool)
    modifies occupied
    ensures ok <==> LineInRange(line, left, occupied.Length)
    ensures ok ==> forall b | 0 <= b < occupied.Length ::
      occupied[b] <==> old(occupied[b]) || LineInk(line, left, occupied.Length, b)
  {
    hide InRange, Marks;
    for i := 0 to |line.words|
      invariant forall k | 0 <= k < i :: InRange(line.words[k], left, occupied.Length)
      invariant forall b | 0 <= b < occupied.Length ::
        occupied[b] <==> old(occupied[b]) || exists k | 0 <= k < i :: Marks(line.words[k], left, occupied.Length, b)
    {
      ok := MarkWord(occupied, line.words[i], left);
      if !ok { return; }
    }
    ok := true;
  }

  /** The bins that hold ink. */
  method Occupied(lines: seq<Line>, left: real, width: nat) returns (occupied: Option<seq<bool>>)
    ensures occupied.Some? <==> forall k | 0 <= k < |lines| :: LineInRange(lines[k], left, width)
    ensures occupied.Some? ==> |occupied.value| == width
    ensures occupied.Some? ==> forall b | 0 <= b < width :: occupied.value[b] <==> Ink(lines, left, width, b)
  {
    hide LineInRange, LineInk;
    var bins := new bool[width](_ => false);
    for i := 0 to |lines|
      invariant forall k | 0 <= k < i :: LineInRange(lines[k], left, width)
      invariant forall b | 0 <= b < width :: bins[b] <==> exists k | 0 <= k < i :: LineInk(lines[k], left, width, b)
    {
      var ok := MarkLine(bins, lines[i], left);
      if !ok { return None; }
    }
    occupied := Some(bins[..]);
  }

  /** Find each column's left edge; nothing, if a word's bins run past the page's. */
  method ColumnEdges(lines: seq<Line>) returns (edges: Option<seq<real>>)
    ensures edges.Some? <==> AllInRange(lines)
    ensures edges.Some? ==> AreEdges(edges.value, lines)
  {
    if lines == [] { return Some([]); }
    var occupied := Occupied(lines, Leftmost(lines), Width(lines));
    if occupied.None? { return None; }
    InkInside(lines, Leftmost(lines), Width(lines));
    var found := EdgesFrom(occupied.value, lines, Leftmost(lines));
    edges := Some(found);
  }

  lemma InkInside(lines: seq<Line>, left: real, width: nat)
    ensures forall b | Ink(lines, left, width, b) :: 0 <= b < width
  {
  }

  /** Scan the bins: an edge wherever ink ends a run of empty ones. */
  method EdgesFrom(occupied: seq<bool>, ghost lines: seq<Line>, left: real) returns (edges: seq<real>)
    requires lines != [] && left == Leftmost(lines) && |occupied| == Width(lines)
    requires forall b | 0 <= b < |occupied| :: occupied[b] <==> Ink(lines, left, |occupied|, b)
    requires forall b | Ink(lines, left, |occupied|, b) :: 0 <= b < |occupied|
    ensures AreEdges(edges, lines)
  {
    hide Ink, Leftmost, Width;
    ghost var width := |occupied|;
    edges := [left];
    ghost var bins: seq<nat> := [0];
    var run := 0;
    for offset := 0 to |occupied|
      invariant 0 <= run <= offset
      invariant forall j | offset - run <= j < offset :: !occupied[j]
      invariant run < offset ==> occupied[offset - run - 1]
      invariant edges == Placed(bins, left)
      invariant bins != [] && bins[0] == 0 && (forall i, j | 0 <= i < j < |bins| :: bins[i] < bins[j])
      invariant forall i | 0 < i < |bins| :: bins[i] < offset && EdgeAt(lines, left, width, bins[i])
      invariant forall bin: nat | bin < offset && EdgeAt(lines, left, width, bin) :: bin in bins
    {
      if occupied[offset] {
        if run >= GUTTER_WIDTH {
          assert EdgeAt(lines, left, width, offset);
          edges := edges + [left + offset as real];
          bins := bins + [offset];
        } else {
          assert run < offset ==> Ink(lines, left, width, offset - run - 1);
          assert !EdgeAt(lines, left, width, offset);
        }
        run := 0;
      } else {
        assert !EdgeAt(lines, left, width, offset);
        run := run + 1;
      }
    }
  }

  // ----- what the edges mean -----

  /** No word's ink crosses an edge. */
  lemma NoWordStraddles(lines: seq<Line>, bins: seq<nat>, i: nat, k: nat, w: nat)
    requires lines != [] && AreEdgeBins(bins, lines, Leftmost(lines), Width(lines)) && 0 < i < |bins|
    requires k < |lines| && w < |lines[k].words|
    ensures var word := lines[k].words[w];
      !(Bin(word.x0, Leftmost(lines)) < bins[i] <= Bin(word.x1, Leftmost(lines)))
  {
    var left, width := Leftmost(lines), Width(lines);
    InkInside(lines, left, width);
    assert EdgeAt(lines, left, width, bins[i]);
    assert !Ink(lines, left, width, bins[i] - 1);
    assert !LineInk(lines[k], left, width, bins[i] - 1);
    assert !Marks(lines[k].words[w], left, width, bins[i] - 1);
  }

  /** The last column that starts at or before `x`. */
  function ColumnOf(edges: seq<real>, x: real): (k: nat)
    requires edges != [] && edges[0] <= x
    ensures k < |edges| && edges[k] <= x
    ensures forall i | k < i < |edges| :: x < edges[i]
  {
    if edges[|edges| - 1] <= x then |edges| - 1 else ColumnOf(edges[..|edges| - 1], x)
  }

  /** The column a line is put in: the last that starts at or before it, or less
      than half a point after. */
  function ColumnFor(edges: seq<real>, line: Line): (k: nat)
    requires edges != [] && edges[0] <= X0(line)
    ensures k < |edges|
  {
    ColumnOf(edges, X0(line) + SLACK)
  }

  lemma WordInRange(lines: seq<Line>, k: nat, w: nat)
    requires AllInRange(lines) && k < |lines| && w < |lines[k].words|
    ensures InRange(lines[k].words[w], Leftmost(lines), Width(lines))
  {
    hide InRange;
    assert LineInRange(lines[k], Leftmost(lines), Width(lines));
  }

  lemma WordInk(lines: seq<Line>, left: real, width: nat, k: nat, w: nat, b: int)
    requires k < |lines| && w < |lines[k].words| && Marks(lines[k].words[w], left, width, b)
    ensures Ink(lines, left, width, b)
  {
    hide Marks;
    assert LineInk(lines[k], left, width, b);
  }

  lemma StartsRight(lines: seq<Line>, k: nat)
    requires k < |lines|
    ensures Leftmost(lines) <= X0(lines[k])
  {
    assert lines[k] in lines;
  }

  lemma FirstInk(lines: seq<Line>, k: nat)
    requires AllInRange(lines) && k < |lines| && X0(lines[k]) <= lines[k].words[0].x1
    ensures Leftmost(lines) <= X0(lines[k])
    ensures Ink(lines, Leftmost(lines), Width(lines), Bin(X0(lines[k]), Leftmost(lines)))
  {
    hide AllInRange, Leftmost, Width, Ink, Bin;
    StartsRight(lines, k);
    WordInRange(lines, k, 0);
    BinMonotone(lines[k].words[0].x0, lines[k].words[0].x1, Leftmost(lines));
    WordInk(lines, Leftmost(lines), Width(lines), k, 0, Bin(X0(lines[k]), Leftmost(lines)));
  }

  /** The half point of slack never moves a line out of the column its first word
      is in: just left of an edge there is no ink to start a line. */
  lemma SlackMovesNothing(lines: seq<Line>, edges: seq<real>, k: nat)
    requires AllInRange(lines) && AreEdges(edges, lines) && k < |lines| && X0(lines[k]) <= lines[k].words[0].x1
    ensures edges != [] && edges[0] <= X0(lines[k])
    ensures ColumnFor(edges, lines[k]) == ColumnOf(edges, X0(lines[k]))
  {
    var left, width, x := Leftmost(lines), Width(lines), X0(lines[k]);
    FirstInk(lines, k);
    hide Leftmost, Width, AllInRange, Ink;
    var bins :| AreEdgeBins(bins, lines, left, width) && edges == Placed(bins, left);
    var c := ColumnOf(edges, x + SLACK);
    if c > 0 { NoInkJustBefore(lines, left, width, bins[c], x); }
  }

  lemma NoInkJustBefore(lines: seq<Line>, left: real, width: nat, bin: nat, x: real)
    requires left <= x && Ink(lines, left, width, Bin(x, left)) && EdgeAt(lines, left, width, bin)
    ensures !(x < left + bin as real <= x + SLACK)
  {
    assert x < left + bin as real <= x + SLACK ==> bin - 1 <= Bin(x, left) < bin;
    hide Ink;
  }

  // ----- columns -----

  /** `sorted` with a key: each item after those not greater. */
  function Insert<T>(sorted: seq<T>, item: T, le: (T, T) -> bool): (inserted: seq<T>)
    ensures |inserted| == |sorted| + 1
  {
    if sorted == [] || le(sorted[|sorted| - 1], item) then sorted + [item]
    else Insert(sorted[..|sorted| - 1], item, le) + [sorted[|sorted| - 1]]
  }

  function SortBy<T>(items: seq<T>, le: (T, T) -> bool): (sorted: seq<T>)
    ensures |sorted| == |items|
  {
    if items == [] then [] else Insert(SortBy(items[..|items| - 1], le), items[|items| - 1], le)
  }

  ghost predicate Ordered<T>(items: seq<T>, le: (T, T) -> bool) {
    forall i, j | 0 <= i < j < |items| :: le(items[i], items[j])
  }

  ghost predicate Total<T(!new)>(le: (T, T) -> bool) {
    && (forall a, b :: le(a, b) || le(b, a))
    && (forall a, b, c :: le(a, b) && le(b, c) ==> le(a, c))
  }

  lemma {:induction false} InsertKeeps<T>(sorted: seq<T>, item: T, le: (T, T) -> bool)
    ensures multiset(Insert(sorted, item, le)) == multiset(sorted) + multiset{item}
  {
    if sorted != [] && !le(sorted[|sorted| - 1], item) {
      var last := sorted[|sorted| - 1];
      InsertKeeps(sorted[..|sorted| - 1], item, le);
      assert sorted == sorted[..|sorted| - 1] + [last];
    }
  }

  lemma {:induction false} InsertOrders<T(!new)>(sorted: seq<T>, item: T, le: (T, T) -> bool)
    requires Total(le) && Ordered(sorted, le)
    ensures Ordered(Insert(sorted, item, le), le)
  {
    if sorted == [] {
    } else if le(sorted[|sorted| - 1], item) {
      forall i | 0 <= i < |sorted| ensures le(sorted[i], item) {
        if i < |sorted| - 1 { assert le(sorted[i], sorted[|sorted| - 1]); }
      }
    } else {
      var last, front := sorted[|sorted| - 1], sorted[..|sorted| - 1];
      InsertOrders(front, item, le);
      InsertKeeps(front, item, le);
      var inserted := Insert(front, item, le);
      forall i | 0 <= i < |inserted| ensures le(inserted[i], last) {
        assert inserted[i] in multiset(inserted);
        if inserted[i] != item {
          assert inserted[i] in front;
        }
      }
    }
  }

  lemma {:induction false} SortKeeps<T>(items: seq<T>, le: (T, T) -> bool)
    ensures multiset(SortBy(items, le)) == multiset(items)
  {
    if items != [] {
      SortKeeps(items[..|items| - 1], le);
      InsertKeeps(SortBy(items[..|items| - 1], le), items[|items| - 1], le);
      assert items == items[..|items| - 1] + [items[|items| - 1]];
    }
  }

  lemma {:induction false} SortOrders<T(!new)>(items: seq<T>, le: (T, T) -> bool)
    requires Total(le)
    ensures Ordered(SortBy(items, le), le)
  {
    if items != [] {
      SortOrders(items[..|items| - 1], le);
      InsertOrders(SortBy(items[..|items| - 1], le), items[|items| - 1], le);
    }
  }

  predicate LineLe(a: Line, b: Line) {
    a.y0 < b.y0 || (a.y0 == b.y0 && X0(a) <= X0(b))
  }

  predicate WordLe(a: Word, b: Word) {
    a.x0 <= b.x0
  }

  lemma LineLeTotal()
    ensures Total<Line>(LineLe)
  {
  }

  lemma WordLeTotal()
    ensures Total<Word>(WordLe)
  {
  }

  /** A line of `column` runs over the next one's edge; or a word's bins run past
      the page's. */
  datatype ConversionError = AcrossGutter(column: nat) | BinOutOfRange

  /** The lines put in column `k`, as they come. */
  function InColumn(lines: seq<Line>, edges: seq<real>, k: nat): seq<Line>
    requires edges != [] && forall line | line in lines :: edges[0] <= X0(line)
  {
    if lines == [] then []
    else
      var last := lines[|lines| - 1];
      InColumn(lines[..|lines| - 1], edges, k) + if ColumnFor(edges, last) == k then [last] else []
  }

  /** A line of column `k` that reaches over the next column's edge. */
  predicate Crosses(line: Line, edges: seq<real>, k: nat) {
    k + 1 < |edges| && X1(line) > edges[k + 1]
  }

  /** The page's columns from the `k`th on, each in reading order, without the
      empty ones. */
  function ColumnsFrom(lines: seq<Line>, edges: seq<real>, k: nat): seq<seq<Line>>
    requires edges != [] && forall line | line in lines :: edges[0] <= X0(line)
    requires k <= |edges|
    decreases |edges| - k
  {
    if k == |edges| then []
    else
      var column := SortBy(InColumn(lines, edges, k), LineLe);
      (if column == [] then [] else [column]) + ColumnsFrom(lines, edges, k + 1)
  }

  lemma EdgesStart(edges: seq<real>, lines: seq<Line>)
    requires AreEdges(edges, lines) && lines != []
    ensures Starts(edges, lines)
  {
  }

  /** No line starts left of the first column. */
  ghost predicate Starts(edges: seq<real>, lines: seq<Line>) {
    edges != [] && forall line | line in lines :: edges[0] <= X0(line)
  }

  /** What splitting a page by its edges comes to: its columns, or the first whose
      lines run over the next one's edge. */
  ghost predicate Split(lines: seq<Line>, edges: seq<real>, r: Result<seq<seq<Line>>, ConversionError>)
    requires edges != [] && forall line | line in lines :: edges[0] <= X0(line)
  {
    match r
    case Success(columns) => columns == ColumnsFrom(lines, edges, 0) && NoneCrosses(lines, edges, |edges|)
    case Failure(AcrossGutter(k)) =>
      && NoneCrosses(lines, edges, k)
      && exists line | line in lines :: ColumnFor(edges, line) == k && Crosses(line, edges, k)
    case Failure(BinOutOfRange) => false
  }

  /** Split a page's lines into columns, each ordered top to bottom. */
  method Columns(lines: seq<Line>) returns (r: Result<seq<seq<Line>>, ConversionError>, ghost edges: seq<real>)
    ensures r == Failure(BinOutOfRange) <==> !AllInRange(lines)
    ensures lines == [] ==> r == Success([])
    ensures lines != [] && AllInRange(lines) ==>
      AreEdges(edges, lines) && Starts(edges, lines) && Split(lines, edges, r)
  {
    edges := [];
    var found := ColumnEdges(lines);
    if found.None? { return Failure(BinOutOfRange), []; }
    edges := found.value;
    if lines == [] { return Success([]), edges; }
    EdgesStart(found.value, lines);
    hide AreEdges, AllInRange;
    var buckets := FillBuckets(lines, found.value);
    r := SortBuckets(lines, found.value, buckets);
  }

  method FillBuckets(lines: seq<Line>, edges: seq<real>) returns (buckets: seq<seq<Line>>)
    requires edges != [] && forall line | line in lines :: edges[0] <= X0(line)
    ensures |buckets| == |edges| && forall k | 0 <= k < |edges| :: buckets[k] == InColumn(lines, edges, k)
  {
    buckets := seq(|edges|, _ => []);
    for i := 0 to |lines|
      invariant |buckets| == |edges|
      invariant forall k | 0 <= k < |edges| :: buckets[k] == InColumn(lines[..i], edges, k)
    {
      var line := lines[i];
      assert line in lines;
      var index := ColumnOf(edges, X0(line) + SLACK);
      assert index == ColumnFor(edges, line);
      hide ColumnOf, ColumnFor;
      assert lines[..i + 1][..i] == lines[..i] && lines[..i + 1][i] == line;
      buckets := buckets[index := buckets[index] + [line]];
    }
    assert lines[..|lines|] == lines;
  }

  lemma {:induction false} InColumnExactly(lines: seq<Line>, edges: seq<real>, k: nat, line: Line)
    requires edges != [] && forall line | line in lines :: edges[0] <= X0(line)
    ensures line in InColumn(lines, edges, k) <==> line in lines && ColumnFor(edges, line) == k
  {
    if lines != [] {
      InColumnExactly(lines[..|lines| - 1], edges, k, line);
      assert lines == lines[..|lines| - 1] + [lines[|lines| - 1]];
    }
  }

  /** The first of a column's lines that reaches over the next edge. */
  method FindCrossing(column: seq<Line>, edges: seq<real>, k: nat) returns (found: Option<Line>)
    ensures match found
            case None => forall line | line in column :: !Crosses(line, edges, k)
            case Some(line) => line in column && Crosses(line, edges, k)
  {
    for j := 0 to |column|
      invariant forall i | 0 <= i < j :: !Crosses(column[i], edges, k)
    {
      if k + 1 < |edges| && X1(column[j]) > edges[k + 1] { return Some(column[j]); }
    }
    found := None;
  }

  lemma SortedColumnExactly(lines: seq<Line>, edges: seq<real>, k: nat)
    requires edges != [] && forall line | line in lines :: edges[0] <= X0(line)
    ensures forall line: Line :: line in SortBy(InColumn(lines, edges, k), LineLe) <==> line in lines && ColumnFor(edges, line) == k
  {
    var column := InColumn(lines, edges, k);
    SortKeeps(column, LineLe);
    forall line: Line ensures line in SortBy(column, LineLe) <==> line in lines && ColumnFor(edges, line) == k {
      InColumnExactly(lines, edges, k, line);
      assert line in SortBy(column, LineLe) <==> line in multiset(SortBy(column, LineLe));
    }
  }

  /** No line of the columns before `k` reaches over the next edge. */
  ghost predicate NoneCrosses(lines: seq<Line>, edges: seq<real>, k: nat)
    requires edges != [] && forall line | line in lines :: edges[0] <= X0(line)
  {
    forall line | line in lines && ColumnFor(edges, line) < k :: !Crosses(line, edges, ColumnFor(edges, line))
  }

  /** One column, sorted, checked against the next edge. */
  method SortBucket(lines: seq<Line>, edges: seq<real>, k: nat, bucket: seq<Line>) returns (column: seq<Line>, crosses: bool)
    requires edges != [] && k < |edges| && forall line | line in lines :: edges[0] <= X0(line)
    requires bucket == InColumn(lines, edges, k) && NoneCrosses(lines, edges, k)
    ensures column == SortBy(bucket, LineLe)
    ensures !crosses ==> NoneCrosses(lines, edges, k + 1)
    ensures crosses ==> exists line | line in lines :: ColumnFor(edges, line) == k && Crosses(line, edges, k)
  {
    column := SortBy(bucket, LineLe);
    SortedColumnExactly(lines, edges, k);
    hide InColumn, Crosses, SortBy;
    var crossing := FindCrossing(column, edges, k);
    crosses := crossing.Some?;
  }

  lemma ColumnsUnfold(lines: seq<Line>, edges: seq<real>, k: nat, before: seq<seq<Line>>)
    requires edges != [] && k < |edges| && forall line | line in lines :: edges[0] <= X0(line)
    ensures var column := SortBy(InColumn(lines, edges, k), LineLe);
      before + ColumnsFrom(lines, edges, k)
      == (if column == [] then before else before + [column]) + ColumnsFrom(lines, edges, k + 1)
  {
    hide SortBy, InColumn;
  }

  method SortBuckets(lines: seq<Line>, edges: seq<real>, buckets: seq<seq<Line>>)
    returns (r: Result<seq<seq<Line>>, ConversionError>)
    requires edges != [] && forall line | line in lines :: edges[0] <= X0(line)
    requires |buckets| == |edges| && forall k | 0 <= k < |edges| :: buckets[k] == InColumn(lines, edges, k)
    ensures Split(lines, edges, r)
  {
    hide InColumn, Crosses, SortBy, NoneCrosses, ColumnsFrom, ColumnFor, LineLe;
    var columns := [];
    ColumnsStartEnd(lines, edges);
    for k := 0 to |edges|
      invariant columns + ColumnsFrom(lines, edges, k) == ColumnsFrom(lines, edges, 0)
      invariant NoneCrosses(lines, edges, k)
    {
      var column, crosses := SortBucket(lines, edges, k, buckets[k]);
      if crosses { return Failure(AcrossGutter(k)); }
      ColumnsUnfold(lines, edges, k, columns);
      if column != [] { columns := columns + [column]; }
    }
    r := Success(columns);
  }

  lemma ColumnsStartEnd(lines: seq<Line>, edges: seq<real>)
    requires edges != [] && forall line | line in lines :: edges[0] <= X0(line)
    ensures NoneCrosses(lines, edges, 0) && ColumnsFrom(lines, edges, |edges|) == []
  {
    hide ColumnFor;
  }
}
