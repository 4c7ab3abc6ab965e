/** The seeded random state (`game_core::rng`): a position in a word stream,
    indices drawn from it by modulo, and the in-place shuffle. */
module Rng {
  import opened FisherYates

  const WORD: int := 0x1_0000_0000
  const U64: int := 0x1_0000_0000_0000_0000

  type Word = x: int | 0 <= x < WORD
  type Uint64 = x: int | 0 <= x < U64

  /** A seed's ChaCha8 stream, by 32-bit word position. */
  type Words = (Uint64, nat) -> Word

  /** The 64-bit value at word position `pos`, and the position after it. */
  function ReadU64(words: Words, seed: Uint64, pos: nat): (Uint64, nat) {
    var low: int, high: int := words(seed, pos), words(seed, pos + 1);
    (low + WORD * high, pos + 2)
  }

  /** The value the draw numbered `draws` gives, read at its word position. */
  function DrawAt(words: Words, seed: Uint64, draws: nat): Uint64 {
    ReadU64(words, seed, draws * 2).0
  }

  /** The word position reached by stepping through `draws` draws from the
      start of the stream. */
  function SteppedTo(words: Words, seed: Uint64, draws: nat): nat {
    if draws == 0 then 0 else ReadU64(words, seed, SteppedTo(words, seed, draws - 1)).1
  }

  /** Reconstructing the stream at a draw count reads the value that stepping
      there one draw at a time would read next. */
  lemma {:induction false} ReconstructionIsStepping(words: Words, seed: Uint64, draws: nat)
    ensures ReadU64(words, seed, SteppedTo(words, seed, draws)).0 == DrawAt(words, seed, draws)
    ensures SteppedTo(words, seed, draws) == draws * 2
  {
    if draws > 0 {
      ReconstructionIsStepping(words, seed, draws - 1);
    }
  }

  /** The index below `n` the draw numbered `draws` gives: modulo `n`. */
  function IndexAt(words: Words, seed: Uint64, draws: nat, n: nat): (index: nat)
    requires n > 0
    ensures index < n
  {
    DrawAt(words, seed, draws) % n
  }

  /** `v` is `q` times `n` and `index` left over. */
  predicate Divides(v: nat, n: nat, q: nat, index: nat) {
    index < n && v == q * n + index
  }

  /** `index` is what is left over when the value drawn after `draws` draws of
      the stream, each stepped over one at a time, is divided by `n`. */
  ghost predicate DrawnIndex(words: Words, seed: Uint64, draws: nat, n: nat, index: nat) {
    exists q: nat :: Divides(ReadU64(words, seed, SteppedTo(words, seed, draws)).0, n, q, index)
  }

  /** The index drawn is the one left over from the stream, and no other is. */
  lemma IndexIsLeftOver(words: Words, seed: Uint64, draws: nat, n: nat, index: nat)
    requires n > 0
    ensures DrawnIndex(words, seed, draws, n, index) <==> index == IndexAt(words, seed, draws, n)
  {
    ReconstructionIsStepping(words, seed, draws);
    var v := ReadU64(words, seed, SteppedTo(words, seed, draws)).0;
    var q := v / n;
    assert v == q * n + v % n;
    assert Divides(v, n, q, v % n);
    if DrawnIndex(words, seed, draws, n, index) {
      var q' :| Divides(v, n, q', index);
      DivUnique(v, n, q', index);
    }
  }

  /** The index choices a shuffle of `steps + 1` items draws, starting at draw
      `draws`: one draw a step, modulo the items still in play. */
  function DrawnChoices(words: Words, seed: Uint64, draws: nat, steps: nat): (js: seq<nat>)
    ensures |js| == steps && ValidChoices(js)
    decreases steps
  {
    if steps == 0 then []
    else [IndexAt(words, seed, draws, steps + 1)] + DrawnChoices(words, seed, draws + 1, steps - 1)
  }

  /** A shuffle's choice at each step is what the stream's next draw leaves over
      when divided by the number of items still in play. */
  lemma {:induction false} ChoicesAreLeftOver(words: Words, seed: Uint64, draws: nat, steps: nat, k: nat)
    requires k < steps
    ensures DrawnIndex(words, seed, draws + k, steps + 1 - k, DrawnChoices(words, seed, draws, steps)[k])
    decreases steps
  {
    if k == 0 {
      IndexIsLeftOver(words, seed, draws, steps + 1, IndexAt(words, seed, draws, steps + 1));
    } else {
      ChoicesAreLeftOver(words, seed, draws + 1, steps - 1, k - 1);
    }
  }

  /** The underlying generator: a position in a seed's stream. */
  class ChaCha8Rng {
    const words: Words
    const seed: Uint64
    var pos: nat

    constructor SeedFromU64(words: Words, seed: Uint64)
      ensures this.words == words && this.seed == seed && pos == 0
    {
      this.words := words;
      this.seed := seed;
      pos := 0;
    }

    method SetWordPos(target: nat)
      modifies this
      ensures pos == target
    {
      pos := target;
    }

    method NextU64() returns (v: Uint64)
      modifies this
      ensures (v, pos) == ReadU64(words, seed, old(pos))
    {
      var low: int, high: int := words(seed, pos), words(seed, pos + 1);
      v := low + WORD * high;
      pos := pos + 2;
    }
  }

  class RngState {
    const words: Words
    const seed: Uint64
    var draws: nat

    constructor At(words: Words, seed: Uint64, draws: nat)
      ensures this.words == words && this.seed == seed && this.draws == draws
    {
      this.words := words;
      this.seed := seed;
      this.draws := draws;
    }

    method RngAtCurrentPos() returns (rng: ChaCha8Rng)
      ensures fresh(rng)
      ensures rng.words == words && rng.seed == seed && rng.pos == SteppedTo(words, seed, draws)
    {
      rng := new ChaCha8Rng.SeedFromU64(words, seed);
      rng.SetWordPos(draws * 2);
      ReconstructionIsStepping(words, seed, draws);
    }

    /** Advance the stream by one 64-bit word. */
    method NextU64() returns (v: Uint64)
      modifies this
      ensures v == DrawAt(words, seed, old(draws))
      ensures draws == old(draws) + 1
    {
      var rng := RngAtCurrentPos();
      ReconstructionIsStepping(words, seed, draws);
      v := rng.NextU64();
      draws := draws + 1;
    }

    /** An index in [0, n): the next draw modulo `n`, which must not be 0. Only
        the number left over from the stream's next value will do. */
    method NextIndex(n: nat) returns (index: nat)
      requires n > 0
      modifies this
      ensures DrawnIndex(words, seed, old(draws), n, index)
      ensures index == IndexAt(words, seed, old(draws), n)
      ensures draws == old(draws) + 1
    {
      IndexIsLeftOver(words, seed, draws, n, IndexAt(words, seed, draws, n));
      var v := NextU64();
      index := v % n;
    }

    /** Fisher-Yates in place: the items end up where the drawn choices put
        them, and the count advances by one a step, whatever the items are. */
    method Shuffle<T>(items: array<T>) returns (drew: bool)
      modifies this, items
      ensures drew <==> items.Length >= 2
      ensures var steps := if items.Length < 2 then 0 else items.Length - 1;
              && draws == old(draws) + steps
              && items[..] == Shuffled(old(items[..]), DrawnChoices(words, seed, old(draws), steps))
    {
      if items.Length < 2 {
        return false;
      }
      ShuffleDown(items);
      return true;
    }

    /** The descending loop, from the last index down to 1. */
    method ShuffleDown<T>(items: array<T>)
      requires items.Length >= 1
      modifies this, items
      ensures draws == old(draws) + items.Length - 1
      ensures items[..] == Shuffled(old(items[..]), DrawnChoices(words, seed, old(draws), items.Length - 1))
    {
      hide Swap, Shuffled, DrawnChoices, IndexAt;
      var i := items.Length - 1;
      ghost var last := draws + i;
      ghost var result := Shuffled(items[..], DrawnChoices(words, seed, draws, i));
      while i >= 1
        invariant 0 <= i < items.Length && draws + i == last
        invariant Shuffled(items[..], DrawnChoices(words, seed, draws, i)) == result
      {
        NextDraw(items[..], words, seed, draws, i);
        var j := NextIndex(i + 1);
        SwapInPlace(items, i, j);
        i := i - 1;
      }
      NoDraw(items[..], words, seed, draws);
    }
  }

  lemma NoDraw<T>(items: seq<T>, words: Words, seed: Uint64, draws: nat)
    ensures Shuffled(items, DrawnChoices(words, seed, draws, 0)) == items
  {
  }

  lemma NextDraw<T>(items: seq<T>, words: Words, seed: Uint64, draws: nat, i: nat)
    requires 0 < i < |items|
    ensures var j := IndexAt(words, seed, draws, i + 1);
            Shuffled(items, DrawnChoices(words, seed, draws, i))
            == Shuffled(Swap(items, i, j), DrawnChoices(words, seed, draws + 1, i - 1))
  {
    var js := DrawnChoices(words, seed, draws, i);
    assert Later(js) == DrawnChoices(words, seed, draws + 1, i - 1);
  }

  method SwapInPlace<T>(items: array<T>, i: nat, j: nat)
    requires i < items.Length && j < items.Length
    modifies items
    ensures items[..] == Swap(old(items[..]), i, j)
  {
    items[i], items[j] := items[j], items[i];
  }

  // ----- bias -----

  ghost function Hits(words: nat, n: nat, index: nat): set<nat>
    requires n > 0
  {
    set v: nat | v < words && v % n == index
  }

  lemma DivStep(words: nat, n: nat)
    requires n > 0
    ensures (words + 1) / n == words / n + (if words % n == n - 1 then 1 else 0)
    ensures (words + 1) % n == (if words % n == n - 1 then 0 else words % n + 1)
  {
    var q, r := words / n, words % n;
    assert words == q * n + r;
    if r == n - 1 {
      assert words + 1 == (q + 1) * n;
      DivUnique(words + 1, n, q + 1, 0);
    } else {
      DivUnique(words + 1, n, q, r + 1);
    }
  }

  lemma DivUnique(x: nat, n: nat, q: nat, r: nat)
    requires n > 0 && r < n && x == q * n + r
    ensures x / n == q && x % n == r
  {
    var q', r' := x / n, x % n;
    assert x == q' * n + r';
    MultipleBound(q - q', n);
  }

  lemma MultipleBound(d: int, n: int)
    requires n > 0
    ensures d >= 1 ==> d * n >= n
    ensures d <= -1 ==> d * n <= -n
  {
  }

  /** Modulo bias: of the first `words` values, an index below `n` is hit by
      `words / n` of them, or one more for the indices below `words % n`.
      With `words` as 2^64 this is `next_index`'s exact bias. */
  lemma {:induction false} ModuloHits(words: nat, n: nat, index: nat)
    requires index < n
    ensures |Hits(words, n, index)| == words / n + (if index < words % n then 1 else 0)
  {
    if words == 0 {
      assert Hits(words, n, index) == {};
    } else {
      ModuloHits(words - 1, n, index);
      DivStep(words - 1, n);
      var last := words - 1;
      assert Hits(words, n, index) ==
        Hits(last, n, index) + (if last % n == index then {last} else {});
    }
  }

  /** The stream that differs from `words` at most in what the draw numbered
      `draws` reads of `seed`'s: there it reads `v`. */
  function Drawing(words: Words, seed: Uint64, draws: nat, v: Uint64): Words {
    (s: Uint64, pos: nat) =>
      if s == seed && pos == draws * 2 then v % WORD
      else if s == seed && pos == draws * 2 + 1 then v / WORD
      else words(s, pos)
  }

  /** What that draw may read for `NextIndex` to return `index`. */
  ghost function Giving(words: Words, seed: Uint64, draws: nat, n: nat, index: nat): set<nat> {
    set v: nat | v < U64 && DrawnIndex(Drawing(words, seed, draws, v), seed, draws, n, index)
  }

  lemma DrawingReads(words: Words, seed: Uint64, draws: nat, v: Uint64)
    ensures var drawing := Drawing(words, seed, draws, v);
            ReadU64(drawing, seed, SteppedTo(drawing, seed, draws)).0 == v
  {
    ReconstructionIsStepping(Drawing(words, seed, draws, v), seed, draws);
  }

  /** **The bias of an index.** Of the 2^64 values a draw can read, exactly
      floor(2^64 / n) give each index below `n`, and one more those below
      2^64 mod n. */
  lemma IndexBias(words: Words, seed: Uint64, draws: nat, n: nat, index: nat)
    requires index < n
    ensures |Giving(words, seed, draws, n, index)| == U64 / n + (if index < U64 % n then 1 else 0)
  {
    forall v: nat | v < U64
      ensures v in Giving(words, seed, draws, n, index) <==> v in Hits(U64, n, index)
    {
      DrawingReads(words, seed, draws, v);
      IndexIsLeftOver(Drawing(words, seed, draws, v), seed, draws, n, index);
      ReconstructionIsStepping(Drawing(words, seed, draws, v), seed, draws);
    }
    assert Giving(words, seed, draws, n, index) == Hits(U64, n, index);
    ModuloHits(U64, n, index);
  }
}
