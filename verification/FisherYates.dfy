/** The permutation a Fisher-Yates shuffle makes of its items, as a function of
    the index chosen at each step. */
module FisherYates {

  /** One choice a step, the first for the last index: step `k` of `n` chooses
      among the `n - k + 1` items still in play. */
  ghost predicate ValidChoices(js: seq<nat>) {
    forall k | 0 <= k < |js| :: js[k] <= |js| - k
  }

  function Swap<T>(items: seq<T>, i: nat, j: nat): (r: seq<T>)
    requires i < |items| && j < |items|
    ensures |r| == |items|
  {
    items[i := items[j]][j := items[i]]
  }

  /** The items after swapping index `|js|` with the first choice, the index
      below it with the second, and so on down to index 1. */
  ghost function Shuffled<T>(items: seq<T>, js: seq<nat>): (r: seq<T>)
    requires ValidChoices(js)
    requires |js| < |items| || js == []
    ensures |r| == |items|
    decreases |js|
  {
    if js == [] then items
    else Shuffled(Swap(items, |js|, js[0]), Later(js))
  }

  ghost function Later(js: seq<nat>): (r: seq<nat>)
    requires js != [] && ValidChoices(js)
    ensures r == js[1..] && ValidChoices(r)
  {
    assert forall k | 0 <= k < |js| - 1 :: js[1..][k] == js[k + 1];
    js[1..]
  }

  lemma SwapPermutes<T>(items: seq<T>, i: nat, j: nat)
    requires i < |items| && j < |items|
    ensures multiset(Swap(items, i, j)) == multiset(items)
  {
  }

  /** A shuffle only reorders: no item is lost, added or duplicated. */
  lemma {:induction false} ShuffledPermutes<T>(items: seq<T>, js: seq<nat>)
    requires ValidChoices(js) && (|js| < |items| || js == [])
    ensures multiset(Shuffled(items, js)) == multiset(items)
    decreases |js|
  {
    if js != [] {
      SwapPermutes(items, |js|, js[0]);
      ShuffledPermutes(Swap(items, |js|, js[0]), Later(js));
    }
  }

  /** Indices above the steps still to run are settled. */
  lemma {:induction false} SettledAbove<T>(items: seq<T>, js: seq<nat>, k: nat)
    requires ValidChoices(js) && |js| < |items|
    requires |js| < k < |items|
    ensures Shuffled(items, js)[k] == items[k]
    decreases |js|
  {
    if js != [] {
      SettledAbove(Swap(items, |js|, js[0]), Later(js), k);
    }
  }

  /** The first choice decides the last index for good. */
  lemma FirstChoiceSettles<T>(items: seq<T>, js: seq<nat>)
    requires ValidChoices(js) && js != [] && |js| < |items|
    ensures Shuffled(items, js)[|js|] == items[js[0]]
  {
    SettledAbove(Swap(items, |js|, js[0]), Later(js), |js|);
  }

  ghost predicate Distinct<T>(items: seq<T>) {
    forall i, j | 0 <= i < j < |items| :: items[i] != items[j]
  }

  /** **One choice vector an order.** On distinct items two choice vectors of
      one length never give the same order. */
  lemma {:induction false} ShuffledInjective<T>(items: seq<T>, js: seq<nat>, ks: seq<nat>)
    requires Distinct(items)
    requires ValidChoices(js) && ValidChoices(ks)
    requires |js| == |ks| < |items|
    requires Shuffled(items, js) == Shuffled(items, ks)
    ensures js == ks
    decreases |js|
  {
    if js != [] {
      FirstChoiceSettles(items, js);
      FirstChoiceSettles(items, ks);
      assert js[0] == ks[0];
      ShuffledInjective(Swap(items, |js|, js[0]), Later(js), Later(ks));
      assert js == [js[0]] + Later(js) && ks == [ks[0]] + Later(ks);
    }
  }

  lemma Cancel<T>(a: multiset<T>, b: multiset<T>, c: multiset<T>)
    requires a + c == b + c
    ensures a == b
  {
    assert a == (a + c) - c;
    assert b == (b + c) - c;
  }

  /** An item of `target[..m + 1]` sits among `items[..m + 1]` when the two
      hold the same items and agree above `m`. */
  lemma TargetInPlay<T>(items: seq<T>, target: seq<T>, m: nat)
    requires m < |items| == |target|
    requires multiset(items) == multiset(target)
    requires forall k | m < k < |items| :: items[k] == target[k]
    ensures exists j: nat :: j <= m && items[j] == target[m]
  {
    assert items == items[..m + 1] + items[m + 1..];
    assert target == target[..m + 1] + target[m + 1..];
    assert items[m + 1..] == target[m + 1..];
    assert multiset(items) == multiset(items[..m + 1]) + multiset(items[m + 1..]);
    assert multiset(target) == multiset(target[..m + 1]) + multiset(target[m + 1..]);
    Cancel(multiset(items[..m + 1]), multiset(target[..m + 1]), multiset(items[m + 1..]));
    assert target[m] in target[..m + 1];
    assert target[m] in multiset(items[..m + 1]);
    assert target[m] in items[..m + 1];
  }

  /** The choices that take `items` to `target`, settling index `m` first. */
  lemma {:induction false} ChoicesReaching<T>(items: seq<T>, target: seq<T>, m: nat) returns (js: seq<nat>)
    requires m < |items| == |target|
    requires multiset(items) == multiset(target)
    requires forall k | m < k < |items| :: items[k] == target[k]
    ensures |js| == m && ValidChoices(js)
    ensures Shuffled(items, js) == target
    decreases m
  {
    TargetInPlay(items, target, m);
    var j: nat :| j <= m && items[j] == target[m];
    if m == 0 {
      js := [];
      assert items == target;
    } else {
      var swapped := Swap(items, m, j);
      SwapPermutes(items, m, j);
      var rest := ChoicesReaching(swapped, target, m - 1);
      js := [j] + rest;
      assert js[1..] == rest;
    }
  }

  /** **Every order is reachable**, repeated items included. */
  lemma EveryOrderReachable<T>(items: seq<T>, target: seq<T>)
    requires multiset(items) == multiset(target)
    ensures |items| == |target|
    ensures exists js :: Gives(items, js, target)
  {
    assert |multiset(items)| == |items| && |multiset(target)| == |target|;
    var js := GivesOrder(items, target);
  }

  /** How many swaps a shuffle of `items` makes. */
  function Steps<T>(items: seq<T>): nat {
    if items == [] then 0 else |items| - 1
  }

  /** `js` is a choice vector for `items`, and leaves them as `target`. */
  ghost predicate Gives<T>(items: seq<T>, js: seq<nat>, target: seq<T>) {
    |js| == Steps(items) && ValidChoices(js) && Shuffled(items, js) == target
  }

  function Relabel<T, U>(items: seq<T>, f: T -> U): (r: seq<U>)
    ensures |r| == |items|
  {
    seq(|items|, i requires 0 <= i < |items| => f(items[i]))
  }

  /** A shuffle moves positions, not items: relabelling before or after is the
      same. */
  lemma {:induction false} ShuffledRelabels<T, U>(items: seq<T>, js: seq<nat>, f: T -> U)
    requires ValidChoices(js) && (|js| < |items| || js == [])
    ensures Shuffled(Relabel(items, f), js) == Relabel(Shuffled(items, js), f)
    decreases |js|
  {
    if js != [] {
      assert Relabel(Swap(items, |js|, js[0]), f) == Swap(Relabel(items, f), |js|, js[0]);
      ShuffledRelabels(Swap(items, |js|, js[0]), Later(js), f);
    }
  }

  // ----- counting the choice vectors -----

  function Factorial(n: nat): nat {
    if n == 0 then 1 else n * Factorial(n - 1)
  }

  ghost function Prefixed(bound: nat, rests: set<seq<nat>>): set<seq<nat>> {
    set j: nat, rest | j < bound && rest in rests :: [j] + rest
  }

  ghost function PrefixedBy(j: nat, rests: set<seq<nat>>): set<seq<nat>> {
    set rest | rest in rests :: [j] + rest
  }

  ghost function AllChoices(steps: nat): set<seq<nat>> {
    if steps == 0 then {[]} else Prefixed(steps + 1, AllChoices(steps - 1))
  }

  lemma {:induction false} AllChoicesAreValid(steps: nat, js: seq<nat>)
    ensures js in AllChoices(steps) <==> |js| == steps && ValidChoices(js)
  {
    if steps > 0 {
      if js in AllChoices(steps) {
        var j: nat, rest :| j < steps + 1 && rest in AllChoices(steps - 1) && js == [j] + rest;
        AllChoicesAreValid(steps - 1, rest);
      }
      if |js| == steps && ValidChoices(js) {
        AllChoicesAreValid(steps - 1, Later(js));
        assert js == [js[0]] + Later(js);
      }
    }
  }

  lemma {:induction false} PrefixedOnce(j: nat, rests: set<seq<nat>>)
    ensures |PrefixedBy(j, rests)| == |rests|
    decreases |rests|
  {
    var prefixed := PrefixedBy(j, rests);
    if rests == {} {
      assert prefixed == {};
    } else {
      var rest :| rest in rests;
      PrefixedOnce(j, rests - {rest});
      var fewer := PrefixedBy(j, rests - {rest});
      forall r | r in rests - {rest} ensures [j] + r != [j] + rest {
        assert ([j] + r)[1..] == r && ([j] + rest)[1..] == rest;
      }
      assert prefixed == fewer + {[j] + rest};
    }
  }

  lemma PrefixedSplit(bound: nat, rests: set<seq<nat>>)
    requires bound > 0
    ensures var fewer, last := Prefixed(bound - 1, rests), PrefixedBy(bound - 1, rests);
            |Prefixed(bound, rests)| == |fewer| + |last|
  {
    var fewer, last := Prefixed(bound - 1, rests), PrefixedBy(bound - 1, rests);
    forall js | js in Prefixed(bound, rests) ensures js in fewer + last {
      var j: nat, rest :| j < bound && rest in rests && js == [j] + rest;
    }
    assert forall js | js in fewer :: js[0] < bound - 1;
    assert forall js | js in last :: js[0] == bound - 1;
    assert fewer !! last;
    assert Prefixed(bound, rests) == fewer + last;
  }

  lemma MulStep(a: nat, b: nat)
    requires a > 0
    ensures (a - 1) * b + b == a * b
  {
  }

  lemma {:induction false} PrefixedCount(bound: nat, rests: set<seq<nat>>)
    ensures |Prefixed(bound, rests)| == bound * |rests|
  {
    if bound == 0 {
      assert Prefixed(bound, rests) == {};
    } else {
      PrefixedCount(bound - 1, rests);
      PrefixedOnce(bound - 1, rests);
      PrefixedSplit(bound, rests);
      MulStep(bound, |rests|);
    }
  }

  /** A shuffle of `steps + 1` items has exactly `(steps + 1)!` choice
      vectors. */
  lemma {:induction false} ChoiceCount(steps: nat)
    ensures |AllChoices(steps)| == Factorial(steps + 1)
    ensures forall js :: js in AllChoices(steps) <==> |js| == steps && ValidChoices(js)
  {
    forall js ensures js in AllChoices(steps) <==> |js| == steps && ValidChoices(js) {
      AllChoicesAreValid(steps, js);
    }
    if steps == 0 {
      assert Factorial(1) == 1 * Factorial(0);
    } else {
      ChoiceCount(steps - 1);
      PrefixedCount(steps + 1, AllChoices(steps - 1));
    }
  }

  lemma GivesOrder<T>(items: seq<T>, target: seq<T>) returns (js: seq<nat>)
    requires multiset(target) == multiset(items)
    ensures Gives(items, js, target)
  {
    assert |multiset(items)| == |items| && |multiset(target)| == |target|;
    if items == [] {
      js := [];
    } else {
      js := ChoicesReaching(items, target, |items| - 1);
    }
  }

  lemma GivesOnce<T>(items: seq<T>, js: seq<nat>, ks: seq<nat>, target: seq<T>)
    requires Distinct(items) && Gives(items, js, target) && Gives(items, ks, target)
    ensures js == ks
  {
    if items != [] { ShuffledInjective(items, js, ks); }
  }

  lemma GivesSome<T>(items: seq<T>, ks: seq<nat>)
    requires |ks| == Steps(items) && ValidChoices(ks)
    ensures exists order :: Gives(items, ks, order) && multiset(order) == multiset(items)
  {
    ShuffledPermutes(items, ks);
    assert Gives(items, ks, Shuffled(items, ks));
  }

  /** **The choice vectors are the orders.** On distinct items, exactly one of
      the `|items|!` choice vectors gives each order of them; and each gives
      one. */
  lemma OneChoiceVectorAnOrder<T>(items: seq<T>, target: seq<T>) returns (js: seq<nat>)
    requires Distinct(items) && multiset(target) == multiset(items)
    ensures |AllChoices(Steps(items))| == Factorial(|items|)
    ensures js in AllChoices(Steps(items)) && Gives(items, js, target)
    ensures forall ks | ks in AllChoices(Steps(items)) && Gives(items, ks, target) :: ks == js
    ensures forall ks | ks in AllChoices(Steps(items)) ::
              exists order :: Gives(items, ks, order) && multiset(order) == multiset(items)
  {
    ChoiceCount(Steps(items));
    FactorialOf(items);
    js := GivesOrder(items, target);
    assert |js| == Steps(items) && ValidChoices(js);
    hide Gives, AllChoices, ValidChoices, Factorial, Distinct, Steps;
    forall ks | ks in AllChoices(Steps(items)) && Gives(items, ks, target) ensures ks == js {
      GivesOnce(items, ks, js, target);
    }
    forall ks | ks in AllChoices(Steps(items))
      ensures exists order :: Gives(items, ks, order) && multiset(order) == multiset(items)
    {
      GivesSome(items, ks);
    }
  }

  lemma FactorialOf<T>(items: seq<T>)
    ensures Factorial(Steps(items) + 1) == Factorial(|items|)
  {
    if items == [] { assert Factorial(1) == 1 * Factorial(0); }
  }
}
