/**
 The evaluation's AUC (radar/scripts/eval.py): ranks summed group by group over the sorted scores, ties
 sharing their average rank. Scores are reals; the arithmetic is exact.
 */
module Auc {
  import opened Common

  datatype Item = Item(score: real, yes: bool)

  function Items(scores: seq<real>, yes: bool): (items: seq<Item>)
    ensures |items| == |scores|
  {
    seq(|scores|, i requires 0 <= i < |scores| => Item(scores[i], yes))
  }

  // ----- the definition --------------------------------------------------------------------------

  /** How many of `xs` are below `v`. */
  function Below(xs: seq<real>, v: real): nat {
    if xs == [] then 0 else Below(xs[..|xs| - 1], v) + if xs[|xs| - 1] < v then 1 else 0
  }

  function EqualTo(xs: seq<real>, v: real): nat {
    if xs == [] then 0 else EqualTo(xs[..|xs| - 1], v) + if xs[|xs| - 1] == v then 1 else 0
  }

  /** The pairs of a yes above a no. */
  function PairsAbove(pos: seq<real>, neg: seq<real>): nat {
    if pos == [] then 0 else PairsAbove(pos[..|pos| - 1], neg) + Below(neg, pos[|pos| - 1])
  }

  function TiedPairs(pos: seq<real>, neg: seq<real>): nat {
    if pos == [] then 0 else TiedPairs(pos[..|pos| - 1], neg) + EqualTo(neg, pos[|pos| - 1])
  }

  /** The chance that a yes scores above a no, a tie counting half. */
  function Pairwise(pos: seq<real>, neg: seq<real>): real
    requires pos != [] && neg != []
  {
    (PairsAbove(pos, neg) as real + TiedPairs(pos, neg) as real / 2.0) / ((|pos| * |neg|) as real)
  }

  // ----- the sort --------------------------------------------------------------------------------

  /** Python's order on (score, label). */
  predicate Before(a: Item, b: Item) {
    a.score < b.score || (a.score == b.score && (b.yes || !a.yes))
  }

  function Insert(sorted: seq<Item>, x: Item): seq<Item> {
    if sorted == [] || Before(sorted[|sorted| - 1], x) then sorted + [x]
    else Insert(sorted[..|sorted| - 1], x) + [sorted[|sorted| - 1]]
  }

  function Sort(items: seq<Item>): seq<Item> {
    if items == [] then [] else Insert(Sort(items[..|items| - 1]), items[|items| - 1])
  }

  predicate Ascending(items: seq<Item>) {
    items == [] ||
    (Ascending(items[..|items| - 1]) && forall i :: 0 <= i < |items| - 1 ==> items[i].score <= items[|items| - 1].score)
  }

  function Scores(items: seq<Item>): seq<real> {
    seq(|items|, i requires 0 <= i < |items| => items[i].score)
  }

  /** Twice an item's average rank: those below it, those not above it, and one. */
  function Rank2(all: seq<Item>, v: real): nat {
    var xs := Scores(all);
    Below(xs, v) + (Below(xs, v) + EqualTo(xs, v)) + 1
  }

  /** Twice the rank sum of the yeses. */
  function Ranks2(items: seq<Item>, all: seq<Item>): nat {
    if items == [] then 0
    else
      var x := items[|items| - 1];
      Ranks2(items[..|items| - 1], all) + if x.yes then Rank2(all, x.score) else 0
  }

  lemma ScoresAppend(items: seq<Item>, x: Item)
    ensures Scores(items + [x]) == Scores(items) + [x.score]
  {
  }

  lemma CountAppend(xs: seq<real>, x: real, v: real)
    ensures Below(xs + [x], v) == Below(xs, v) + if x < v then 1 else 0
    ensures EqualTo(xs + [x], v) == EqualTo(xs, v) + if x == v then 1 else 0
  {
    assert (xs + [x])[..|xs|] == xs;
  }

  lemma Rank2Append(all: seq<Item>, x: Item, v: real)
    ensures Rank2(all + [x], v) == Rank2(all, v) + (if x.score < v then 2 else if x.score == v then 1 else 0)
  {
    ScoresAppend(all, x);
    CountAppend(Scores(all), x.score, v);
  }

  lemma Ranks2Append(items: seq<Item>, x: Item, all: seq<Item>)
    ensures Ranks2(items + [x], all) == Ranks2(items, all) + if x.yes then Rank2(all, x.score) else 0
  {
    assert (items + [x])[..|items|] == items;
  }

  lemma SplitLast(items: seq<Item>)
    requires items != []
    ensures items == items[..|items| - 1] + [items[|items| - 1]]
  {
  }

  /** Where an item is inserted changes no rank. */
  lemma {:induction false} Rank2Insert(items: seq<Item>, x: Item, v: real)
    ensures Rank2(Insert(items, x), v) == Rank2(items + [x], v)
  {
    if items != [] && !Before(items[|items| - 1], x) {
      var init, last := items[..|items| - 1], items[|items| - 1];
      Rank2Insert(init, x, v);
      Rank2Append(Insert(init, x), last, v);
      Rank2Append(init, x, v);
      Rank2Append(init, last, v);
      SplitLast(items);
      Rank2Append(items, x, v);
    }
  }

  lemma {:induction false} Rank2Sort(items: seq<Item>, v: real)
    ensures Rank2(Sort(items), v) == Rank2(items, v)
  {
    if items != [] {
      var init, last := items[..|items| - 1], items[|items| - 1];
      Rank2Sort(init, v);
      Rank2Insert(Sort(init), last, v);
      Rank2Append(Sort(init), last, v);
      Rank2Append(init, last, v);
      SplitLast(items);
    }
  }

  lemma {:induction false} Ranks2Insert(items: seq<Item>, x: Item, all: seq<Item>)
    ensures Ranks2(Insert(items, x), all) == Ranks2(items, all) + if x.yes then Rank2(all, x.score) else 0
  {
    if items != [] && !Before(items[|items| - 1], x) {
      var init, last := items[..|items| - 1], items[|items| - 1];
      Ranks2Insert(init, x, all);
      Ranks2Append(Insert(init, x), last, all);
      Ranks2Append(init, last, all);
      SplitLast(items);
    } else {
      Ranks2Append(items, x, all);
    }
  }

  lemma {:induction false} Ranks2Sort(items: seq<Item>, all: seq<Item>)
    ensures Ranks2(Sort(items), all) == Ranks2(items, all)
  {
    if items != [] {
      Ranks2Sort(items[..|items| - 1], all);
      Ranks2Insert(Sort(items[..|items| - 1]), items[|items| - 1], all);
    }
  }

  lemma {:induction false} Ranks2Same(items: seq<Item>, all: seq<Item>, other: seq<Item>)
    requires forall v :: Rank2(all, v) == Rank2(other, v)
    ensures Ranks2(items, all) == Ranks2(items, other)
  {
    if items != [] { Ranks2Same(items[..|items| - 1], all, other); }
  }

  /** So the rank sum of the sorted items is that of the items as they came. */
  lemma SortingKeepsRanks(items: seq<Item>)
    ensures Ranks2(Sort(items), Sort(items)) == Ranks2(items, items)
  {
    forall v: real
      ensures Rank2(Sort(items), v) == Rank2(items, v)
    {
      Rank2Sort(items, v);
    }
    Ranks2Same(Sort(items), Sort(items), items);
    Ranks2Sort(items, items);
  }

  lemma AppendAscends(items: seq<Item>, x: Item)
    requires Ascending(items) && (items == [] || items[|items| - 1].score <= x.score)
    ensures Ascending(items + [x])
  {
    assert (items + [x])[..|items|] == items;
  }

  lemma {:induction false} InsertAscends(items: seq<Item>, x: Item)
    requires Ascending(items)
    ensures Ascending(Insert(items, x)) && Insert(items, x) != []
    ensures var r := Insert(items, x);
            r[|r| - 1].score == if items == [] || Before(items[|items| - 1], x) then x.score else items[|items| - 1].score
  {
    if items == [] || Before(items[|items| - 1], x) {
      AppendAscends(items, x);
    } else {
      var init, last := items[..|items| - 1], items[|items| - 1];
      InsertAscends(init, x);
      assert init != [] ==> init[|init| - 1].score <= last.score;
      AppendAscends(Insert(init, x), last);
    }
  }

  lemma {:induction false} SortAscends(items: seq<Item>)
    ensures Ascending(Sort(items)) && |Sort(items)| == |items|
  {
    if items != [] {
      SortAscends(items[..|items| - 1]);
      InsertAscends(Sort(items[..|items| - 1]), items[|items| - 1]);
      InsertLength(Sort(items[..|items| - 1]), items[|items| - 1]);
    }
  }

  lemma {:induction false} InsertLength(items: seq<Item>, x: Item)
    ensures |Insert(items, x)| == |items| + 1
  {
    if items != [] && !Before(items[|items| - 1], x) { InsertLength(items[..|items| - 1], x); }
  }

  // ----- rank sum and pairs ----------------------------------------------------------------------

  lemma {:induction false} CountConcat(a: seq<real>, b: seq<real>, v: real)
    ensures Below(a + b, v) == Below(a, v) + Below(b, v) && EqualTo(a + b, v) == EqualTo(a, v) + EqualTo(b, v)
    decreases |b|
  {
    if b == [] {
      assert a + b == a;
    } else {
      assert (a + b)[..|a + b| - 1] == a + b[..|b| - 1];
      CountConcat(a, b[..|b| - 1], v);
    }
  }

  /** Twice the sum over `ys` of those of `xs` below, and ties once. */
  function Cross2(xs: seq<real>, ys: seq<real>): nat {
    if ys == [] then 0
    else
      var y := ys[|ys| - 1];
      Cross2(xs, ys[..|ys| - 1]) + 2 * Below(xs, y) + EqualTo(xs, y)
  }

  lemma {:induction false} CrossIsPairs(pos: seq<real>, neg: seq<real>)
    ensures Cross2(neg, pos) == 2 * PairsAbove(pos, neg) + TiedPairs(pos, neg)
  {
    if pos != [] { CrossIsPairs(pos[..|pos| - 1], neg); }
  }

  /** Seen from the other side: above and below trade places, ties stay. */
  lemma {:induction false} CrossAppend(xs: seq<real>, x: real, ys: seq<real>)
    ensures Cross2(xs + [x], ys) == Cross2(xs, ys) + 2 * (|ys| - Below(ys, x) - EqualTo(ys, x)) + EqualTo(ys, x)
  {
    if ys != [] {
      var y := ys[|ys| - 1];
      CrossAppend(xs, x, ys[..|ys| - 1]);
      CountAppend(xs, x, y);
    }
  }

  /** Against itself, a list of n has n squared: every pair counts two between its two orders. */
  lemma {:induction false} CrossSelf(xs: seq<real>)
    ensures Cross2(xs, xs) == |xs| * |xs|
  {
    if xs != [] {
      var init, x := xs[..|xs| - 1], xs[|xs| - 1];
      CrossSelf(init);
      assert xs == init + [x];
      CrossAppend(init, x, init);
      CountAppend(init, x, x);
      Squares(|init|);
    }
  }

  lemma Squares(n: nat)
    ensures (n + 1) * (n + 1) == n * n + 2 * n + 1
  {
  }

  /** The ranks of the yeses, one by one. */
  lemma {:induction false} YesRanks(some: seq<real>, pos: seq<real>, neg: seq<real>)
    ensures Ranks2(Items(some, true), Items(pos, true) + Items(neg, false)) == Cross2(pos, some) + Cross2(neg, some) + |some|
  {
    var all := Items(pos, true) + Items(neg, false);
    assert Scores(all) == pos + neg;
    if some != [] {
      var init, x := some[..|some| - 1], some[|some| - 1];
      YesRanks(init, pos, neg);
      assert Items(some, true)[..|some| - 1] == Items(init, true) && Items(some, true)[|some| - 1] == Item(x, true);
      CountConcat(pos, neg, x);
    }
  }

  lemma {:induction false} NoRanks(items: seq<Item>, neg: seq<real>, all: seq<Item>)
    ensures Ranks2(items + Items(neg, false), all) == Ranks2(items, all)
    decreases |neg|
  {
    if neg == [] {
      assert items + Items(neg, false) == items;
    } else {
      var init := neg[..|neg| - 1];
      NoRanks(items, init, all);
      assert items + Items(neg, false) == items + Items(init, false) + [Item(neg[|neg| - 1], false)];
      Ranks2Append(items + Items(init, false), Item(neg[|neg| - 1], false), all);
    }
  }

  /** Twice the rank sum is n(n + 1) over the yeses alone, and the pairs. */
  lemma RankSumIsPairs(pos: seq<real>, neg: seq<real>)
    ensures var all := Items(pos, true) + Items(neg, false);
            Ranks2(all, all) == |pos| * (|pos| + 1) + 2 * PairsAbove(pos, neg) + TiedPairs(pos, neg)
  {
    var all := Items(pos, true) + Items(neg, false);
    NoRanks(Items(pos, true), neg, all);
    YesRanks(pos, pos, neg);
    CrossSelf(pos);
    CrossIsPairs(pos, neg);
    assert |pos| * (|pos| + 1) == |pos| * |pos| + |pos|;
  }

  // ----- the loops -------------------------------------------------------------------------------

  lemma {:induction false} CountIs(xs: seq<real>, v: real, i: nat, j: nat)
    requires i <= j <= |xs|
    requires forall k :: 0 <= k < i ==> xs[k] < v
    requires forall k :: i <= k < j ==> xs[k] == v
    requires forall k :: j <= k < |xs| ==> xs[k] > v
    ensures Below(xs, v) == i && EqualTo(xs, v) == j - i
  {
    if xs != [] {
      var n := |xs| - 1;
      CountIs(xs[..n], v, Min(i, n), Min(j, n));
    }
  }

  lemma {:induction false} InOrder(items: seq<Item>, i: nat, j: nat)
    requires Ascending(items) && i <= j < |items|
    ensures items[i].score <= items[j].score
  {
    if i < j < |items| - 1 { InOrder(items[..|items| - 1], i, j); }
  }

  /** Whether a group of equal scores begins here. */
  predicate Boundary(items: seq<Item>, i: nat) {
    i == 0 || i >= |items| || items[i - 1].score < items[i].score
  }

  /** A group's average rank, doubled. */
  lemma GroupRank(items: seq<Item>, i: nat, j: nat)
    requires Ascending(items) && i < j <= |items| && Boundary(items, i) && Boundary(items, j)
    requires forall k :: i <= k < j ==> items[k].score == items[i].score
    ensures Rank2(items, items[i].score) == i + j + 1
  {
    var v := items[i].score;
    forall k | 0 <= k < i
      ensures items[k].score < v
    {
      InOrder(items, k, i - 1);
    }
    forall k | j <= k < |items|
      ensures items[k].score > v
    {
      InOrder(items, j, k);
      assert items[j - 1].score == v;
    }
    CountIs(Scores(items), v, i, j);
  }

  function Times(a: nat, b: nat): nat {
    a * b
  }

  lemma TimesNext(a: nat, b: nat)
    ensures Times(a + 1, b) == Times(a, b) + b
  {
  }

  /** The yeses of a group, and their share of the rank sum. */
  method GroupYeses(ranked: seq<Item>, i: nat, j: nat) returns (yes: nat)
    requires Ascending(ranked) && i < j <= |ranked| && Boundary(ranked, i) && Boundary(ranked, j)
    requires forall k :: i <= k < j ==> ranked[k].score == ranked[i].score
    ensures Ranks2(ranked[..j], ranked) == Ranks2(ranked[..i], ranked) + yes * (i + j + 1)
  {
    GroupRank(ranked, i, j);
    yes := 0;
    ghost var rank2, before := i + j + 1, Ranks2(ranked[..i], ranked);
    for k := i to j
      invariant Ranks2(ranked[..k], ranked) == before + Times(yes, rank2)
    {
      Ranks2Append(ranked[..k], ranked[k], ranked);
      assert ranked[..k + 1] == ranked[..k] + [ranked[k]];
      TimesNext(yes, rank2);
      if ranked[k].yes { yes := yes + 1; }
    }
  }

  method RankSum(ranked: seq<Item>) returns (rankSum: real)
    requires Ascending(ranked)
    ensures 2.0 * rankSum == Ranks2(ranked, ranked) as real
  {
    var i := 0;
    rankSum := 0.0;
    while i < |ranked|
      invariant 0 <= i <= |ranked| && Boundary(ranked, i)
      invariant 2.0 * rankSum == Ranks2(ranked[..i], ranked) as real
    {
      var j := i;
      while j < |ranked| && ranked[j].score == ranked[i].score
        invariant i <= j <= |ranked| && forall k :: i <= k < j ==> ranked[k].score == ranked[i].score
      {
        j := j + 1;
      }
      if j < |ranked| { InOrder(ranked, j - 1, j); }
      var yes := GroupYeses(ranked, i, j);
      rankSum := rankSum + (yes * (i + j + 1)) as real / 2.0;
      i := j;
    }
    assert ranked[..|ranked|] == ranked;
  }

  /**
   `auc` is the pairwise definition: the pairs of a yes above a no, and half the ties, over all pairs.
   With no yes or no no it divides by zero, here None.
   */
  method AucOf(pos: seq<real>, neg: seq<real>) returns (r: Option<real>)
    ensures r == if pos == [] || neg == [] then None else Some(Pairwise(pos, neg))
  {
    var items := Items(pos, true) + Items(neg, false);
    var ranked := Sort(items);
    SortAscends(items);
    var rankSum := RankSum(ranked);
    NoPairs(|pos|, |neg|);
    if |pos| * |neg| == 0 { return None; }
    var own := OwnRanks(|pos|);
    AboveIs(pos, neg, rankSum);
    var above := rankSum - own as real / 2.0;
    r := Some(above / (|pos| * |neg|) as real);
  }

  lemma NoPairs(p: nat, n: nat)
    ensures p * n == 0 <==> p == 0 || n == 0
  {
  }

  /** Twice the sum of the ranks 1 to `n`. */
  function Own2(n: nat): nat {
    if n == 0 then 0 else Own2(n - 1) + 2 * n
  }

  lemma {:induction false} Own2Is(n: nat)
    ensures Own2(n) == n * (n + 1)
  {
    if n > 0 {
      Own2Is(n - 1);
      assert n * (n + 1) == (n - 1) * n + 2 * n;
    }
  }

  method OwnRanks(n: nat) returns (own: nat)
    ensures own == Own2(n)
  {
    Own2Is(n);
    own := n * (n + 1);
  }

  lemma Ranks2Are(pos: seq<real>, neg: seq<real>)
    ensures var ranked := Sort(Items(pos, true) + Items(neg, false));
            Ranks2(ranked, ranked) == Own2(|pos|) + 2 * PairsAbove(pos, neg) + TiedPairs(pos, neg)
  {
    SortingKeepsRanks(Items(pos, true) + Items(neg, false));
    RankSumIsPairs(pos, neg);
    Own2Is(|pos|);
  }

  /** Less the ranks of the yeses among themselves, the rank sum is the pairs won, and half those tied. */
  lemma AboveIs(pos: seq<real>, neg: seq<real>, rankSum: real)
    requires var ranked := Sort(Items(pos, true) + Items(neg, false)); 2.0 * rankSum == Ranks2(ranked, ranked) as real
    ensures rankSum - Own2(|pos|) as real / 2.0 == PairsAbove(pos, neg) as real + TiedPairs(pos, neg) as real / 2.0
  {
    Ranks2Are(pos, neg);
    Halved(rankSum, Own2(|pos|), PairsAbove(pos, neg), TiedPairs(pos, neg));
  }

  lemma Halved(rankSum: real, base: nat, above: nat, ties: nat)
    requires 2.0 * rankSum == (base + 2 * above + ties) as real
    ensures rankSum - base as real / 2.0 == above as real + ties as real / 2.0
  {
  }
}
