/**
 Whose question a batch carries (radar/radar/server.py, `next_slots` and `rules_by_slot`): at most
 `MAX_RULES`, the longest unserved first.

 A slot is the name of a question, so equal questions share one. `names` are the slots of the viewers'
 questions, in the order the viewers asked; `served` holds when each slot was last carried. Times are only
 compared, so they are integers.
 */
module Rotation {
  import opened Common

  type Slot = string

  const MAX_RULES: nat := 8

  const NEVER := -1

  function Key(served: map<Slot, int>, slot: Slot): int {
    if slot in served then served[slot] else NEVER
  }

  /** Behind everything served no later. */
  function Insert(order: seq<Slot>, slot: Slot, served: map<Slot, int>): seq<Slot> {
    if order == [] || Key(served, order[|order| - 1]) <= Key(served, slot) then order + [slot]
    else Insert(order[..|order| - 1], slot, served) + [order[|order| - 1]]
  }

  /** Python's `sorted` by key, which keeps the order of equals. */
  function Sorted(slots: seq<Slot>, served: map<Slot, int>): seq<Slot> {
    if slots == [] then [] else Insert(Sorted(slots[..|slots| - 1], served), slots[|slots| - 1], served)
  }

  function Order(names: seq<Slot>, served: map<Slot, int>): seq<Slot> {
    Sorted(Unique(names), served)
  }

  function First(order: seq<Slot>, max: nat): seq<Slot> {
    order[..Min(max, |order|)]
  }

  /** `next_slots`. */
  function NextSlots(names: seq<Slot>, served: map<Slot, int>, max: nat): seq<Slot> {
    First(Order(names, served), max)
  }

  /** Slots nobody asks any more are forgotten. */
  function Pruned(names: seq<Slot>, served: map<Slot, int>): map<Slot, int> {
    map slot | slot in served && slot in names :: served[slot]
  }

  function Stamped(served: map<Slot, int>, chosen: seq<Slot>, now: int): map<Slot, int> {
    map slot | slot in served.Keys + (set s | s in chosen) :: if slot in chosen then now else served[slot]
  }

  /** `rules_by_slot`: the batch's slots, and when each was last served from then on. */
  function Turn(names: seq<Slot>, served: map<Slot, int>, now: int, max: nat): (seq<Slot>, map<Slot, int>) {
    var kept := Pruned(names, served);
    var chosen := NextSlots(names, kept, max);
    (chosen, Stamped(kept, chosen, now))
  }

  // ----- the order -------------------------------------------------------------------------------

  predicate NoRepeats(s: seq<Slot>) {
    s == [] || (s[|s| - 1] !in s[..|s| - 1] && NoRepeats(s[..|s| - 1]))
  }

  predicate Ascends(order: seq<Slot>, served: map<Slot, int>) {
    |order| <= 1 ||
    (Key(served, order[|order| - 2]) <= Key(served, order[|order| - 1]) && Ascends(order[..|order| - 1], served))
  }

  lemma {:induction false} UniqueOnce(names: seq<Slot>)
    ensures NoRepeats(Unique(names))
  {
    if names != [] {
      var before, last := Unique(names[..|names| - 1]), names[|names| - 1];
      UniqueOnce(names[..|names| - 1]);
      if last !in before { assert (before + [last])[..|before|] == before; }
    }
  }

  lemma {:induction false} InsertMembers(order: seq<Slot>, slot: Slot, served: map<Slot, int>)
    ensures |Insert(order, slot, served)| == |order| + 1
    ensures forall s :: s in Insert(order, slot, served) <==> s in order || s == slot
  {
    if order != [] {
      InsertMembers(order[..|order| - 1], slot, served);
      assert order == order[..|order| - 1] + [order[|order| - 1]];
    }
  }

  lemma {:induction false} InsertOnce(order: seq<Slot>, slot: Slot, served: map<Slot, int>)
    requires NoRepeats(order) && slot !in order
    ensures NoRepeats(Insert(order, slot, served))
  {
    if order == [] || Key(served, order[|order| - 1]) <= Key(served, slot) {
      assert (order + [slot])[..|order|] == order;
    } else {
      var init, last := order[..|order| - 1], order[|order| - 1];
      assert order == init + [last];
      InsertOnce(init, slot, served);
      InsertMembers(init, slot, served);
      assert (Insert(init, slot, served) + [last])[..|init| + 1] == Insert(init, slot, served);
    }
  }

  lemma {:induction false} InsertAscends(order: seq<Slot>, slot: Slot, served: map<Slot, int>)
    requires Ascends(order, served)
    ensures var after := Insert(order, slot, served);
            && Ascends(after, served) && after != []
            && (after[|after| - 1] == slot || (order != [] && after[|after| - 1] == order[|order| - 1]))
  {
    var after := Insert(order, slot, served);
    if order == [] || Key(served, order[|order| - 1]) <= Key(served, slot) {
      assert after[..|order|] == order;
    } else {
      var init, last := order[..|order| - 1], order[|order| - 1];
      InsertAscends(init, slot, served);
      assert after[..|after| - 1] == Insert(init, slot, served);
    }
  }

  /** The order holds each slot once, the longest unserved first. */
  lemma {:induction false} SortedOrder(slots: seq<Slot>, served: map<Slot, int>)
    requires NoRepeats(slots)
    ensures var order := Sorted(slots, served);
            Ascends(order, served) && NoRepeats(order) && |order| == |slots| && forall s :: s in order <==> s in slots
  {
    if slots != [] {
      var init, last := slots[..|slots| - 1], slots[|slots| - 1];
      SortedOrder(init, served);
      InsertMembers(Sorted(init, served), last, served);
      InsertOnce(Sorted(init, served), last, served);
      InsertAscends(Sorted(init, served), last, served);
      assert slots == init + [last];
    }
  }

  lemma OrderOfNames(names: seq<Slot>, served: map<Slot, int>)
    ensures var order := Order(names, served);
            Ascends(order, served) && NoRepeats(order) && forall s :: s in order <==> s in names
  {
    UniqueOnce(names);
    UniqueMembers(names);
    SortedOrder(Unique(names), served);
  }

  lemma {:induction false} AscendsTo(order: seq<Slot>, served: map<Slot, int>, i: nat, j: nat)
    requires Ascends(order, served) && i <= j < |order|
    ensures Key(served, order[i]) <= Key(served, order[j])
    decreases |order|
  {
    if j < |order| - 1 {
      AscendsTo(order[..|order| - 1], served, i, j);
    } else if i < j {
      AscendsTo(order[..|order| - 1], served, i, j - 1);
    }
  }

  function SetOf(s: seq<Slot>): set<Slot> {
    set x | x in s
  }

  lemma {:induction false} SetSize(s: seq<Slot>)
    requires NoRepeats(s)
    ensures |SetOf(s)| == |s|
  {
    if s != [] {
      var init, last := s[..|s| - 1], s[|s| - 1];
      SetSize(init);
      assert s == init + [last];
      assert SetOf(s) == SetOf(init) + {last};
    }
  }

  lemma {:induction false} SubsetIsSmaller(a: set<Slot>, b: set<Slot>)
    requires a <= b
    ensures |a| <= |b|
  {
    if x :| x in a { SubsetIsSmaller(a - {x}, b - {x}); }
  }

  lemma {:induction false} PrefixNoRepeats(s: seq<Slot>, k: nat)
    requires NoRepeats(s) && k <= |s|
    ensures NoRepeats(s[..k])
    decreases |s|
  {
    if k < |s| {
      PrefixNoRepeats(s[..|s| - 1], k);
      assert s[..|s| - 1][..k] == s[..k];
    } else {
      assert s[..k] == s;
    }
  }

  // ----- one batch -------------------------------------------------------------------------------

  /** The other live slots served no later than `q`: only they can be carried before it. */
  function Rivals(names: seq<Slot>, served: map<Slot, int>, q: Slot): set<Slot> {
    set s | s in names && s != q && Key(served, s) <= Key(served, q)
  }

  /** A batch carries live slots, each once: all of them, or as many as it may. */
  lemma BatchIsFull(names: seq<Slot>, served: map<Slot, int>, max: nat)
    ensures var chosen := NextSlots(names, served, max);
            && |chosen| == Min(max, |SetOf(names)|) && |SetOf(chosen)| == |chosen|
            && forall s :: s in chosen ==> s in names
  {
    var order := Order(names, served);
    OrderOfNames(names, served);
    SetSize(order);
    assert SetOf(order) == SetOf(names);
    PrefixNoRepeats(order, Min(max, |order|));
    SetSize(NextSlots(names, served, max));
  }

  lemma FirstHolds(order: seq<Slot>, max: nat, j: nat)
    requires j < |order|
    ensures j < max ==> order[j] in First(order, max)
    ensures forall s :: s in First(order, max) ==> s in order
  {
    if j < max { assert First(order, max)[j] == order[j]; }
  }

  /** A live slot left out leaves its place to rivals alone. */
  lemma LeftOut(names: seq<Slot>, served: map<Slot, int>, max: nat, q: Slot)
    requires q in names && q !in NextSlots(names, served, max)
    ensures var chosen := NextSlots(names, served, max);
            |chosen| == max && forall s :: s in chosen ==> s in Rivals(names, served, q)
  {
    var order, chosen := Order(names, served), NextSlots(names, served, max);
    OrderOfNames(names, served);
    var j :| 0 <= j < |order| && order[j] == q;
    FirstHolds(order, max, j);
    forall s | s in chosen
      ensures s in Rivals(names, served, q)
    {
      var i :| 0 <= i < |chosen| && chosen[i] == s;
      AscendsTo(order, served, i, j);
      assert order[i] in order;
    }
  }

  /** Forgetting the slots nobody asks changes nothing for those somebody does. */
  lemma {:induction false} InsertSees(order: seq<Slot>, slot: Slot, served: map<Slot, int>, other: map<Slot, int>)
    requires Key(served, slot) == Key(other, slot) && forall s :: s in order ==> Key(served, s) == Key(other, s)
    ensures Insert(order, slot, served) == Insert(order, slot, other)
  {
    if order != [] {
      assert order[|order| - 1] in order;
      InsertSees(order[..|order| - 1], slot, served, other);
    }
  }

  lemma {:induction false} SortedSees(slots: seq<Slot>, served: map<Slot, int>, other: map<Slot, int>)
    requires NoRepeats(slots) && forall s :: s in slots ==> Key(served, s) == Key(other, s)
    ensures Sorted(slots, served) == Sorted(slots, other)
  {
    if slots != [] {
      var init, last := slots[..|slots| - 1], slots[|slots| - 1];
      assert slots == init + [last];
      SortedSees(init, served, other);
      SortedOrder(init, served);
      InsertSees(Sorted(init, served), last, served, other);
    }
  }

  /** What a viewer is told before the batch is what the batch does: looking takes no turn. */
  lemma PeekIsTurn(names: seq<Slot>, served: map<Slot, int>, now: int, max: nat)
    ensures Turn(names, served, now, max).0 == NextSlots(names, served, max)
  {
    UniqueOnce(names);
    UniqueMembers(names);
    SortedSees(Unique(names), Pruned(names, served), served);
  }

  // ----- who is carried --------------------------------------------------------------------------

  predicate AskedFirst(slots: seq<Slot>, s: Slot, q: Slot) {
    slots != [] &&
    if slots[|slots| - 1] == q then s in slots[..|slots| - 1] else AskedFirst(slots[..|slots| - 1], s, q)
  }

  /** Served earlier, or equally early and asked first. */
  predicate Precedes(slots: seq<Slot>, served: map<Slot, int>, s: Slot, q: Slot) {
    Key(served, s) < Key(served, q) || (Key(served, s) == Key(served, q) && AskedFirst(slots, s, q))
  }

  lemma {:induction false} OneAskedFirst(slots: seq<Slot>, s: Slot, q: Slot)
    requires NoRepeats(slots) && s in slots && q in slots && s != q
    ensures AskedFirst(slots, s, q) <==> !AskedFirst(slots, q, s)
  {
    var init, last := slots[..|slots| - 1], slots[|slots| - 1];
    assert slots == init + [last];
    if last == q {
      NotAskedYet(init, q, s);
    } else if last == s {
      NotAskedYet(init, s, q);
    } else {
      OneAskedFirst(init, s, q);
    }
  }

  lemma {:induction false} NotAskedYet(slots: seq<Slot>, s: Slot, q: Slot)
    requires s !in slots
    ensures !AskedFirst(slots, s, q)
  {
    if slots != [] { NotAskedYet(slots[..|slots| - 1], s, q); }
  }

  /** A slot goes in after everything served no later than it, before the rest. */
  lemma {:induction false} InsertSplits(order: seq<Slot>, slot: Slot, served: map<Slot, int>) returns (p: nat)
    requires Ascends(order, served)
    ensures p <= |order| && Insert(order, slot, served) == order[..p] + [slot] + order[p..]
    ensures forall i :: 0 <= i < p ==> Key(served, order[i]) <= Key(served, slot)
    ensures forall i :: p <= i < |order| ==> Key(served, order[i]) > Key(served, slot)
  {
    if order == [] || Key(served, order[|order| - 1]) <= Key(served, slot) {
      p := |order|;
      forall i | 0 <= i < p
        ensures Key(served, order[i]) <= Key(served, slot)
      {
        AscendsTo(order, served, i, |order| - 1);
      }
    } else {
      p := InsertSplits(order[..|order| - 1], slot, served);
      assert order[..|order| - 1][p..] + [order[|order| - 1]] == order[p..];
    }
  }

  lemma AtInserted(order: seq<Slot>, slot: Slot, p: nat, after: seq<Slot>, i: nat)
    requires p <= |order| && after == order[..p] + [slot] + order[p..] && i < |after|
    ensures |after| == |order| + 1
    ensures after[i] == if i < p then order[i] else if i == p then slot else order[i - 1]
  {
  }

  lemma PrecedesStill(slots: seq<Slot>, served: map<Slot, int>, s: Slot, q: Slot)
    requires slots != [] && q != slots[|slots| - 1] && Precedes(slots[..|slots| - 1], served, s, q)
    ensures Precedes(slots, served, s, q)
  {
  }

  /** Each place precedes all later ones. */
  ghost predicate InTurn(order: seq<Slot>, slots: seq<Slot>, served: map<Slot, int>, i: nat, j: nat)
    requires i < j < |order|
  {
    Precedes(slots, served, order[i], order[j])
  }

  lemma BehindEarlier(slots: seq<Slot>, served: map<Slot, int>, s: Slot)
    requires slots != [] && s in slots[..|slots| - 1] && Key(served, s) <= Key(served, slots[|slots| - 1])
    ensures Precedes(slots, served, s, slots[|slots| - 1])
  {
  }

  lemma InsertedInTurn(order: seq<Slot>, slots: seq<Slot>, served: map<Slot, int>, after: seq<Slot>, p: nat, i: nat, j: nat)
    requires slots != [] && p <= |order| && after == order[..p] + [slots[|slots| - 1]] + order[p..] && i < j < |after|
    requires forall k :: 0 <= k < |order| ==> order[k] in slots[..|slots| - 1] && order[k] != slots[|slots| - 1]
    requires forall k :: 0 <= k < p ==> Key(served, order[k]) <= Key(served, slots[|slots| - 1])
    requires forall k :: p <= k < |order| ==> Key(served, order[k]) > Key(served, slots[|slots| - 1])
    requires i != p && j != p ==>
               InTurn(order, slots[..|slots| - 1], served, if i < p then i else i - 1, if j < p then j else j - 1)
    ensures InTurn(after, slots, served, i, j)
  {
    var last := slots[|slots| - 1];
    AtInserted(order, last, p, after, i);
    AtInserted(order, last, p, after, j);
    if j == p {
      BehindEarlier(slots, served, order[i]);
    } else if i != p {
      PrecedesStill(slots, served, after[i], after[j]);
    }
  }

  /** Equals keep the order they were asked in. */
  lemma {:induction false} SortedPrecedes(slots: seq<Slot>, served: map<Slot, int>, i: nat, j: nat)
    requires NoRepeats(slots) && i < j < |Sorted(slots, served)|
    ensures InTurn(Sorted(slots, served), slots, served, i, j)
  {
    if slots != [] {
      var init, last := slots[..|slots| - 1], slots[|slots| - 1];
      SortedOrder(init, served);
      var order := Sorted(init, served);
      var p := InsertSplits(order, last, served);
      assert forall k :: 0 <= k < |order| ==> order[k] in order;
      if i != p && j != p {
        SortedPrecedes(init, served, if i < p then i else i - 1, if j < p then j else j - 1);
      }
      InsertedInTurn(order, slots, served, Sorted(slots, served), p, i, j);
    }
  }

  /** The live slots that come before `q`. */
  function Ahead(names: seq<Slot>, served: map<Slot, int>, q: Slot): set<Slot> {
    set s | s in names && s != q && Precedes(Unique(names), served, s, q)
  }

  lemma AheadIsPrefix(names: seq<Slot>, served: map<Slot, int>, j: nat)
    requires j < |Order(names, served)|
    ensures Ahead(names, served, Order(names, served)[j]) == SetOf(Order(names, served)[..j])
  {
    var slots, order := Unique(names), Order(names, served);
    var q := order[j];
    UniqueOnce(names);
    UniqueMembers(names);
    OrderOfNames(names, served);
    assert q in order;
    FirstHolds(order, j, j);
    forall s
      ensures s in Ahead(names, served, q) <==> s in SetOf(order[..j])
    {
      if s in names && s != q {
        assert s in order;
        var i :| 0 <= i < |order| && order[i] == s;
        if i < j { SortedPrecedes(slots, served, i, j); } else { SortedPrecedes(slots, served, j, i); }
        OneAskedFirst(slots, s, q);
        if i < j { assert order[..j][i] == s; } else { LaterNotInPrefix(order, i, j); }
      } else if s == q {
        LaterNotInPrefix(order, j, j);
      }
    }
  }

  lemma {:induction false} LaterNotInPrefix(order: seq<Slot>, i: nat, j: nat)
    requires NoRepeats(order) && j <= i < |order|
    ensures order[i] !in order[..j]
    decreases |order|
  {
    if i < |order| - 1 {
      LaterNotInPrefix(order[..|order| - 1], i, j);
      assert order[..|order| - 1][..j] == order[..j];
    } else {
      forall x | x in order[..j]
        ensures x in order[..|order| - 1]
      {
        var k :| 0 <= k < j && order[k] == x;
        assert order[..|order| - 1][k] == x;
      }
    }
  }

  /** A live question is carried exactly when fewer than the limit come before it. */
  lemma CarriedExactly(names: seq<Slot>, served: map<Slot, int>, max: nat, q: Slot)
    requires q in names
    ensures q in NextSlots(names, served, max) <==> |Ahead(names, served, q)| < max
  {
    var order := Order(names, served);
    OrderOfNames(names, served);
    var j :| 0 <= j < |order| && order[j] == q;
    AheadIsPrefix(names, served, j);
    PrefixNoRepeats(order, j);
    SetSize(order[..j]);
    if j < max {
      assert First(order, max)[j] == q;
    } else {
      LaterNotInPrefix(order, j, Min(max, |order|));
    }
  }

  // ----- turns -----------------------------------------------------------------------------------

  /** One batch: the questions at the time, and the clock. */
  datatype Batch = Batch(names: seq<Slot>, now: int)

  /** The clock is past everything served. */
  ghost predicate StampedBefore(served: map<Slot, int>, now: int) {
    now > NEVER && forall s :: s in served ==> served[s] < now
  }

  /** The clock goes on from batch to batch. */
  ghost predicate Legal(served: map<Slot, int>, batches: seq<Batch>, max: nat)
    decreases |batches|
  {
    batches == [] ||
    (StampedBefore(served, batches[0].now) &&
     Legal(Turn(batches[0].names, served, batches[0].now, max).1, batches[1..], max))
  }

  /** The question is asked throughout, and no batch carries it. */
  ghost predicate Waits(served: map<Slot, int>, batches: seq<Batch>, max: nat, q: Slot)
    decreases |batches|
  {
    batches == [] ||
    (var turn := Turn(batches[0].names, served, batches[0].now, max);
     q in batches[0].names && q !in turn.0 && Waits(turn.1, batches[1..], max, q))
  }

  /** Slots asked in a batch and not in the one before. */
  function Newcomers(before: seq<Slot>, names: seq<Slot>): set<Slot> {
    set s | s in names && s !in before
  }

  /** How many newcomers there are, from batch to batch. */
  function Arrivals(batches: seq<Batch>): nat
    decreases |batches|
  {
    if |batches| <= 1 then 0 else |Newcomers(batches[0].names, batches[1].names)| + Arrivals(batches[1..])
  }

  lemma UnionIsSmaller(a: set<Slot>, b: set<Slot>, c: set<Slot>, d: set<Slot>)
    requires b <= a && c <= (a - b) + d
    ensures |c| + |b| <= |a| + |d|
  {
    SubsetIsSmaller(c, (a - b) + d);
    assert a == (a - b) + b && (a - b) !! b;
    assert |a| == |a - b| + |b|;
    assert |(a - b) + d| == |a - b| + |d| - |(a - b) * d|;
  }

  /** A batch that leaves `q` out takes as many rivals from it as it carries; only newcomers are new rivals. */
  lemma RivalsShrink(names: seq<Slot>, served: map<Slot, int>, now: int, max: nat, next: seq<Slot>, q: Slot)
    requires q in names && q in next && StampedBefore(served, now)
    requires q !in Turn(names, served, now, max).0
    ensures var served' := Turn(names, served, now, max).1;
            |Rivals(next, served', q)| + max <= |Rivals(names, served, q)| + |Newcomers(names, next)|
  {
    var (chosen, served') := Turn(names, served, now, max);
    PeekIsTurn(names, served, now, max);
    LeftOut(names, served, max, q);
    BatchIsFull(names, served, max);
    forall s | s in Rivals(next, served', q)
      ensures s in (Rivals(names, served, q) - SetOf(chosen)) + Newcomers(names, next)
    {
    }
    UnionIsSmaller(Rivals(names, served, q), SetOf(chosen), Rivals(next, served', q), Newcomers(names, next));
  }

  lemma OneMore(max: nat, k: nat)
    requires k >= 1
    ensures max * k == max * (k - 1) + max
  {
  }

  /** One batch left without. */
  lemma WaitsOnce(served: map<Slot, int>, b: Batch, max: nat, q: Slot)
    requires q in b.names && q !in Turn(b.names, served, b.now, max).0
    ensures max <= |Rivals(b.names, served, q)|
  {
    PeekIsTurn(b.names, served, b.now, max);
    LeftOut(b.names, served, max, q);
    BatchIsFull(b.names, served, max);
    SubsetIsSmaller(SetOf(NextSlots(b.names, served, max)), Rivals(b.names, served, q));
  }

  /** What `k` batches take. */
  predicate PaidFor(max: nat, k: nat, rivals: nat, arrivals: nat) {
    max * k <= rivals + arrivals
  }

  lemma OneMorePaid(max: nat, k: nat, rivals: nat, next: nat, newcomers: nat, arrivals: nat)
    requires k >= 1 && PaidFor(max, k - 1, next, arrivals) && next + max <= rivals + newcomers
    ensures PaidFor(max, k, rivals, newcomers + arrivals)
  {
    OneMore(max, k);
  }

  /**
   A question that stays asked waits through k batches only if enough others were served no later than it
   at the start, or have come in since, to fill them all.
   */
  lemma {:induction false} WaitingIsPaidFor(served: map<Slot, int>, batches: seq<Batch>, max: nat, q: Slot)
    requires batches != [] && Legal(served, batches, max) && Waits(served, batches, max, q)
    ensures PaidFor(max, |batches|, |Rivals(batches[0].names, served, q)|, Arrivals(batches))
    decreases |batches|
  {
    var b := batches[0];
    var served' := Turn(b.names, served, b.now, max).1;
    if |batches| == 1 {
      WaitsOnce(served, b, max, q);
    } else {
      WaitingIsPaidFor(served', batches[1..], max, q);
      RivalsShrink(b.names, served, b.now, max, batches[1].names, q);
      OneMorePaid(max, |batches|, |Rivals(b.names, served, q)|, |Rivals(batches[1].names, served', q)|,
                  |Newcomers(b.names, batches[1].names)|, Arrivals(batches[1..]));
    }
  }

  /** The same questions throughout: each is carried in any run of batches with as many places as questions. */
  lemma EveryoneIsAnswered(served: map<Slot, int>, batches: seq<Batch>, max: nat, q: Slot)
    requires batches != [] && Legal(served, batches, max) && q in batches[0].names
    requires forall i :: 0 <= i < |batches| ==> SetOf(batches[i].names) == SetOf(batches[0].names)
    requires max * |batches| >= |SetOf(batches[0].names)|
    ensures !Waits(served, batches, max, q)
  {
    if Waits(served, batches, max, q) {
      WaitingIsPaidFor(served, batches, max, q);
      NoArrivals(batches);
      var rivals, all := Rivals(batches[0].names, served, q), SetOf(batches[0].names);
      SubsetIsSmaller(rivals, all - {q});
    }
  }

  lemma {:induction false} NoArrivals(batches: seq<Batch>)
    requires forall i :: 0 <= i < |batches| ==> SetOf(batches[i].names) == SetOf(batches[0].names)
    ensures Arrivals(batches) == 0
    decreases |batches|
  {
    if |batches| > 1 {
      forall s
        ensures s !in Newcomers(batches[0].names, batches[1].names)
      {
        assert s in SetOf(batches[1].names) <==> s in SetOf(batches[0].names);
      }
      assert Newcomers(batches[0].names, batches[1].names) == {};
      NoArrivals(batches[1..]);
    }
  }

  /** Live slots no batch has carried. */
  function Unserved(names: seq<Slot>, served: map<Slot, int>): set<Slot> {
    set s | s in names && Key(served, s) <= NEVER
  }

  /** In every batch there are as many questions never yet carried as it has places. */
  ghost predicate Crowded(served: map<Slot, int>, batches: seq<Batch>, max: nat, q: Slot)
    decreases |batches|
  {
    batches == [] ||
    (var b := batches[0];
     && q in b.names && |Unserved(b.names, served)| >= max
     && Crowded(Turn(b.names, served, b.now, max).1, batches[1..], max, q))
  }

  lemma CrowdedOut(names: seq<Slot>, served: map<Slot, int>, now: int, max: nat, q: Slot)
    requires q in names && Key(served, q) > NEVER && |Unserved(names, served)| >= max
    ensures q !in Turn(names, served, now, max).0 && Key(Turn(names, served, now, max).1, q) == Key(served, q)
  {
    PeekIsTurn(names, served, now, max);
    CarriedExactly(names, served, max, q);
    SubsetIsSmaller(Unserved(names, served), Ahead(names, served, q));
  }

  /** Newcomers always go first, so a question carried once waits for as long as they fill the batches. */
  lemma {:induction false} NewcomersStarve(served: map<Slot, int>, batches: seq<Batch>, max: nat, q: Slot)
    requires Key(served, q) > NEVER && Crowded(served, batches, max, q)
    ensures Waits(served, batches, max, q)
    decreases |batches|
  {
    if batches != [] {
      CrowdedOut(batches[0].names, served, batches[0].now, max, q);
      NewcomersStarve(Turn(batches[0].names, served, batches[0].now, max).1, batches[1..], max, q);
    }
  }

  /** Before every batch, at least as many others come before `q` as the batch has places. */
  ghost predicate Outranked(served: map<Slot, int>, batches: seq<Batch>, max: nat, q: Slot)
    decreases |batches|
  {
    batches == [] ||
    (var b := batches[0];
     && q in b.names && |Ahead(b.names, served, q)| >= max
     && Outranked(Turn(b.names, served, b.now, max).1, batches[1..], max, q))
  }

  /** Over any run, exactly so: a question waits as long as each batch finds its places' worth of others ahead of it. */
  lemma {:induction false} WaitsExactly(served: map<Slot, int>, batches: seq<Batch>, max: nat, q: Slot)
    ensures Waits(served, batches, max, q) <==> Outranked(served, batches, max, q)
    decreases |batches|
  {
    if batches != [] {
      var b := batches[0];
      PeekIsTurn(b.names, served, b.now, max);
      if q in b.names { CarriedExactly(b.names, served, max, q); }
      WaitsExactly(Turn(b.names, served, b.now, max).1, batches[1..], max, q);
    }
  }

  // ----- a run that starves ----------------------------------------------------------------------

  /** Two lists of questions asked in turn, beside `q`. */
  function Alternating(a: seq<Slot>, b: seq<Slot>, q: Slot, now: int, n: nat): (batches: seq<Batch>)
    ensures |batches| == n
    decreases n
  {
    if n == 0 then [] else [Batch(a + [q], now)] + Alternating(b, a, q, now + 1, n - 1)
  }

  ghost predicate Apart(a: seq<Slot>, b: seq<Slot>, q: Slot, max: nat) {
    && NoRepeats(a) && NoRepeats(b) && |a| == |b| == max && q !in a && q !in b
    && (forall s :: s in a ==> s !in b) && forall s :: s in b ==> s !in a
  }

  /** `q` was carried before, and nothing of the list about to be asked is remembered. */
  ghost predicate Stale(served: map<Slot, int>, a: seq<Slot>, q: Slot) {
    q in served && served[q] > NEVER && forall s :: s in a ==> s !in served
  }

  /** After a batch only its own slots are remembered. */
  lemma TurnStamps(names: seq<Slot>, served: map<Slot, int>, now: int, max: nat)
    requires StampedBefore(served, now)
    ensures StampedBefore(Turn(names, served, now, max).1, now + 1)
    ensures forall s :: s in Turn(names, served, now, max).1 ==> s in names
  {
    BatchIsFull(names, Pruned(names, served), max);
  }

  /** A list that comes back was forgotten meanwhile, so it is as new. */
  lemma AlternateStep(served: map<Slot, int>, a: seq<Slot>, b: seq<Slot>, q: Slot, now: int, max: nat, names: seq<Slot>)
    requires Apart(a, b, q, max) && Stale(served, a, q) && StampedBefore(served, now) && names == a + [q]
    ensures |Unserved(names, served)| >= max
    ensures Stale(Turn(names, served, now, max).1, b, q)
  {
    SetSize(a);
    SubsetIsSmaller(SetOf(a), Unserved(names, served));
    CrowdedOut(names, served, now, max, q);
    TurnStamps(names, served, now, max);
  }

  /** One batch more, before a crowded run. */
  lemma CrowdedMore(served: map<Slot, int>, b: Batch, rest: seq<Batch>, batches: seq<Batch>, max: nat, q: Slot)
    requires batches == [b] + rest && StampedBefore(served, b.now) && q in b.names && |Unserved(b.names, served)| >= max
    requires var served' := Turn(b.names, served, b.now, max).1; Legal(served', rest, max) && Crowded(served', rest, max, q)
    ensures Legal(served, batches, max) && Crowded(served, batches, max, q)
  {
    assert batches[0] == b && batches[1..] == rest;
  }

  lemma AlternatingMore(a: seq<Slot>, b: seq<Slot>, q: Slot, now: int, n: nat, names: seq<Slot>, next: int)
    requires n > 0 && names == a + [q] && next == now + 1
    ensures Alternating(a, b, q, now, n) == [Batch(names, now)] + Alternating(b, a, q, next, n - 1)
  {
  }

  lemma {:induction false} AlternatingStarves(served: map<Slot, int>, a: seq<Slot>, b: seq<Slot>, q: Slot, now: int, n: nat,
                                              max: nat, batches: seq<Batch>)
    requires Apart(a, b, q, max) && Stale(served, a, q) && StampedBefore(served, now) && batches == Alternating(a, b, q, now, n)
    ensures Legal(served, batches, max) && Crowded(served, batches, max, q)
    decreases n
  {
    if n > 0 {
      var names, next, first := a + [q], now + 1, Batch(a + [q], now);
      var rest, served' := Alternating(b, a, q, next, n - 1), Turn(names, served, now, max).1;
      AlternatingMore(a, b, q, now, n, names, next);
      AlternateStep(served, a, b, q, now, max, names);
      TurnStamps(names, served, now, max);
      AlternatingStarves(served', b, a, q, next, n - 1, max, rest);
      CrowdedMore(served, first, rest, batches, max, q);
    }
  }

  /** The slots "c", "cc", and so on. */
  function Row(c: char, n: nat): (slots: seq<Slot>)
    ensures |slots| == n && forall i :: 0 <= i < n ==> |slots[i]| == i + 1 && slots[i][0] == c
  {
    if n == 0 then [] else Row(c, n - 1) + [seq(n, _ => c)]
  }

  lemma {:induction false} RowOnce(c: char, n: nat)
    ensures NoRepeats(Row(c, n))
  {
    if n > 0 {
      RowOnce(c, n - 1);
      assert Row(c, n)[..n - 1] == Row(c, n - 1);
    }
  }

  lemma RowsApart(a: seq<Slot>, b: seq<Slot>, q: Slot, max: nat)
    requires a == Row('a', max) && b == Row('b', max) && q == ""
    ensures Apart(a, b, q, max)
  {
    RowOnce('a', max);
    RowOnce('b', max);
  }

  /** Asked alone, a question is carried. */
  lemma AloneIsCarried(q: Slot, names: seq<Slot>, none: map<Slot, int>, now: int, max: nat)
    requires max > 0 && names == [q] && none == map[] && now > NEVER
    ensures var turn := Turn(names, none, now, max);
            q in turn.0 && Key(turn.1, q) == now && StampedBefore(turn.1, now + 1) && forall s :: s in turn.1 ==> s == q
  {
    PeekIsTurn(names, none, now, max);
    CarriedExactly(names, none, max, q);
    assert Ahead(names, none, q) == {};
    TurnStamps(names, none, now, max);
  }

  /**
   So there is a run of any length: a question carried by the first batch of all is in none of the `n`
   that follow, although it is asked throughout and only two sets of others take turns beside it.
   */
  lemma CarriedOnceNeverAgain(max: nat, n: nat, none: map<Slot, int>) returns (q: Slot, first: Batch, rest: seq<Batch>)
    requires max > 0 && none == map[]
    ensures |rest| == n && Legal(none, [first] + rest, max)
    ensures var turn := Turn(first.names, none, first.now, max);
            q in turn.0 && Crowded(turn.1, rest, max, q) && Waits(turn.1, rest, max, q)
  {
    var a, b, now := Row('a', max), Row('b', max), 0;
    q := "";
    first, rest := Batch([q], now), Alternating(a, b, q, now + 1, n);
    RowsApart(a, b, q, max);
    var served := Turn(first.names, none, now, max).1;
    AloneIsCarried(q, first.names, none, now, max);
    AlternatingStarves(served, a, b, q, now + 1, n, max, rest);
    NewcomersStarve(served, rest, max, q);
    assert ([first] + rest)[0] == first && ([first] + rest)[1..] == rest;
  }
}
