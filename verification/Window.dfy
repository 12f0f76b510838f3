/**
 The tape's last minute (packages/explorer/lib/window.ts): movements kept by block time, and the figures
 read off them.
 */
module Window {
  import opened Common
  import opened Tape

  /** A movement kept, with its block's number and time. */
  datatype Held = Held(move: Move, n: nat, t: int)

  datatype Window = Window(span: int, moves: seq<Held>, newest: int, first: Option<int>, head: Option<int>)

  function NewWindow(span: int): Window {
    Window(span, [], 0, None, None)
  }

  function Tagged(b: Block): seq<Held> {
    seq(|b.moves|, i requires 0 <= i < |b.moves| => Held(b.moves[i], b.n, b.t))
  }

  /** What is past `floor`, from the first movement that is. */
  function DropOld(moves: seq<Held>, floor: int): seq<Held> {
    if moves != [] && moves[0].t <= floor then DropOld(moves[1..], floor) else moves
  }

  /** `add`. */
  function Add(w: Window, b: Block): Window {
    var newest := Max(w.newest, b.t);
    Window(w.span, DropOld(w.moves + Tagged(b), newest - w.span), newest,
           if w.first.Some? then w.first else Some(b.t),
           if b.moves == [] then w.head else Some(Max(if w.head.Some? then w.head.value else 0, b.t)))
  }

  function AddAll(w: Window, blocks: seq<Block>): Window {
    if blocks == [] then w else Add(AddAll(w, blocks[..|blocks| - 1]), blocks[|blocks| - 1])
  }

  // ----- the figures -----------------------------------------------------------------------------

  function Sum(moves: seq<Held>): nat {
    if moves == [] then 0 else Sum(moves[..|moves| - 1]) + moves[|moves| - 1].move.value
  }

  predicate HasLane(m: Held) {
    m.move.lane.Some? && m.move.lane.value != ""
  }

  function Counted(lanes: map<string, nat>, m: Held): map<string, nat> {
    if HasLane(m) then
      lanes[m.move.lane.value := (if m.move.lane.value in lanes then lanes[m.move.lane.value] else 0) + 1]
    else lanes
  }

  function Lanes(moves: seq<Held>): map<string, nat> {
    if moves == [] then map[] else Counted(Lanes(moves[..|moves| - 1]), moves[|moves| - 1])
  }

  function IndexOf(best: seq<Held>, tx: string): (i: Option<nat>)
    ensures i.Some? ==> i.value < |best| && best[i.value].move.tx == tx
    ensures i.None? ==> forall k :: 0 <= k < |best| ==> best[k].move.tx != tx
  {
    if best == [] then None
    else if best[|best| - 1].move.tx == tx then Some(|best| - 1)
    else IndexOf(best[..|best| - 1], tx)
  }

  function Bettered(best: seq<Held>, m: Held): seq<Held> {
    var i := IndexOf(best, m.move.tx);
    if i.None? then best + [m]
    else if m.move.value > best[i.value].move.value then best[i.value := m]
    else best
  }

  /** Each transaction's biggest movement, in the order the transactions first appear. */
  function PerTx(moves: seq<Held>): seq<Held> {
    if moves == [] then [] else Bettered(PerTx(moves[..|moves| - 1]), moves[|moves| - 1])
  }

  /** One movement more. */
  lemma Turn(moves: seq<Held>, i: nat)
    requires i < |moves|
    ensures Sum(moves[..i + 1]) == Sum(moves[..i]) + moves[i].move.value
    ensures Lanes(moves[..i + 1]) == Counted(Lanes(moves[..i]), moves[i])
    ensures PerTx(moves[..i + 1]) == Bettered(PerTx(moves[..i]), moves[i])
  {
    assert moves[..i + 1][..i] == moves[..i];
  }

  /** Inserted after everything at least as big. */
  function Insert(sorted: seq<Held>, m: Held): seq<Held> {
    if sorted != [] && sorted[|sorted| - 1].move.value < m.move.value
    then Insert(sorted[..|sorted| - 1], m) + [sorted[|sorted| - 1]]
    else sorted + [m]
  }

  /** A stable sort, biggest first. */
  function Sorted(moves: seq<Held>): seq<Held> {
    if moves == [] then [] else Insert(Sorted(moves[..|moves| - 1]), moves[|moves| - 1])
  }

  function Top(moves: seq<Held>): seq<Held> {
    moves[..Min(5, |moves|)]
  }

  function Listed(moves: seq<Held>): seq<Largest> {
    seq(|moves|, i requires 0 <= i < |moves| => Largest(moves[i].move, moves[i].n, moves[i].t))
  }

  function Spanned(w: Window): (span: int)
    ensures span >= 1
  {
    Max(1, Min(w.span, if w.first.None? then 1 else w.newest - w.first.value))
  }

  /** Movements a second, in tenths, rounded half up. */
  function Rate(count: nat, span: int): int
    requires span >= 1
  {
    (20 * count + span) / (2 * span)
  }

  function StatsOf(w: Window, now: int): Stats {
    Stats(|w.moves|, Sum(w.moves), Rate(|w.moves|, Spanned(w)), Lanes(w.moves),
          Listed(Top(Sorted(PerTx(w.moves)))), w.head, now)
  }

  /** The figures, put together from what one pass finds. */
  lemma StatsFrom(w: Window, now: int, sum: nat, lanes: map<string, nat>, perTx: seq<Held>, span: int)
    requires sum == Sum(w.moves) && lanes == Lanes(w.moves) && perTx == PerTx(w.moves) && span == Spanned(w)
    ensures Stats(|w.moves|, sum, Rate(|w.moves|, span), lanes, Listed(Top(Sorted(perTx))), w.head, now) == StatsOf(w, now)
  {
  }

  // ----- the recount -----------------------------------------------------------------------------

  /** Every movement of the blocks, in order. */
  function Moved(blocks: seq<Block>): seq<Held> {
    if blocks == [] then [] else Moved(blocks[..|blocks| - 1]) + Tagged(blocks[|blocks| - 1])
  }

  function NewestTime(blocks: seq<Block>): int {
    if blocks == [] then 0 else Max(NewestTime(blocks[..|blocks| - 1]), blocks[|blocks| - 1].t)
  }

  predicate Fresh(m: Held, newest: int, span: int) {
    m.t > newest - span
  }

  /** The movements newer than `newest` minus `span`. */
  function Recent(moves: seq<Held>, newest: int, span: int): seq<Held> {
    if moves == [] then []
    else
      var m := moves[|moves| - 1];
      Recent(moves[..|moves| - 1], newest, span) + if Fresh(m, newest, span) then [m] else []
  }

  /** Block times do not go down. */
  predicate InTime(blocks: seq<Block>) {
    blocks == [] ||
    (InTime(blocks[..|blocks| - 1]) && forall i :: 0 <= i < |blocks| - 1 ==> blocks[i].t <= blocks[|blocks| - 1].t)
  }

  predicate MovesInTime(moves: seq<Held>) {
    moves == [] ||
    (MovesInTime(moves[..|moves| - 1]) && forall i :: 0 <= i < |moves| - 1 ==> moves[i].t <= moves[|moves| - 1].t)
  }

  lemma {:induction false} RecentConcat(a: seq<Held>, b: seq<Held>, newest: int, span: int)
    ensures Recent(a + b, newest, span) == Recent(a, newest, span) + Recent(b, newest, span)
    decreases |b|
  {
    if b == [] {
      assert a + b == a;
    } else {
      assert (a + b)[..|a + b| - 1] == a + b[..|b| - 1];
      RecentConcat(a, b[..|b| - 1], newest, span);
    }
  }

  /** Forgetting twice is forgetting once, by the later time. */
  lemma {:induction false} RecentTwice(moves: seq<Held>, newest: int, later: int, span: int)
    requires newest <= later
    ensures Recent(Recent(moves, newest, span), later, span) == Recent(moves, later, span)
  {
    if moves != [] {
      var init, m := moves[..|moves| - 1], moves[|moves| - 1];
      RecentTwice(init, newest, later, span);
      RecentConcat(Recent(init, newest, span), if Fresh(m, newest, span) then [m] else [], later, span);
    }
  }

  /** Where times do not go down, dropping from the front is forgetting. */
  lemma {:induction false} DropOldIsRecent(moves: seq<Held>, newest: int, span: int)
    requires MovesInTime(moves)
    ensures DropOld(moves, newest - span) == Recent(moves, newest, span)
  {
    if moves != [] {
      var init, m := moves[..|moves| - 1], moves[|moves| - 1];
      DropOldIsRecent(init, newest, span);
      DropOldLast(init, m, newest - span);
      assert moves == init + [m];
    }
  }

  lemma {:induction false} DropOldLast(init: seq<Held>, m: Held, floor: int)
    requires forall i :: 0 <= i < |init| ==> init[i].t <= m.t
    ensures DropOld(init + [m], floor) == DropOld(init, floor) + if m.t > floor then [m] else []
    decreases |init|
  {
    if init == [] {
      assert init + [m] == [m];
    } else if init[0].t <= floor {
      assert (init + [m])[1..] == init[1..] + [m];
      DropOldLast(init[1..], m, floor);
    }
  }

  lemma {:induction false} RecentInTime(moves: seq<Held>, newest: int, span: int)
    requires MovesInTime(moves)
    ensures MovesInTime(Recent(moves, newest, span))
    ensures forall m :: m in Recent(moves, newest, span) ==> m in moves
  {
    if moves != [] {
      var init, last := moves[..|moves| - 1], moves[|moves| - 1];
      RecentInTime(init, newest, span);
      assert moves == init + [last];
      forall m | m in Recent(init, newest, span)
        ensures m.t <= last.t
      {
        var i :| 0 <= i < |init| && init[i] == m;
      }
      if Fresh(last, newest, span) {
        AppendInTime(Recent(init, newest, span), [last], last.t);
      } else {
        assert Recent(moves, newest, span) == Recent(init, newest, span);
      }
    }
  }

  lemma {:induction false} AppendInTime(a: seq<Held>, b: seq<Held>, t: int)
    requires MovesInTime(a) && (forall m :: m in a ==> m.t <= t) && forall m :: m in b ==> m.t == t
    ensures MovesInTime(a + b)
    decreases |b|
  {
    if b == [] {
      assert a + b == a;
    } else {
      var init, last := b[..|b| - 1], b[|b| - 1];
      assert forall m :: m in init ==> m in b;
      AppendInTime(a, init, t);
      assert (a + b)[..|a + b| - 1] == a + init && (a + b)[|a + b| - 1] == last;
      assert last in b;
      assert forall i :: 0 <= i < |a + init| ==> (a + init)[i] in a || (a + init)[i] in init;
    }
  }

  lemma {:induction false} MovedInTime(blocks: seq<Block>)
    requires InTime(blocks)
    ensures MovesInTime(Moved(blocks))
    ensures blocks != [] ==> forall m :: m in Moved(blocks) ==> m.t <= blocks[|blocks| - 1].t
    ensures blocks == [] ==> Moved(blocks) == []
  {
    if blocks != [] {
      var init, last := blocks[..|blocks| - 1], blocks[|blocks| - 1];
      MovedInTime(init);
      assert init != [] ==> init[|init| - 1].t <= last.t;
      AppendInTime(Moved(init), Tagged(last), last.t);
    }
  }

  /** The block time of the newest block that carried a movement. */
  function HeadTime(blocks: seq<Block>): Option<int> {
    if blocks == [] then None
    else
      var before, b := HeadTime(blocks[..|blocks| - 1]), blocks[|blocks| - 1];
      if b.moves == [] then before else Some(Max(if before.Some? then before.value else 0, b.t))
  }

  /** One more block, all of whose movements carry its time. */
  lemma RecountTurn(moves: seq<Held>, more: seq<Held>, newest: int, later: int, span: int, t: int)
    requires MovesInTime(moves) && newest <= later
    requires (forall m :: m in moves ==> m.t <= t) && forall m :: m in more ==> m.t == t
    ensures DropOld(Recent(moves, newest, span) + more, later - span) == Recent(moves + more, later, span)
  {
    RecentInTime(moves, newest, span);
    AppendInTime(Recent(moves, newest, span), more, t);
    DropOldIsRecent(Recent(moves, newest, span) + more, later, span);
    RecentConcat(Recent(moves, newest, span), more, later, span);
    RecentTwice(moves, newest, later, span);
    RecentConcat(moves, more, later, span);
  }

  lemma {:induction false} RecountNewest(span: int, blocks: seq<Block>)
    ensures AddAll(NewWindow(span), blocks).span == span && AddAll(NewWindow(span), blocks).newest == NewestTime(blocks)
  {
    if blocks != [] { RecountNewest(span, blocks[..|blocks| - 1]); }
  }

  lemma {:induction false} RecountHead(span: int, blocks: seq<Block>)
    ensures AddAll(NewWindow(span), blocks).head == HeadTime(blocks)
    ensures AddAll(NewWindow(span), blocks).first == if blocks == [] then None else Some(blocks[0].t)
  {
    if blocks != [] { RecountHead(span, blocks[..|blocks| - 1]); }
  }

  lemma AddDrops(w: Window, b: Block)
    ensures Add(w, b).moves == DropOld(w.moves + Tagged(b), Add(w, b).newest - w.span)
  {
  }

  lemma AddAllStep(w: Window, blocks: seq<Block>, init: seq<Block>, last: Block)
    requires blocks == init + [last]
    ensures AddAll(w, blocks) == Add(AddAll(w, init), last) && Moved(blocks) == Moved(init) + Tagged(last)
    ensures NewestTime(init) <= NewestTime(blocks)
  {
    assert blocks[..|blocks| - 1] == init;
  }

  lemma {:induction false} RecountMoves(w: Window, blocks: seq<Block>)
    requires InTime(blocks) && w == NewWindow(w.span)
    ensures AddAll(w, blocks).moves == Recent(Moved(blocks), NewestTime(blocks), w.span)
  {
    if blocks != [] {
      var init, last := blocks[..|blocks| - 1], blocks[|blocks| - 1];
      RecountMoves(w, init);
      RecountNewest(w.span, init);
      RecountNewest(w.span, blocks);
      AddAllStep(w, blocks, init, last);
      AddDrops(AddAll(w, init), last);
      BlockTurn(init, last, NewestTime(init), NewestTime(blocks), w.span);
    }
  }

  lemma BlockTurn(init: seq<Block>, last: Block, newest: int, later: int, span: int)
    requires InTime(init) && (forall i :: 0 <= i < |init| ==> init[i].t <= last.t) && newest <= later
    ensures DropOld(Recent(Moved(init), newest, span) + Tagged(last), later - span) == Recent(Moved(init) + Tagged(last), later, span)
  {
    MovedInTime(init);
    assert init != [] ==> init[|init| - 1].t <= last.t;
    RecountTurn(Moved(init), Tagged(last), newest, later, span, last.t);
  }

  /** After any blocks in time, the window holds exactly the movements of the whole history newer than newest minus span. */
  lemma Recount(span: int, blocks: seq<Block>)
    requires InTime(blocks)
    ensures var w := AddAll(NewWindow(span), blocks);
            && w.span == span && w.newest == NewestTime(blocks) && w.head == HeadTime(blocks)
            && w.first == (if blocks == [] then None else Some(blocks[0].t))
            && w.moves == Recent(Moved(blocks), NewestTime(blocks), span)
  {
    RecountNewest(span, blocks);
    RecountHead(span, blocks);
    RecountMoves(NewWindow(span), blocks);
  }

  // ----- the lane tally --------------------------------------------------------------------------

  function Tally(moves: seq<Held>, lane: string): nat {
    if moves == [] then 0
    else Tally(moves[..|moves| - 1], lane) + if moves[|moves| - 1].move.lane == Some(lane) then 1 else 0
  }

  /** Each lane's figure is its number of movements, and only lanes that occur have one. */
  lemma {:induction false} LanesTally(moves: seq<Held>, lane: string)
    ensures lane in Lanes(moves) <==> lane != "" && Tally(moves, lane) > 0
    ensures lane in Lanes(moves) ==> Lanes(moves)[lane] == Tally(moves, lane)
  {
    if moves != [] { LanesTally(moves[..|moves| - 1], lane); }
  }

  // ----- the largest -----------------------------------------------------------------------------

  predicate Distinct(list: seq<Held>) {
    list == [] ||
    (Distinct(list[..|list| - 1]) && forall i :: 0 <= i < |list| - 1 ==> list[i].move.tx != list[|list| - 1].move.tx)
  }

  predicate Descending(list: seq<Held>) {
    list == [] ||
    (Descending(list[..|list| - 1]) &&
     forall i :: 0 <= i < |list| - 1 ==> list[i].move.value >= list[|list| - 1].move.value)
  }

  /** The list has a movement of the same transaction that is at least as big. */
  ghost predicate Beaten(list: seq<Held>, m: Held) {
    exists i :: 0 <= i < |list| && list[i].move.tx == m.move.tx && list[i].move.value >= m.move.value
  }

  lemma {:induction false} DistinctUpdate(list: seq<Held>, i: nat, m: Held)
    requires Distinct(list) && i < |list| && list[i].move.tx == m.move.tx
    ensures Distinct(list[i := m])
  {
    var n := |list| - 1;
    if i < n {
      DistinctUpdate(list[..n], i, m);
      assert list[i := m][..n] == list[..n][i := m];
    } else {
      assert list[i := m][..n] == list[..n];
    }
  }

  lemma {:induction false} PerTxDistinct(moves: seq<Held>)
    ensures Distinct(PerTx(moves))
  {
    if moves != [] {
      var best, m := PerTx(moves[..|moves| - 1]), moves[|moves| - 1];
      PerTxDistinct(moves[..|moves| - 1]);
      var i := IndexOf(best, m.move.tx);
      if i.None? {
        assert (best + [m])[..|best|] == best;
      } else {
        DistinctUpdate(best, i.value, m);
      }
    }
  }

  lemma {:induction false} PerTxMembers(moves: seq<Held>)
    ensures forall i :: 0 <= i < |PerTx(moves)| ==> PerTx(moves)[i] in moves
  {
    if moves != [] {
      PerTxMembers(moves[..|moves| - 1]);
    }
  }

  /** What was beaten by the list stays beaten when it takes one more movement. */
  lemma BeatenStays(best: seq<Held>, m: Held, x: Held, i: Option<nat>)
    requires Beaten(best, x) && (i.Some? ==> i.value < |best| && best[i.value].move.tx == m.move.tx)
    ensures i.None? ==> Beaten(best + [m], x)
    ensures i.Some? && m.move.value > best[i.value].move.value ==> Beaten(best[i.value := m], x)
  {
    var k :| 0 <= k < |best| && best[k].move.tx == x.move.tx && best[k].move.value >= x.move.value;
    assert (best + [m])[k] == best[k];
    if i.Some? && m.move.value > best[i.value].move.value {
      assert best[i.value := m][k].move.tx == x.move.tx && best[i.value := m][k].move.value >= x.move.value;
    }
  }

  /** A movement is beaten once the list has taken it. */
  lemma BeatenTaken(best: seq<Held>, m: Held, i: Option<nat>)
    requires i.Some? ==> i.value < |best| && best[i.value].move.tx == m.move.tx
    ensures i.None? ==> Beaten(best + [m], m)
    ensures i.Some? ==> Beaten(if m.move.value > best[i.value].move.value then best[i.value := m] else best, m)
  {
    if i.None? {
      assert (best + [m])[|best|] == m;
    } else if m.move.value > best[i.value].move.value {
      assert best[i.value := m][i.value] == m;
    }
  }

  lemma {:induction false} PerTxBeats(moves: seq<Held>, x: Held)
    requires x in moves
    ensures Beaten(PerTx(moves), x)
  {
    var init, m := moves[..|moves| - 1], moves[|moves| - 1];
    var best := PerTx(init);
    var i := IndexOf(best, m.move.tx);
    BeatenTaken(best, m, i);
    if x != m {
      assert moves == init + [m];
      PerTxBeats(init, x);
      BeatenStays(best, m, x, i);
    }
  }

  /** One movement of each transaction, its biggest. */
  lemma PerTxIsBiggest(moves: seq<Held>)
    ensures Distinct(PerTx(moves))
    ensures forall m :: m in PerTx(moves) ==> m in moves
    ensures forall m :: m in moves ==> Beaten(PerTx(moves), m)
  {
    PerTxDistinct(moves);
    PerTxMembers(moves);
    forall m | m in moves
      ensures Beaten(PerTx(moves), m)
    {
      PerTxBeats(moves, m);
    }
  }

  lemma {:induction false} InsertMembers(list: seq<Held>, m: Held)
    ensures |Insert(list, m)| == |list| + 1
    ensures forall x :: x in Insert(list, m) <==> x in list || x == m
  {
    if list != [] && list[|list| - 1].move.value < m.move.value {
      var init, last := list[..|list| - 1], list[|list| - 1];
      InsertMembers(init, m);
      assert list == init + [last];
    }
  }

  lemma AppendDescending(list: seq<Held>, m: Held)
    requires Descending(list) && forall x :: x in list ==> x.move.value >= m.move.value
    ensures Descending(list + [m])
  {
    assert (list + [m])[..|list|] == list;
    assert forall i :: 0 <= i < |list| ==> list[i] in list;
  }

  lemma AppendDistinct(list: seq<Held>, m: Held)
    requires Distinct(list) && forall x :: x in list ==> x.move.tx != m.move.tx
    ensures Distinct(list + [m])
  {
    assert (list + [m])[..|list|] == list;
    assert forall i :: 0 <= i < |list| ==> list[i] in list;
  }

  lemma {:induction false} InsertDescends(list: seq<Held>, m: Held)
    requires Descending(list)
    ensures Descending(Insert(list, m))
  {
    if list != [] && list[|list| - 1].move.value < m.move.value {
      InsertDescends(list[..|list| - 1], m);
      InsertMembers(list[..|list| - 1], m);
      AppendDescending(Insert(list[..|list| - 1], m), list[|list| - 1]);
    } else {
      forall x | x in list
        ensures x.move.value >= m.move.value
      {
        var i :| 0 <= i < |list| && list[i] == x;
        DescendingAt(list, i, |list| - 1);
      }
      AppendDescending(list, m);
    }
  }

  lemma {:induction false} InsertDistinct(list: seq<Held>, m: Held)
    requires Distinct(list) && forall x :: x in list ==> x.move.tx != m.move.tx
    ensures Distinct(Insert(list, m))
  {
    if list != [] && list[|list| - 1].move.value < m.move.value {
      var init, last := list[..|list| - 1], list[|list| - 1];
      InsertDistinct(init, m);
      InsertMembers(init, m);
      forall x | x in Insert(init, m)
        ensures x.move.tx != last.move.tx
      {
        if x != m {
          var i :| 0 <= i < |init| && init[i] == x;
        } else {
          assert last in list;
        }
      }
      AppendDistinct(Insert(init, m), last);
    } else {
      AppendDistinct(list, m);
    }
  }

  lemma {:induction false} SortedMembers(list: seq<Held>)
    ensures |Sorted(list)| == |list| && forall x :: x in Sorted(list) <==> x in list
  {
    if list != [] {
      var init, last := list[..|list| - 1], list[|list| - 1];
      SortedMembers(init);
      InsertMembers(Sorted(init), last);
      assert list == init + [last];
    }
  }

  lemma {:induction false} SortedDescends(list: seq<Held>)
    ensures Descending(Sorted(list))
  {
    if list != [] {
      SortedDescends(list[..|list| - 1]);
      InsertDescends(Sorted(list[..|list| - 1]), list[|list| - 1]);
    }
  }

  lemma {:induction false} SortedDistinct(list: seq<Held>)
    requires Distinct(list)
    ensures Distinct(Sorted(list))
  {
    if list != [] {
      var init, last := list[..|list| - 1], list[|list| - 1];
      SortedDistinct(init);
      SortedMembers(init);
      forall x | x in Sorted(init)
        ensures x.move.tx != last.move.tx
      {
        var i :| 0 <= i < |init| && init[i] == x;
      }
      InsertDistinct(Sorted(init), last);
    }
  }

  lemma {:induction false} DescendingAt(list: seq<Held>, i: nat, j: nat)
    requires Descending(list) && i <= j < |list|
    ensures list[i].move.value >= list[j].move.value
  {
    if i < j < |list| - 1 { DescendingAt(list[..|list| - 1], i, j); }
  }

  lemma {:induction false} DistinctAt(list: seq<Held>, i: nat, j: nat)
    requires Distinct(list) && i < j < |list|
    ensures list[i].move.tx != list[j].move.tx
  {
    if j < |list| - 1 { DistinctAt(list[..|list| - 1], i, j); }
  }

  /** Listed by its biggest leg, or no bigger than any of a full list. */
  ghost predicate Ranked(top: seq<Held>, m: Held) {
    Beaten(top, m) || (|top| == 5 && forall i :: 0 <= i < |top| ==> top[i].move.value >= m.move.value)
  }

  lemma RankedInTop(best: seq<Held>, all: seq<Held>, m: Held)
    requires Beaten(best, m) && Descending(all) && forall x :: x in best ==> x in all
    ensures Ranked(Top(all), m)
  {
    var k :| 0 <= k < |best| && best[k].move.tx == m.move.tx && best[k].move.value >= m.move.value;
    assert best[k] in all;
    var i :| 0 <= i < |all| && all[i] == best[k];
    if i < |Top(all)| {
      assert Top(all)[i] == best[k];
    } else {
      forall j | 0 <= j < |Top(all)|
        ensures Top(all)[j].move.value >= m.move.value
      {
        DescendingAt(all, j, i);
      }
    }
  }

  /**
   The largest list, against all movements in the window: distinct transactions, each by its biggest leg,
   biggest first, five of them if there are, and no movement of an unlisted transaction is bigger.
   */
  lemma LargestIsLargest(moves: seq<Held>, top: seq<Held>)
    requires top == Top(Sorted(PerTx(moves)))
    ensures |top| <= 5 && forall i :: 0 <= i < |top| ==> top[i] in moves
    ensures forall i, j :: 0 <= i < j < |top| ==> top[i].move.tx != top[j].move.tx && top[i].move.value >= top[j].move.value
    ensures forall m :: m in moves ==> Ranked(top, m)
  {
    var best := PerTx(moves);
    PerTxIsBiggest(moves);
    SortedMembers(best);
    SortedDescends(best);
    SortedDistinct(best);
    TopInOrder(Sorted(best), top);
    TopAmong(moves, best, Sorted(best), top);
    forall m | m in moves
      ensures Ranked(top, m)
    {
      RankedInTop(best, Sorted(best), m);
    }
  }

  lemma TopAmong(moves: seq<Held>, best: seq<Held>, all: seq<Held>, top: seq<Held>)
    requires top == Top(all) && (forall x :: x in all ==> x in best) && forall x :: x in best ==> x in moves
    ensures forall i :: 0 <= i < |top| ==> top[i] in moves
  {
    forall i | 0 <= i < |top|
      ensures top[i] in moves
    {
      assert all[i] in all;
    }
  }

  lemma TopInOrder(all: seq<Held>, top: seq<Held>)
    requires top == Top(all) && Descending(all) && Distinct(all)
    ensures forall i, j :: 0 <= i < j < |top| ==> top[i].move.tx != top[j].move.tx && top[i].move.value >= top[j].move.value
  {
    forall i, j | 0 <= i < j < |top|
      ensures top[i].move.tx != top[j].move.tx && top[i].move.value >= top[j].move.value
    {
      DistinctAt(all, i, j);
      DescendingAt(all, i, j);
    }
  }

  /** The rate is the nearest tenth, halves up. */
  lemma RateRounds(count: nat, span: int)
    requires span >= 1
    ensures 2 * span * Rate(count, span) - span <= 20 * count < 2 * span * Rate(count, span) + span
  {
    var q, d := Rate(count, span), 2 * span;
    assert (20 * count + span) == q * d + (20 * count + span) % d;
    assert q * d == 2 * span * q;
  }

  /**
   The tenths of movements a second, rounded half up: over the window's span, or over what has been seen
   where that is shorter, and over a second at least.
   */
  predicate PerSecond(tenths: int, count: nat, span: int, seen: int) {
    var shorter := if seen < span then seen else span;
    var seconds := if shorter < 1 then 1 else shorter;
    2 * seconds * tenths - seconds <= 20 * count < 2 * seconds * tenths + seconds
  }

  /** Nobody's figures but the recount's: over any blocks in time, `stats` is read off the movements newer than newest minus span. */
  lemma StatsAreRecount(span: int, blocks: seq<Block>, now: int, recent: seq<Held>, stats: Stats) returns (top: seq<Held>)
    requires InTime(blocks) && recent == Recent(Moved(blocks), NewestTime(blocks), span)
    requires stats == StatsOf(AddAll(NewWindow(span), blocks), now)
    ensures stats.count == |recent| && stats.usdc == Sum(recent) && stats.headT == HeadTime(blocks)
    ensures forall lane :: lane in stats.lanes <==> lane != "" && Tally(recent, lane) > 0
    ensures forall lane :: lane in stats.lanes ==> stats.lanes[lane] == Tally(recent, lane)
    ensures stats.largest == Listed(top) && |top| <= 5 && forall i :: 0 <= i < |top| ==> top[i] in recent
    ensures forall i, j :: 0 <= i < j < |top| ==> top[i].move.tx != top[j].move.tx && top[i].move.value >= top[j].move.value
    ensures forall m :: m in recent ==> Ranked(top, m)
    ensures PerSecond(stats.perSec, |recent|, span, if blocks == [] then 1 else NewestTime(blocks) - blocks[0].t)
    ensures stats.now == now
  {
    Recount(span, blocks);
    RateRounds(|recent|, Spanned(AddAll(NewWindow(span), blocks)));
    top := Top(Sorted(PerTx(recent)));
    LargestIsLargest(recent, top);
    forall lane: string
      ensures lane in stats.lanes <==> lane != "" && Tally(recent, lane) > 0
      ensures lane in stats.lanes ==> stats.lanes[lane] == Tally(recent, lane)
    {
      LanesTally(recent, lane);
    }
  }
}
