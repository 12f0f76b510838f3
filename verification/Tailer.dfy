/**
 The live tape's reader (packages/explorer/lib/tailer.ts): every cycle reads the worker's cursors, decides
 how far to release, and reads, publishes and counts the released blocks' movements.

 The chain of movements is final, so it is one list of blocks, past and future; lanes come later, so the
 chain's movements carry none. A cycle receives what its queries answer as a value, None where one throws.
 */
module Tailer {
  import opened Common
  import opened Tape
  import opened Release
  import H = Hub

  const CATCHUP := 150

  /** The widest gap a tailer follows without skipping ahead, and the row limit of its reads; 600 and 50000 by default. */
  datatype Limits = Limits(maxGap: int, maxRows: nat)

  const DEFAULTS := Limits(600, 50000)

  /** A skip lands past what was released. */
  ghost predicate ValidLimits(l: Limits) {
    l.maxGap >= CATCHUP
  }

  lemma DefaultsAreValid()
    ensures ValidLimits(DEFAULTS)
  {
  }

  /** A row of the movements query. */
  datatype Row = Row(n: nat, t: int, move: Move)

  /** The reading of one cycle: the target query, the one after a rewind, and the movements. */
  datatype Reading = Reading(target: Option<Input>, again: Option<Input>, rows: Option<seq<Row>>)

  /** What a cycle hands the hub. */
  datatype Sent = Quiet | Reseeded(blocks: seq<Block>, to: int) | Published(blocks: seq<Block>)

  /**
   `window` is every block added to the present rolling window. `tape`, `base` and `whole` are history:
   the blocks since the last reload, the number they start after, and whether no read hit the row limit.
   */
  datatype Tailer = Tailer(lastReleased: Option<int>, window: seq<Block>, base: int, tape: seq<Block>, whole: bool)

  const START := Tailer(None, [], 0, [], true)

  /** One row joins the block being grouped, or begins the next. */
  function Joined(blocks: seq<Block>, r: Row): seq<Block> {
    if blocks != [] && blocks[|blocks| - 1].n == r.n then
      var b := blocks[|blocks| - 1];
      blocks[..|blocks| - 1] + [b.(moves := b.moves + [r.move])]
    else blocks + [Block(r.n, r.t, [r.move])]
  }

  /** `#group`. */
  function Group(rows: seq<Row>): seq<Block> {
    if rows == [] then [] else Joined(Group(rows[..|rows| - 1]), rows[|rows| - 1])
  }

  function Reseed(l: Limits, t: Tailer, to: int, rows: Option<seq<Row>>): (Tailer, Sent) {
    if rows.None? then (t, Quiet)
    else
      var blocks := Group(rows.value);
      (Tailer(Some(to), t.window + blocks, to - CATCHUP, blocks, |rows.value| < l.maxRows), Reseeded(blocks, to))
  }

  /** `init`. */
  function Init(l: Limits, t: Tailer, target: Option<Input>, rows: Option<seq<Row>>): (Tailer, Sent) {
    if target.None? then (t, Quiet)
    else
      var to := ReleaseTo(target.value);
      if to.None? || to.value < 0 then (t, Quiet) else Reseed(l, t, to.value, rows)
  }

  function Publish(l: Limits, t: Tailer, to: int, rows: Option<seq<Row>>): (Tailer, Sent) {
    if rows.None? then (t, Quiet)
    else
      var blocks := Group(rows.value);
      (t.(lastReleased := Some(to), window := t.window + blocks, tape := t.tape + blocks,
          whole := t.whole && |rows.value| < l.maxRows), Published(blocks))
  }

  /** The cursor read lies further behind the last release than any gap the tailer follows. */
  predicate Rewound(l: Limits, t: Tailer, i: Input) {
    t.lastReleased.Some? && i.cursor.Some? && i.cursor.value < t.lastReleased.value - l.maxGap
  }

  /** `cycle`. */
  function Cycle(l: Limits, t: Tailer, r: Reading): (Tailer, Sent) {
    if t.lastReleased.None? then Init(l, t, r.target, r.rows)
    else if r.target.None? then (t, Quiet)
    else
      var to, last := ReleaseTo(r.target.value), t.lastReleased.value;
      if to.None? then (t, Quiet)
      else if Rewound(l, t, r.target.value) then Init(l, t.(window := [], lastReleased := None), r.again, r.rows)
      else if to.value <= last then (t, Quiet)
      else if to.value - last > l.maxGap then Reseed(l, t, to.value, r.rows)
      else Publish(l, t, to.value, r.rows)
  }

  /** The range whose movements a cycle reads, (from, to], if it gets that far. */
  function Range(l: Limits, t: Tailer, r: Reading): Option<(int, int)> {
    if r.target.None? then None
    else
      var to := ReleaseTo(r.target.value);
      if to.None? then None
      else if t.lastReleased.None? then if to.value < 0 then None else Some((to.value - CATCHUP, to.value))
      else if Rewound(l, t, r.target.value) then
        if r.again.None? then None
        else
          var to2 := ReleaseTo(r.again.value);
          if to2.None? || to2.value < 0 then None else Some((to2.value - CATCHUP, to2.value))
      else if to.value <= t.lastReleased.value then None
      else if to.value - t.lastReleased.value > l.maxGap then Some((to.value - CATCHUP, to.value))
      else Some((t.lastReleased.value, to.value))
  }

  // ----- what the database answers ---------------------------------------------------------------

  function RowsOfBlock(b: Block): seq<Row> {
    seq(|b.moves|, i requires 0 <= i < |b.moves| => Row(b.n, b.t, b.moves[i]))
  }

  function RowsOf(blocks: seq<Block>): seq<Row> {
    if blocks == [] then [] else RowsOf(blocks[..|blocks| - 1]) + RowsOfBlock(blocks[|blocks| - 1])
  }

  /** The blocks numbered in (lo, hi]. */
  function Between(chain: seq<Block>, lo: int, hi: int): seq<Block> {
    if chain == [] then []
    else
      var last := chain[|chain| - 1];
      Between(chain[..|chain| - 1], lo, hi) + if lo < last.n <= hi then [last] else []
  }

  function BareRow(r: Row): Row {
    r.(move := r.move.(lane := None))
  }

  /** The rows without their lanes. */
  function Bare(rows: seq<Row>): seq<Row> {
    seq(|rows|, i requires 0 <= i < |rows| => BareRow(rows[i]))
  }

  function BareBlock(b: Block): Block {
    b.(moves := seq(|b.moves|, i requires 0 <= i < |b.moves| => b.moves[i].(lane := None)))
  }

  function BareBlocks(blocks: seq<Block>): seq<Block> {
    seq(|blocks|, i requires 0 <= i < |blocks| => BareBlock(blocks[i]))
  }

  /** Blocks in order, each with a movement. */
  ghost predicate ValidChain(chain: seq<Block>) {
    Increasing(chain) && forall i :: 0 <= i < |chain| ==> chain[i].moves != []
  }

  /** The movements query answers the range's movements in block and log order, up to its row limit. */
  ghost predicate Read(l: Limits, chain: seq<Block>, lo: int, hi: int, rows: seq<Row>) {
    |rows| <= l.maxRows && Bare(rows) <= RowsOf(Between(chain, lo, hi)) &&
    (|rows| < l.maxRows ==> Bare(rows) == RowsOf(Between(chain, lo, hi)))
  }

  ghost predicate Honest(l: Limits, chain: seq<Block>, t: Tailer, r: Reading) {
    Range(l, t, r).Some? && r.rows.Some? ==> Read(l, chain, Range(l, t, r).value.0, Range(l, t, r).value.1, r.rows.value)
  }

  // ----- grouping --------------------------------------------------------------------------------

  /** Rows by block, all in (lo, hi]. */
  predicate RowsInOrder(rows: seq<Row>, lo: int, hi: int) {
    rows == [] ||
    (RowsInOrder(rows[..|rows| - 1], lo, hi) && lo < rows[|rows| - 1].n <= hi &&
     (|rows| > 1 ==> rows[|rows| - 2].n <= rows[|rows| - 1].n))
  }

  predicate Within(blocks: seq<Block>, lo: int, hi: int) {
    Increasing(blocks) && forall i :: 0 <= i < |blocks| ==> lo < blocks[i].n <= hi
  }

  lemma AppendIncreases(blocks: seq<Block>, b: Block)
    requires Increasing(blocks) && (blocks == [] || blocks[|blocks| - 1].n < b.n)
    ensures Increasing(blocks + [b])
  {
    assert (blocks + [b])[..|blocks|] == blocks;
    forall i | 0 <= i < |blocks|
      ensures blocks[i].n < b.n
    {
      if i < |blocks| - 1 { InOrder(blocks, i, |blocks| - 1); }
    }
  }

  lemma LastIncreases(blocks: seq<Block>, b: Block)
    requires Increasing(blocks) && blocks != [] && b.n == blocks[|blocks| - 1].n
    ensures Increasing(blocks[..|blocks| - 1] + [b])
  {
    var init := blocks[..|blocks| - 1];
    assert init != [] ==> init[|init| - 1].n < b.n;
    AppendIncreases(init, b);
  }

  lemma JoinedInOrder(blocks: seq<Block>, r: Row, lo: int, hi: int)
    requires Within(blocks, lo, hi) && lo < r.n <= hi && (blocks == [] || blocks[|blocks| - 1].n <= r.n)
    ensures Within(Joined(blocks, r), lo, hi)
    ensures var g := Joined(blocks, r); g != [] && g[|g| - 1].n == r.n
  {
    if blocks != [] && blocks[|blocks| - 1].n == r.n {
      var b := blocks[|blocks| - 1];
      LastIncreases(blocks, b.(moves := b.moves + [r.move]));
    } else {
      AppendIncreases(blocks, Block(r.n, r.t, [r.move]));
    }
  }

  /** Whatever the row limit cut off, what is grouped is in order and in range. */
  lemma {:induction false} GroupInOrder(rows: seq<Row>, lo: int, hi: int)
    requires RowsInOrder(rows, lo, hi)
    ensures Within(Group(rows), lo, hi)
    ensures rows != [] ==> Group(rows) != [] && Group(rows)[|Group(rows)| - 1].n == rows[|rows| - 1].n
    ensures rows == [] ==> Group(rows) == []
  {
    if rows != [] {
      var init, r := rows[..|rows| - 1], rows[|rows| - 1];
      GroupInOrder(init, lo, hi);
      JoinedInOrder(Group(init), r, lo, hi);
    }
  }

  lemma GroupStep(rows: seq<Row>, init: seq<Row>, r: Row)
    requires rows == init + [r]
    ensures Group(rows) == Joined(Group(init), r)
  {
    assert rows[..|rows| - 1] == init;
  }

  lemma JoinedLast(blocks: seq<Block>, b: Block, r: Row)
    requires r.n == b.n
    ensures Joined(blocks + [b], r) == blocks + [b.(moves := b.moves + [r.move])]
  {
    assert (blocks + [b])[..|blocks|] == blocks;
  }

  /** The blocks with the first `k` movements of the next. */
  function Partly(blocks: seq<Block>, b: Block, k: nat): seq<Block>
    requires k <= |b.moves|
  {
    if k == 0 then blocks else blocks + [b.(moves := b.moves[..k])]
  }

  lemma JoinedPartly(blocks: seq<Block>, b: Block, k: nat)
    requires k < |b.moves| && (blocks == [] || blocks[|blocks| - 1].n < b.n)
    ensures Joined(Partly(blocks, b, k), Row(b.n, b.t, b.moves[k])) == Partly(blocks, b, k + 1)
  {
    assert b.moves[..k + 1] == b.moves[..k] + [b.moves[k]];
    if k > 0 {
      JoinedLast(blocks, b.(moves := b.moves[..k]), Row(b.n, b.t, b.moves[k]));
    } else {
      assert b.moves[..k + 1] == [b.moves[k]];
    }
  }

  function JoinedAll(blocks: seq<Block>, rows: seq<Row>): seq<Block> {
    if rows == [] then blocks else Joined(JoinedAll(blocks, rows[..|rows| - 1]), rows[|rows| - 1])
  }

  lemma {:induction false} GroupConcat(a: seq<Row>, b: seq<Row>)
    ensures Group(a + b) == JoinedAll(Group(a), b)
    decreases |b|
  {
    if b == [] {
      assert a + b == a;
    } else {
      GroupConcat(a, b[..|b| - 1]);
      assert a + b == a + b[..|b| - 1] + [b[|b| - 1]];
      GroupStep(a + b, a + b[..|b| - 1], b[|b| - 1]);
    }
  }

  lemma {:induction false} JoinedBlock(blocks: seq<Block>, b: Block, rows: seq<Row>)
    requires rows <= RowsOfBlock(b) && (blocks == [] || blocks[|blocks| - 1].n < b.n)
    ensures JoinedAll(blocks, rows) == Partly(blocks, b, |rows|)
  {
    if rows != [] {
      JoinedBlock(blocks, b, rows[..|rows| - 1]);
      JoinedPartly(blocks, b, |rows| - 1);
    }
  }

  lemma GroupNext(blocks: seq<Block>, rows: seq<Row>, b: Block)
    requires Group(rows) == blocks && b.moves != [] && (blocks == [] || blocks[|blocks| - 1].n < b.n)
    ensures Group(rows + RowsOfBlock(b)) == blocks + [b]
  {
    GroupConcat(rows, RowsOfBlock(b));
    JoinedBlock(blocks, b, RowsOfBlock(b));
    PartlyAll(blocks, b);
  }

  lemma ChainStep(blocks: seq<Block>)
    requires ValidChain(blocks) && blocks != []
    ensures var init, b := blocks[..|blocks| - 1], blocks[|blocks| - 1];
            && blocks == init + [b] && ValidChain(init) && b.moves != [] && (init == [] || init[|init| - 1].n < b.n)
            && RowsOf(blocks) == RowsOf(init) + RowsOfBlock(b)
  {
  }

  /** Grouping the rows of blocks gives the blocks back. */
  lemma {:induction false} GroupOfRows(blocks: seq<Block>)
    requires ValidChain(blocks)
    ensures Group(RowsOf(blocks)) == blocks
  {
    if blocks != [] {
      var init, b := blocks[..|blocks| - 1], blocks[|blocks| - 1];
      ChainStep(blocks);
      GroupOfRows(init);
      GroupNext(init, RowsOf(init), b);
    }
  }

  lemma PartlyAll(blocks: seq<Block>, b: Block)
    requires b.moves != []
    ensures Partly(blocks, b, |b.moves|) == blocks + [b]
  {
    assert b.moves[..|b.moves|] == b.moves;
  }

  /** Lanes do not matter to the grouping. */
  lemma {:induction false} GroupBare(rows: seq<Row>)
    ensures BareBlocks(Group(rows)) == Group(Bare(rows))
  {
    if rows != [] {
      var init, r := rows[..|rows| - 1], rows[|rows| - 1];
      GroupBare(init);
      assert Bare(rows)[..|rows| - 1] == Bare(init) && Bare(rows)[|rows| - 1] == BareRow(r);
      JoinedBare(Group(init), r);
    }
  }

  lemma BareAppend(blocks: seq<Block>, b: Block)
    ensures BareBlocks(blocks + [b]) == BareBlocks(blocks) + [BareBlock(b)]
  {
  }

  lemma JoinedBare(blocks: seq<Block>, r: Row)
    ensures BareBlocks(Joined(blocks, r)) == Joined(BareBlocks(blocks), BareRow(r))
  {
    if blocks != [] && blocks[|blocks| - 1].n == r.n {
      var init, b := blocks[..|blocks| - 1], blocks[|blocks| - 1];
      assert blocks == init + [b];
      assert BareBlock(b.(moves := b.moves + [r.move])) == BareBlock(b).(moves := BareBlock(b).moves + [BareRow(r).move]);
      JoinedLast(init, b, r);
      BareAppend(init, b.(moves := b.moves + [r.move]));
      BareAppend(init, b);
      JoinedLast(BareBlocks(init), BareBlock(b), BareRow(r));
    } else {
      var b := Block(r.n, r.t, [r.move]);
      assert BareBlock(b) == Block(r.n, r.t, [BareRow(r).move]);
      BareAppend(blocks, b);
    }
  }

  // ----- ranges of the chain ---------------------------------------------------------------------

  lemma {:induction false} BetweenMembers(chain: seq<Block>, lo: int, hi: int)
    ensures forall b :: b in Between(chain, lo, hi) ==> b in chain && lo < b.n <= hi
  {
    if chain != [] {
      BetweenMembers(chain[..|chain| - 1], lo, hi);
    }
  }

  lemma {:induction false} BetweenIncreases(chain: seq<Block>, lo: int, hi: int)
    requires Increasing(chain)
    ensures Increasing(Between(chain, lo, hi))
  {
    if chain != [] {
      var init, last := chain[..|chain| - 1], chain[|chain| - 1];
      var kept := Between(init, lo, hi);
      BetweenIncreases(init, lo, hi);
      if lo < last.n <= hi {
        BetweenMembers(init, lo, hi);
        assert kept != [] ==> kept[|kept| - 1] in init;
        AppendIncreases(kept, last);
      } else {
        assert Between(chain, lo, hi) == kept;
      }
    }
  }

  lemma BetweenIsWithin(chain: seq<Block>, lo: int, hi: int)
    requires Increasing(chain)
    ensures Within(Between(chain, lo, hi), lo, hi)
  {
    BetweenIncreases(chain, lo, hi);
    BetweenMembers(chain, lo, hi);
  }

  lemma BetweenIsValid(chain: seq<Block>, lo: int, hi: int)
    requires ValidChain(chain)
    ensures ValidChain(Between(chain, lo, hi))
  {
    BetweenIncreases(chain, lo, hi);
    BetweenMembers(chain, lo, hi);
    var kept := Between(chain, lo, hi);
    forall i | 0 <= i < |kept|
      ensures kept[i].moves != []
    {
      assert kept[i] in chain;
    }
  }

  lemma {:induction false} BetweenNone(chain: seq<Block>, lo: int, hi: int)
    requires forall i :: 0 <= i < |chain| ==> chain[i].n <= lo
    ensures Between(chain, lo, hi) == []
  {
    if chain != [] { BetweenNone(chain[..|chain| - 1], lo, hi); }
  }

  lemma {:induction false} BetweenJoins(chain: seq<Block>, lo: int, mid: int, hi: int)
    requires Increasing(chain) && lo <= mid <= hi
    ensures Between(chain, lo, mid) + Between(chain, mid, hi) == Between(chain, lo, hi)
  {
    if chain != [] {
      var init, last := chain[..|chain| - 1], chain[|chain| - 1];
      BetweenJoins(init, lo, mid, hi);
      if lo < last.n <= mid {
        BetweenNone(init, mid, hi);
        assert Between(chain, lo, mid) + [] == Between(chain, lo, mid);
      }
    }
  }

  lemma {:induction false} RowsInOrderConcat(rows: seq<Row>, b: Block, k: nat, lo: int, hi: int)
    requires RowsInOrder(rows, lo, hi) && lo < b.n <= hi && k <= |b.moves|
    requires rows == [] || rows[|rows| - 1].n <= b.n
    ensures RowsInOrder(rows + RowsOfBlock(b)[..k], lo, hi)
    decreases k
  {
    var all := rows + RowsOfBlock(b)[..k];
    if k == 0 {
      assert all == rows;
    } else {
      RowsInOrderConcat(rows, b, k - 1, lo, hi);
      assert all[..|all| - 1] == rows + RowsOfBlock(b)[..k - 1];
    }
  }

  lemma {:induction false} RowsOfInOrder(blocks: seq<Block>, lo: int, hi: int)
    requires Within(blocks, lo, hi)
    ensures RowsInOrder(RowsOf(blocks), lo, hi)
    ensures RowsOf(blocks) != [] ==> blocks != [] && RowsOf(blocks)[|RowsOf(blocks)| - 1].n <= blocks[|blocks| - 1].n
  {
    if blocks != [] {
      var init, b := blocks[..|blocks| - 1], blocks[|blocks| - 1];
      RowsOfInOrder(init, lo, hi);
      assert init != [] ==> init[|init| - 1].n < b.n;
      RowsInOrderConcat(RowsOf(init), b, |b.moves|, lo, hi);
      assert RowsOfBlock(b)[..|b.moves|] == RowsOfBlock(b);
    }
  }

  lemma {:induction false} RowsInOrderPrefix(rows: seq<Row>, k: nat, lo: int, hi: int)
    requires RowsInOrder(rows, lo, hi) && k <= |rows|
    ensures RowsInOrder(rows[..k], lo, hi)
  {
    if k < |rows| {
      RowsInOrderPrefix(rows[..|rows| - 1], k, lo, hi);
      assert rows[..|rows| - 1][..k] == rows[..k];
    } else {
      assert rows[..k] == rows;
    }
  }

  lemma {:induction false} BareInOrder(rows: seq<Row>, lo: int, hi: int)
    requires RowsInOrder(Bare(rows), lo, hi)
    ensures RowsInOrder(rows, lo, hi)
  {
    if rows != [] {
      assert Bare(rows)[..|rows| - 1] == Bare(rows[..|rows| - 1]);
      BareInOrder(rows[..|rows| - 1], lo, hi);
    }
  }

  /** What a range's read is grouped into: blocks in order within it. */
  lemma ReadInOrder(l: Limits, chain: seq<Block>, lo: int, hi: int, rows: seq<Row>)
    requires ValidChain(chain) && Read(l, chain, lo, hi, rows)
    ensures Within(Group(rows), lo, hi)
  {
    var all := RowsOf(Between(chain, lo, hi));
    BetweenIsWithin(chain, lo, hi);
    RowsOfInOrder(Between(chain, lo, hi), lo, hi);
    RowsInOrderPrefix(all, |rows|, lo, hi);
    assert all[..|rows|] == Bare(rows);
    BareInOrder(rows, lo, hi);
    GroupInOrder(rows, lo, hi);
  }

  /** Below the row limit, all of them. */
  lemma ReadIsRange(l: Limits, chain: seq<Block>, lo: int, hi: int, rows: seq<Row>)
    requires ValidChain(chain) && Read(l, chain, lo, hi, rows) && |rows| < l.maxRows
    ensures BareBlocks(Group(rows)) == Between(chain, lo, hi)
  {
    GroupBare(rows);
    BetweenIsValid(chain, lo, hi);
    GroupOfRows(Between(chain, lo, hi));
  }

  // ----- every run -------------------------------------------------------------------------------

  ghost predicate Sound(chain: seq<Block>, t: Tailer) {
    && Increasing(t.tape)
    && (t.lastReleased.None? ==> t.window == [])
    && (t.lastReleased.Some? ==>
          var last := t.lastReleased.value;
          && Within(t.tape, t.base, last) && t.base <= last
          && (t.whole ==> BareBlocks(t.tape) == Between(chain, t.base, last))
          && Increasing(t.window) && forall i :: 0 <= i < |t.window| ==> t.window[i].n <= last)
  }

  lemma {:induction false} IncreasingJoin(a: seq<Block>, b: seq<Block>, mid: int)
    requires Increasing(a) && Increasing(b)
    requires (forall i :: 0 <= i < |a| ==> a[i].n <= mid) && forall i :: 0 <= i < |b| ==> mid < b[i].n
    ensures Increasing(a + b)
    decreases |b|
  {
    if b == [] {
      assert a + b == a;
    } else {
      var init, last := b[..|b| - 1], b[|b| - 1];
      IncreasingJoin(a, init, mid);
      assert a + b == a + init + [last];
      AppendIncreases(a + init, last);
    }
  }

  lemma ReseedSound(l: Limits, chain: seq<Block>, t: Tailer, base: int, to: int, rows: Option<seq<Row>>)
    requires ValidChain(chain) && Sound(chain, t) && base == to - CATCHUP
    requires t.lastReleased.Some? ==> t.lastReleased.value <= base
    requires rows.Some? ==> Read(l, chain, base, to, rows.value)
    ensures Sound(chain, Reseed(l, t, to, rows).0)
  {
    if rows.Some? {
      var blocks := Group(rows.value);
      ReadInOrder(l, chain, base, to, rows.value);
      if |rows.value| < l.maxRows { ReadIsRange(l, chain, base, to, rows.value); }
      IncreasingJoin(t.window, blocks, base);
    }
  }

  /** A tape of the chain, then the next range's read, is a tape of the chain. */
  lemma TapeJoins(chain: seq<Block>, tape: seq<Block>, blocks: seq<Block>, base: int, last: int, to: int)
    requires Increasing(chain) && base <= last <= to
    requires BareBlocks(tape) == Between(chain, base, last) && BareBlocks(blocks) == Between(chain, last, to)
    ensures BareBlocks(tape + blocks) == Between(chain, base, to)
  {
    BetweenJoins(chain, base, last, to);
    assert BareBlocks(tape + blocks) == BareBlocks(tape) + BareBlocks(blocks);
  }

  lemma WithinJoins(tape: seq<Block>, blocks: seq<Block>, base: int, last: int, to: int)
    requires Within(tape, base, last) && Within(blocks, last, to) && base <= last <= to
    ensures Within(tape + blocks, base, to)
  {
    IncreasingJoin(tape, blocks, last);
  }

  lemma PublishSound(l: Limits, chain: seq<Block>, t: Tailer, to: int, rows: Option<seq<Row>>)
    requires ValidChain(chain) && Sound(chain, t) && t.lastReleased.Some? && t.lastReleased.value < to
    requires rows.Some? ==> Read(l, chain, t.lastReleased.value, to, rows.value)
    ensures Sound(chain, Publish(l, t, to, rows).0)
  {
    if rows.Some? {
      var last, blocks := t.lastReleased.value, Group(rows.value);
      ReadInOrder(l, chain, last, to, rows.value);
      IncreasingJoin(t.window, blocks, last);
      WithinJoins(t.tape, blocks, t.base, last, to);
      if t.whole && |rows.value| < l.maxRows {
        ReadIsRange(l, chain, last, to, rows.value);
        TapeJoins(chain, t.tape, blocks, t.base, last, to);
      }
    }
  }

  lemma CycleSound(l: Limits, chain: seq<Block>, t: Tailer, r: Reading)
    requires ValidLimits(l) && ValidChain(chain) && Sound(chain, t) && Honest(l, chain, t, r)
    ensures Sound(chain, Cycle(l, t, r).0)
  {
    if Range(l, t, r).Some? {
      var base, to := Range(l, t, r).value.0, Range(l, t, r).value.1;
      if t.lastReleased.None? {
        ReseedSound(l, chain, t, base, to, r.rows);
      } else if Rewound(l, t, r.target.value) {
        ReseedSound(l, chain, t.(window := [], lastReleased := None), base, to, r.rows);
      } else if to - t.lastReleased.value > l.maxGap {
        ReseedSound(l, chain, t, base, to, r.rows);
      } else {
        PublishSound(l, chain, t, to, r.rows);
      }
    }
  }

  function Run(l: Limits, t: Tailer, rs: seq<Reading>): Tailer
    decreases |rs|
  {
    if rs == [] then t else Run(l, Cycle(l, t, rs[0]).0, rs[1..])
  }

  ghost predicate HonestRun(l: Limits, chain: seq<Block>, t: Tailer, rs: seq<Reading>)
    decreases |rs|
  {
    rs == [] || (Honest(l, chain, t, rs[0]) && HonestRun(l, chain, Cycle(l, t, rs[0]).0, rs[1..]))
  }

  lemma {:induction false} SoundRun(l: Limits, chain: seq<Block>, t: Tailer, rs: seq<Reading>)
    requires ValidLimits(l) && ValidChain(chain) && Sound(chain, t) && HonestRun(l, chain, t, rs)
    ensures Sound(chain, Run(l, t, rs))
    decreases |rs|
  {
    if rs != [] {
      CycleSound(l, chain, t, rs[0]);
      SoundRun(l, chain, Cycle(l, t, rs[0]).0, rs[1..]);
    }
  }

  /**
   After any cycles (quiet, failing, skipping ahead, rewinding), what was published since the last reload
   is, lanes aside and below the row limit, exactly the chain's blocks from there to the last released:
   each movement once, in block and log order. At the limit it is still in order. And no block is counted
   twice in the rolling window.
   */
  lemma TapeIsTheChain(l: Limits, chain: seq<Block>, rs: seq<Reading>, t: Tailer)
    requires ValidLimits(l) && ValidChain(chain) && HonestRun(l, chain, START, rs) && t == Run(l, START, rs)
    ensures t.lastReleased.Some? && t.whole ==> BareBlocks(t.tape) == Between(chain, t.base, t.lastReleased.value)
    ensures t.lastReleased.Some? ==> Within(t.tape, t.base, t.lastReleased.value)
    ensures Increasing(t.window) && forall i, j :: 0 <= i < j < |t.window| ==> t.window[i].n != t.window[j].n
  {
    SoundRun(l, chain, START, rs);
    assert Increasing([]);
    forall i, j | 0 <= i < j < |t.window|
      ensures t.window[i].n != t.window[j].n
    {
      InOrder(t.window, i, j);
    }
  }

  /** A cycle that releases goes forward, never past the worker's cursor, and not below block 0 at a start. */
  lemma ReleasesToCursor(l: Limits, t: Tailer, r: Reading)
    requires Cycle(l, t, r).1 != Quiet
    ensures var t' := Cycle(l, t, r).0;
            var target := if t.lastReleased.Some? && Rewound(l, t, r.target.value) then r.again else r.target;
            && t'.lastReleased.Some? && target.Some? && target.value.cursor.Some?
            && (target.value.cursor.value >= -1 ==> t'.lastReleased.value <= target.value.cursor.value)
            && (t.lastReleased.None? || Rewound(l, t, r.target.value) ==> t'.lastReleased.value >= 0)
            && (t.lastReleased.Some? && !Rewound(l, t, r.target.value) ==> t.lastReleased.value < t'.lastReleased.value)
  {
    var target := if t.lastReleased.Some? && Rewound(l, t, r.target.value) then r.again else r.target;
    if target.Some? { NeverPastCursor(target.value); }
  }

  /**
   The policy, over a cycle whose queries all answer and that finds no rewind: a committed block not yet on
   the tape is on it afterwards exactly when lanes are off, or its lane was read, or it is older than the hold.
   */
  lemma ReleasesByPolicy(l: Limits, t: Tailer, r: Reading, blocks: set<nat>, ingested: nat -> int, before: int, b: nat)
    requires t.lastReleased.Some? && r.target.Some? && r.rows.Some? && !Rewound(l, t, r.target.value)
    requires NewestHeld(blocks, ingested, t.lastReleased.value, before, r.target.value.heldThrough)
    requires IngestedInOrder(blocks, ingested) && b in blocks && b > t.lastReleased.value
    ensures var i := r.target.value;
            Cycle(l, t, r).0.lastReleased.Some? &&
            (b <= Cycle(l, t, r).0.lastReleased.value <==>
               i.cursor.Some? && b <= i.cursor.value &&
               (i.insights.None? || (i.insights.value.Some? && b <= i.insights.value.value) || ingested(b) <= before))
  {
    ReleasedExactly(r.target.value, blocks, ingested, t.lastReleased.value, before, b);
  }

  // ----- a cycle, written out --------------------------------------------------------------------

  /** The range's rows as blocks, to be the whole tape: from 150 blocks before `to` on. */
  function Loaded(l: Limits, window: seq<Block>, to: int, rows: seq<Row>): (Tailer, Sent) {
    (Tailer(Some(to), window + Group(rows), to - 150, Group(rows), |rows| < l.maxRows), Reseeded(Group(rows), to))
  }

  /** What loading up to a target leaves: the tape from there, or nothing changed where it has none yet or a query throws. */
  function LoadedTo(l: Limits, t: Tailer, target: Option<Input>, rows: Option<seq<Row>>): (Tailer, Sent) {
    if target.None? || rows.None? then (t, Quiet)
    else
      match ReleaseTo(target.value)
      case Some(to) => if to >= 0 then Loaded(l, t.window, to, rows.value) else (t, Quiet)
      case None => (t, Quiet)
  }

  /** A tailer that has released nothing loads. */
  lemma StartLoads(l: Limits, t: Tailer, r: Reading)
    requires t.lastReleased.None?
    ensures Cycle(l, t, r) == LoadedTo(l, t, r.target, r.rows)
  {
  }

  /**
   Every other cycle, by the worker's cursor `c` and the release target `to` it reads: a cursor more than
   the gap below the last release starts all over, with an empty window; a target no higher than the last
   release is quiet; one more than the gap above it is loaded; any other is published after what was.
   */
  lemma CycleWrittenOut(l: Limits, t: Tailer, r: Reading, last: int, c: int, to: int)
    requires t.lastReleased == Some(last) && r.target.Some? && r.target.value.cursor == Some(c) && ReleaseTo(r.target.value) == Some(to)
    ensures Cycle(l, t, r) ==
              if c < last - l.maxGap then LoadedTo(l, t.(window := [], lastReleased := None), r.again, r.rows)
              else if to <= last || r.rows.None? then (t, Quiet)
              else if to > last + l.maxGap then Loaded(l, t.window, to, r.rows.value)
              else
                var blocks := Group(r.rows.value);
                (Tailer(Some(to), t.window + blocks, t.base, t.tape + blocks, t.whole && |r.rows.value| < l.maxRows), Published(blocks))
  {
  }

  /** Without a target there is nothing to do; and there is one exactly where the worker has a cursor. */
  lemma NoTargetIsQuiet(l: Limits, t: Tailer, r: Reading)
    requires t.lastReleased.Some?
    ensures r.target.None? || r.target.value.cursor.None? ==> Cycle(l, t, r) == (t, Quiet)
    ensures r.target.Some? ==> (ReleaseTo(r.target.value).None? <==> r.target.value.cursor.None?)
  {
  }

  /**
   The tape is reloaded exactly where the cursor has gone back by more than the gap or the target is ahead
   by more than it (and the queries answer). While the cursor has not gone back, what was released stays
   so and the window only grows: lanes far behind reload nothing.
   */
  lemma ReloadsExactly(l: Limits, t: Tailer, r: Reading, last: int, c: int, to: int)
    requires t.lastReleased == Some(last) && r.target.Some? && r.target.value.cursor == Some(c) && ReleaseTo(r.target.value) == Some(to)
    requires ValidLimits(l)
    ensures var (t', sent) := Cycle(l, t, r);
            && (c >= last - l.maxGap ==>
                  && (sent.Reseeded? <==> to > last + l.maxGap && r.rows.Some?)
                  && t'.lastReleased.Some? && t'.lastReleased.value >= last && t.window <= t'.window)
            && (c < last - l.maxGap ==>
                  && (sent.Reseeded? <==> r.rows.Some? && r.again.Some? && ReleaseTo(r.again.value).Some? && ReleaseTo(r.again.value).value >= 0)
                  && (t'.lastReleased.None? <==> !sent.Reseeded?)
                  && t'.window == (if sent.Reseeded? then sent.blocks else []))
  {
    CycleWrittenOut(l, t, r, last, c, to);
  }

  // ----- the hub is fed in order -----------------------------------------------------------------

  function Feed(cfg: H.Config, h: H.Hub, sent: Sent, refusing: set<nat>): H.Hub {
    match sent
    case Quiet => h
    case Reseeded(blocks, to) => H.Reseed(cfg, h, blocks, to, refusing)
    case Published(blocks) => H.PublishBlocks(cfg, h, blocks, refusing)
  }

  /** What the hub relies on: block numbers rise, from its history on. */
  ghost predicate InOrderFor(h: H.Hub, sent: Sent) {
    && (sent.Reseeded? ==> Increasing(sent.blocks))
    && (sent.Published? ==> Increasing(h.history + sent.blocks))
  }

  lemma FeedSound(cfg: H.Config, h: H.Hub, sent: Sent, refusing: set<nat>)
    requires H.Sound(cfg, h) && InOrderFor(h, sent)
    ensures H.Sound(cfg, Feed(cfg, h, sent, refusing))
    ensures Feed(cfg, h, sent, refusing).history ==
              match sent { case Quiet => h.history case Reseeded(blocks, _) => blocks case Published(blocks) => h.history + blocks }
  {
    match sent {
      case Quiet =>
      case Reseeded(blocks, to) =>
        H.ReseedSound(cfg, h, blocks, to, refusing);
        H.HistoryRestarts(cfg, h, blocks, to, refusing);
      case Published(blocks) =>
        H.PublishSound(cfg, h, blocks, refusing);
        H.HistoryGrows(cfg, h, blocks, refusing);
    }
  }

  /** What a cycle hands out is what it does to the tape. */
  lemma SentIsTape(l: Limits, t: Tailer, r: Reading)
    ensures var t', sent := Cycle(l, t, r).0, Cycle(l, t, r).1;
            t'.tape == match sent { case Quiet => t.tape case Reseeded(blocks, _) => blocks case Published(blocks) => t.tape + blocks }
  {
  }

  /** What the tailer hands the hub is what the hub relies on: its history is the tape, block numbers rising. */
  lemma HubIsFed(l: Limits, chain: seq<Block>, t: Tailer, r: Reading, cfg: H.Config, h: H.Hub, refusing: set<nat>)
    requires ValidLimits(l) && ValidChain(chain) && Sound(chain, t) && Honest(l, chain, t, r)
    requires H.Sound(cfg, h) && h.history == t.tape
    ensures var fed := Feed(cfg, h, Cycle(l, t, r).1, refusing);
            H.Sound(cfg, fed) && fed.history == Cycle(l, t, r).0.tape
  {
    CycleSound(l, chain, t, r);
    SentIsTape(l, t, r);
    Passed(chain, t, Cycle(l, t, r).0, Cycle(l, t, r).1, cfg, h, refusing);
  }

  /** A cycle that keeps the tape sound keeps the hub so. */
  lemma Passed(chain: seq<Block>, t: Tailer, t': Tailer, sent: Sent, cfg: H.Config, h: H.Hub, refusing: set<nat>)
    requires Sound(chain, t') && H.Sound(cfg, h) && h.history == t.tape
    requires t'.tape == match sent { case Quiet => t.tape case Reseeded(blocks, _) => blocks case Published(blocks) => t.tape + blocks }
    ensures var fed := Feed(cfg, h, sent, refusing);
            H.Sound(cfg, fed) && fed.history == t'.tape
  {
    FeedSound(cfg, h, sent, refusing);
  }
}
