/** What the live stream carries (packages/explorer/lib/types.ts). Display names of addresses are left out. */
module Tape {
  import opened Common

  datatype Move = Move(tx: string, li: nat, from: string, to: string, value: nat, lane: Option<string>)

  /** A block of the tape; its number is also the event id. */
  datatype Block = Block(n: nat, t: int, moves: seq<Move>)

  datatype Largest = Largest(move: Move, n: nat, t: int)

  /** `usdc` is the exact sum in the smallest unit, `perSec` in tenths. */
  datatype Stats = Stats(count: nat, usdc: nat, perSec: int, lanes: map<string, nat>, largest: seq<Largest>,
                         headT: Option<int>, now: int)

  predicate Increasing(blocks: seq<Block>) {
    blocks == [] ||
    (Increasing(blocks[..|blocks| - 1]) && forall i :: 0 <= i < |blocks| - 1 ==> blocks[i].n < blocks[|blocks| - 1].n)
  }

  lemma {:induction false} InOrder(blocks: seq<Block>, i: nat, j: nat)
    requires Increasing(blocks) && i < j < |blocks|
    ensures blocks[i].n < blocks[j].n
  {
    if j < |blocks| - 1 { InOrder(blocks[..|blocks| - 1], i, j); }
  }

  lemma {:induction false} PrefixIncreases(blocks: seq<Block>, k: nat)
    requires Increasing(blocks) && k <= |blocks|
    ensures Increasing(blocks[..k])
  {
    if k < |blocks| {
      PrefixIncreases(blocks[..|blocks| - 1], k);
      assert blocks[..|blocks| - 1][..k] == blocks[..k];
    } else {
      assert blocks[..k] == blocks;
    }
  }

  /** How many blocks have a number of at most `n`. */
  function Pos(blocks: seq<Block>, n: int): (k: nat)
    ensures k <= |blocks|
  {
    if blocks == [] then 0
    else Pos(blocks[..|blocks| - 1], n) + if blocks[|blocks| - 1].n <= n then 1 else 0
  }

  /** The blocks numbered past `lo`. */
  function After(blocks: seq<Block>, lo: int): seq<Block> {
    if blocks == [] then []
    else
      var last := blocks[|blocks| - 1];
      After(blocks[..|blocks| - 1], lo) + if lo < last.n then [last] else []
  }

  lemma {:induction false} PosAll(blocks: seq<Block>, n: int)
    requires forall i :: 0 <= i < |blocks| ==> blocks[i].n <= n
    ensures Pos(blocks, n) == |blocks|
  {
    if blocks != [] { PosAll(blocks[..|blocks| - 1], n); }
  }

  /** In increasing order, what is at most `n` comes first. */
  lemma {:induction false} PosSplits(blocks: seq<Block>, n: int)
    requires Increasing(blocks)
    ensures forall i :: 0 <= i < Pos(blocks, n) ==> blocks[i].n <= n
    ensures forall i :: Pos(blocks, n) <= i < |blocks| ==> blocks[i].n > n
  {
    if blocks != [] {
      if blocks[|blocks| - 1].n <= n { PosAll(blocks, n); } else { PosSplits(blocks[..|blocks| - 1], n); }
    }
  }

  lemma PosIs(blocks: seq<Block>, n: int, k: nat)
    requires Increasing(blocks) && k <= |blocks|
    requires k == 0 || blocks[k - 1].n <= n
    requires k == |blocks| || blocks[k].n > n
    ensures Pos(blocks, n) == k
  {
    PosSplits(blocks, n);
    forall i | 0 <= i < k
      ensures blocks[i].n <= n
    {
      if i < k - 1 { InOrder(blocks, i, k - 1); }
    }
    forall i | k <= i < |blocks|
      ensures blocks[i].n > n
    {
      if i > k { InOrder(blocks, k, i); }
    }
  }

  lemma {:induction false} AfterIsSlice(blocks: seq<Block>, lo: int)
    requires Increasing(blocks)
    ensures After(blocks, lo) == blocks[Pos(blocks, lo)..]
  {
    if blocks != [] {
      var init, last := blocks[..|blocks| - 1], blocks[|blocks| - 1];
      AfterIsSlice(init, lo);
      if last.n <= lo {
        PosAll(init, lo);
      } else {
        assert init[Pos(init, lo)..] + [last] == blocks[Pos(init, lo)..];
      }
    }
  }
}
