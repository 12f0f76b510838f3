/** Range planning (packages/core/src/ranges.ts) and the working getLogs span (packages/worker/src/rangesizer.ts). */
module Ranges {
  import opened Common

  datatype BlockRange = BlockRange(fromBlock: int, toBlock: int)

  /** The next blocks to process: right after the last one, up to the head, at most a batch. */
  function PlanRange(lastProcessed: int, finalized: int, batchBlocks: int): (range: Option<BlockRange>)
    ensures range.None? <==> finalized <= lastProcessed
    ensures range.Some? && batchBlocks >= 1 ==>
              var r := range.value;
              && r.fromBlock == lastProcessed + 1 && r.fromBlock <= r.toBlock <= finalized
              && r.toBlock - r.fromBlock < batchBlocks
              && (r.toBlock == finalized || r.toBlock - r.fromBlock + 1 == batchBlocks)
  {
    if finalized <= lastProcessed then None
    else
      var fromBlock := lastProcessed + 1;
      var cap := fromBlock + (batchBlocks - 1);
      Some(BlockRange(fromBlock, Min(finalized, cap)))
  }

  // ----- the range sizer -------------------------------------------------------------------------

  const GROW_AFTER: nat := 20

  datatype Sizer = Sizer(max: nat, current: nat, clean: nat)

  ghost predicate ValidSizer(z: Sizer) {
    1 <= z.current <= z.max && z.clean < GROW_AFTER
  }

  function NewSizer(max: nat): Sizer {
    Sizer(max, max, 0)
  }

  predicate CanShrink(z: Sizer) {
    z.current > 1
  }

  function Shrink(z: Sizer): Sizer {
    if CanShrink(z) then z.(current := Max(1, z.current / 2), clean := 0) else z
  }

  predicate Grows(z: Sizer) {
    z.current < z.max && z.clean + 1 >= GROW_AFTER
  }

  function Succeeded(z: Sizer): Sizer {
    if z.current >= z.max then z
    else if z.clean + 1 < GROW_AFTER then z.(clean := z.clean + 1)
    else z.(current := Min(z.max, z.current * 2), clean := 0)
  }

  datatype SizerEvent = RangeCapped | RangeDone

  function SizerStep(z: Sizer, e: SizerEvent): Sizer {
    match e
    case RangeCapped => Shrink(z)
    case RangeDone => Succeeded(z)
  }

  function SizerRun(z: Sizer, es: seq<SizerEvent>): Sizer
    decreases |es|
  {
    if es == [] then z else SizerRun(SizerStep(z, es[0]), es[1..])
  }

  /** How often the span was actually halved. */
  function Shrinks(z: Sizer, es: seq<SizerEvent>): nat
    decreases |es|
  {
    if es == [] then 0
    else (if es[0] == RangeCapped && CanShrink(z) then 1 else 0) + Shrinks(SizerStep(z, es[0]), es[1..])
  }

  function Successes(es: seq<SizerEvent>): nat {
    if es == [] then 0 else (if es[0] == RangeDone then 1 else 0) + Successes(es[1..])
  }

  /** The floor of the binary logarithm. */
  function Log2(n: nat): nat {
    if n <= 1 then 0 else 1 + Log2(n / 2)
  }

  lemma {:induction false} Log2Double(n: nat, m: nat)
    requires 1 <= n <= m <= 2 * n + 1
    ensures Log2(m) <= Log2(n) + 1
    decreases m
  {
    if m > 1 && n > 1 {
      Log2Double(n / 2, m / 2);
    } else if m > 1 {
      assert m / 2 == 1 && Log2(1) == 0;
    }
  }

  lemma {:induction false} SizerBounds(z: Sizer, es: seq<SizerEvent>)
    requires ValidSizer(z)
    ensures ValidSizer(SizerRun(z, es)) && SizerRun(z, es).max == z.max
    decreases |es|
  {
    if es != [] {
      SizerBounds(SizerStep(z, es[0]), es[1..]);
    }
  }

  /** Halvings are paid for by the span's logarithm and by growth, which costs GROW_AFTER clean ranges. */
  lemma {:induction false} ShrinksFrom(z: Sizer, es: seq<SizerEvent>)
    requires ValidSizer(z)
    ensures Shrinks(z, es) <= Log2(z.current) + (z.clean + Successes(es)) / GROW_AFTER
    decreases |es|
  {
    if es != [] {
      var z' := SizerStep(z, es[0]);
      ShrinksFrom(z', es[1..]);
      if es[0] == RangeDone && Grows(z) {
        Log2Double(z.current, z'.current);
      }
    }
  }

  /** A provider cap costs at most log2(max) retries, plus one for every twenty ranges that went through. */
  lemma ShrinksBounded(max: nat, es: seq<SizerEvent>)
    requires max >= 1
    ensures Shrinks(NewSizer(max), es) <= Log2(max) + Successes(es) / GROW_AFTER
  {
    ShrinksFrom(NewSizer(max), es);
  }

  /** Each event that leaves the span smaller is counted as a halving, and each range that goes through as one. */
  lemma {:induction false} CountedOneByOne(z: Sizer, es: seq<SizerEvent>, e: SizerEvent)
    requires ValidSizer(z)
    ensures SizerRun(z, es + [e]) == SizerStep(SizerRun(z, es), e)
    ensures Shrinks(z, es + [e]) == Shrinks(z, es) + if SizerRun(z, es + [e]).current < SizerRun(z, es).current then 1 else 0
    ensures Successes(es + [e]) == Successes(es) + if e == RangeDone then 1 else 0
    decreases |es|
  {
    if es == [] {
      assert [e][1..] == [];
      assert [] + [e] == [e];
    } else {
      assert (es + [e])[1..] == es[1..] + [e];
      CountedOneByOne(SizerStep(z, es[0]), es[1..], e);
    }
  }

  /** `n` clean ranges in a row. */
  function Clean(n: nat): (es: seq<SizerEvent>)
    ensures |es| == n
  {
    seq(n, _ => RangeDone)
  }

  /** Short of the maximum, twenty clean ranges since the last change double the span, up to the maximum, and fewer do not. */
  lemma {:induction false} CleanRangesDouble(z: Sizer, n: nat)
    requires ValidSizer(z) && z.current < z.max && z.clean + n <= 20
    ensures SizerRun(z, Clean(n)) ==
              if z.clean + n < 20 then Sizer(z.max, z.current, z.clean + n)
              else Sizer(z.max, if 2 * z.current < z.max then 2 * z.current else z.max, 0)
    decreases n
  {
    if n > 0 {
      assert Clean(n)[0] == RangeDone && Clean(n)[1..] == Clean(n - 1);
      if z.clean + 1 < 20 {
        CleanRangesDouble(SizerStep(z, RangeDone), n - 1);
      } else {
        assert Clean(n - 1) == [];
      }
    }
  }

  /** At the maximum nothing changes but by a cap; a cap halves the span and starts the count over, and a span of one stays. */
  lemma CapHalves(z: Sizer)
    requires ValidSizer(z)
    ensures z.current == z.max ==> SizerStep(z, RangeDone) == z
    ensures SizerStep(z, RangeCapped) == if z.current == 1 then z else Sizer(z.max, z.current / 2, 0)
  {
  }

  /** The provider refuses only spans over `cap` blocks. */
  ghost predicate CapsOver(z: Sizer, es: seq<SizerEvent>, cap: nat)
    decreases |es|
  {
    es == [] || ((es[0] == RangeCapped ==> z.current > cap) && CapsOver(SizerStep(z, es[0]), es[1..], cap))
  }

  /** Against a fixed cap the span never falls below half of it, rounded up (or the maximum, if lower). */
  lemma {:induction false} CapFloor(z: Sizer, es: seq<SizerEvent>, cap: nat)
    requires ValidSizer(z) && z.current >= Min(z.max, (cap + 1) / 2) && CapsOver(z, es, cap)
    ensures SizerRun(z, es).current >= Min(z.max, (cap + 1) / 2)
    decreases |es|
  {
    if es != [] {
      CapFloor(SizerStep(z, es[0]), es[1..], cap);
    }
  }

  class RangeSizer {
    const max: nat
    var current: nat
    var clean: nat

    ghost predicate Valid()
      reads this
    {
      ValidSizer(View())
    }

    function View(): Sizer
      reads this
    {
      Sizer(max, current, clean)
    }

    constructor (max: nat)
      requires max >= 1
      ensures Valid() && View() == NewSizer(max)
    {
      this.max, current, clean := max, max, 0;
    }

    method ShrinkSpan() returns (shrunk: bool)
      requires Valid()
      modifies this
      ensures Valid() && View() == Shrink(old(View())) && shrunk == CanShrink(old(View()))
    {
      if current <= 1 { return false; }
      current := Max(1, current / 2);
      clean := 0;
      return true;
    }

    method RangeSucceeded() returns (grew: bool)
      requires Valid()
      modifies this
      ensures Valid() && View() == Succeeded(old(View())) && grew == Grows(old(View()))
    {
      if current >= max { return false; }
      clean := clean + 1;
      if clean < GROW_AFTER { return false; }
      current := Min(max, current * 2);
      clean := 0;
      return true;
    }
  }
}
