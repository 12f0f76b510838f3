/** How far the tape may go (packages/explorer/lib/release.ts). */
module Release {
  import opened Common

  /** `insights` is None where lanes are not on, Some(None) where they are and the loop has not started. */
  datatype Input = Input(cursor: Option<int>, insights: Option<Option<int>>, heldThrough: Option<int>)

  function OrBefore(n: Option<int>): int {
    if n.Some? then n.value else -1
  }

  function ReleaseTo(i: Input): Option<int> {
    if i.cursor.None? then None
    else if i.insights.None? then i.cursor
    else
      var lanes := Min(OrBefore(i.insights.value), i.cursor.value);
      var held := Min(OrBefore(i.heldThrough), i.cursor.value);
      Some(Max(lanes, held))
  }

  /** Never past the worker's cursor. */
  lemma NeverPastCursor(i: Input)
    ensures ReleaseTo(i).Some? ==> i.cursor.Some? && (ReleaseTo(i).value <= i.cursor.value || ReleaseTo(i).value == -1)
    ensures ReleaseTo(i).Some? && i.cursor.value >= -1 ==> ReleaseTo(i).value <= i.cursor.value
  {
  }

  /** `held` is the newest of `blocks` past `after` that was ingested at `before` or earlier. */
  ghost predicate NewestHeld(blocks: set<nat>, ingested: nat -> int, after: int, before: int, held: Option<int>) {
    && (held.Some? ==> exists b :: b in blocks && b == held.value && b > after && ingested(b) <= before)
    && (forall b :: b in blocks && b > after && ingested(b) <= before ==> held.Some? && b <= held.value)
  }

  /** Later blocks are not ingested earlier. */
  ghost predicate IngestedInOrder(blocks: set<nat>, ingested: nat -> int) {
    forall b, c :: b in blocks && c in blocks && b <= c ==> ingested(b) <= ingested(c)
  }

  /**
   With lanes on, a block not yet on the tape goes out exactly when the worker has committed it and its
   lane was read or it is older than the hold; with lanes off, when the worker has committed it.
   */
  lemma ReleasedExactly(i: Input, blocks: set<nat>, ingested: nat -> int, after: int, before: int, b: nat)
    requires NewestHeld(blocks, ingested, after, before, i.heldThrough) && IngestedInOrder(blocks, ingested)
    requires b in blocks && b > after
    ensures ReleaseTo(i).Some? && b <= ReleaseTo(i).value <==>
              i.cursor.Some? && b <= i.cursor.value &&
              (i.insights.None? || (i.insights.value.Some? && b <= i.insights.value.value) || ingested(b) <= before)
  {
  }
}
