/**
 The stages behind ingest on ingest's own rounds: the insight loop (packages/worker/src/insights.ts) and
 the rollup (packages/explorer/lib/rollup.ts) read the tables that ingest (packages/worker/src/pipeline.ts)
 writes, so what each assumes of the rows it is given is proved here of the rounds that write them.

 The three run side by side: each step is one ingest event, one step of the insight loop, or one
 statement of a replica of the rollup. The partitions ingest plans for its rows (packages/worker/src/db.ts)
 are fed by the same rounds.
 */
module Stages {
  import opened Common
  import S = Ranges
  import N = Ingest
  import I = Insights
  import P = Partitions
  import R = Rollup

  datatype World = World(cfg: N.Config, decode: N.Decoder, chain: N.Chain)

  datatype Sides = Sides(from: nat, to: nat, value: nat)

  /** How the stages read a row: its transaction; the transfer in it, if it is one; and the UTC day of a block. */
  datatype Feed = Feed(txOf: N.Columns -> string, sides: (N.RowKey, N.Columns) -> Option<Sides>, dayOf: nat -> R.Day)

  type Events = map<N.RowKey, N.Columns>

  ghost predicate Known(w: World) {
    N.ValidConfig(w.cfg) && N.ValidChain(w.chain)
  }

  // ----- what a round adds -----------------------------------------------------------------------

  function Reached(db: N.Db): int {
    if db.cursor.Some? then db.cursor.value else -1
  }

  /** The row was written for a log of the chain. */
  ghost predicate FromChain(w: World, k: N.RowKey, columns: N.Columns) {
    exists log: N.Log :: N.Becomes(w.cfg, w.decode, w.chain, log, N.Row(k, columns))
  }

  /** Block and index name one row across all event tables. */
  lemma KeysAreUnique(w: World, k1: N.RowKey, c1: N.Columns, k2: N.RowKey, c2: N.Columns)
    requires N.ValidChain(w.chain) && FromChain(w, k1, c1) && FromChain(w, k2, c2)
    requires k1.block == k2.block && k1.index == k2.index
    ensures k1 == k2 && c1 == c2
  {
    var log1: N.Log :| N.Becomes(w.cfg, w.decode, w.chain, log1, N.Row(k1, c1));
    var log2: N.Log :| N.Becomes(w.cfg, w.decode, w.chain, log2, N.Row(k2, c2));
    assert log1.index == log2.index;
  }

  /** Every row is a log's, at a block behind the cursor that has its _blocks row. */
  ghost predicate Written(w: World, db: N.Db) {
    && (db.cursor.None? ==> db.events == map[] && db.blocks == {})
    && (db.cursor.Some? ==> db.cursor.value >= -1)
    && (forall k :: k in db.events ==> FromChain(w, k, db.events[k]) && k.block <= Reached(db) && k.block in db.blocks)
    && (forall b :: b in db.blocks ==> b <= Reached(db))
  }

  /** Later rows and blocks only, past the old cursor and up to the new one. */
  ghost predicate Adds(before: N.Db, after: N.Db) {
    && Reached(before) <= Reached(after) && (before.cursor.Some? ==> after.cursor.Some?)
    && (forall k :: k in before.events ==> k in after.events && after.events[k] == before.events[k])
    && (forall k :: k in after.events && k !in before.events ==> k.block > Reached(before))
    && before.blocks <= after.blocks
    && (forall b :: b in after.blocks && b !in before.blocks ==> b > Reached(before))
  }

  lemma {:induction false} InsertRowsFrom(events: Events, rows: seq<N.Row>, k: N.RowKey)
    ensures k in events ==> k in N.InsertRows(events, rows) && N.InsertRows(events, rows)[k] == events[k]
    ensures k in N.InsertRows(events, rows) && k !in events ==> N.Row(k, N.InsertRows(events, rows)[k]) in rows
    ensures k !in N.InsertRows(events, rows) ==> forall r :: r in rows ==> r.key != k
  {
    if rows != [] {
      var init, last := rows[..|rows| - 1], rows[|rows| - 1];
      assert rows == init + [last];
      InsertRowsFrom(events, init, k);
    }
  }

  /** The logs a commit writes: of the chain, past the cursor, up to the new one. */
  ghost predicate Next(w: World, lo: int, hi: int, kept: seq<N.Log>) {
    forall log: N.Log :: log in kept ==> log in w.chain(log.block) && lo < log.block <= hi
  }

  lemma NextRows(w: World, lo: int, hi: int, kept: seq<N.Log>)
    requires N.ValidChain(w.chain) && Next(w, lo, hi, kept)
    ensures forall r :: r in N.RowsOf(w.cfg, w.decode, kept) ==> FromChain(w, r.key, r.columns) && lo < r.key.block <= hi
  {
    N.RowsOfMembers(w.cfg, w.decode, kept);
    forall r | r in N.RowsOf(w.cfg, w.decode, kept)
      ensures FromChain(w, r.key, r.columns) && lo < r.key.block <= hi
    {
      var log: N.Log :| log in kept && N.FateOf(w.cfg, w.decode, log) == N.Stored(r);
      assert N.Becomes(w.cfg, w.decode, w.chain, log, N.Row(r.key, r.columns));
    }
  }

  /** What inserting rows does to one key. */
  lemma InsertedKey(w: World, events: Events, rows: seq<N.Row>, lo: int, hi: int, k: N.RowKey)
    requires forall r :: r in rows ==> FromChain(w, r.key, r.columns) && lo < r.key.block <= hi
    ensures var after := N.InsertRows(events, rows);
            && (k in events ==> k in after && after[k] == events[k])
            && (k in after && k !in events ==> FromChain(w, k, after[k]) && lo < k.block <= hi && k.block in N.BlocksOf(rows))
  {
    InsertRowsFrom(events, rows, k);
    var after := N.InsertRows(events, rows);
    if k in after && k !in events { assert N.Row(k, after[k]).key.block in N.BlocksOf(rows); }
  }

  lemma CommitAdds(w: World, db: N.Db, kept: seq<N.Log>, newCursor: int)
    requires N.ValidChain(w.chain) && Written(w, db) && db.cursor.Some? && db.cursor.value <= newCursor
    requires Next(w, db.cursor.value, newCursor, kept)
    ensures var db' := N.Commit(db, N.RowsOf(w.cfg, w.decode, kept), N.DeadOf(w.cfg, w.decode, kept), newCursor);
            Written(w, db') && Adds(db, db')
  {
    var rows, lo := N.RowsOf(w.cfg, w.decode, kept), db.cursor.value;
    var after := N.InsertRows(db.events, rows);
    NextRows(w, lo, newCursor, kept);
    forall k: N.RowKey
      ensures k in db.events ==> k in after && after[k] == db.events[k]
      ensures k in after && k !in db.events ==> FromChain(w, k, after[k]) && lo < k.block <= newCursor && k.block in N.BlocksOf(rows)
    {
      InsertedKey(w, db.events, rows, lo, newCursor, k);
    }
  }

  /** What a round writes was in its range. */
  lemma KeptIsNext(w: World, s: N.State, r: N.Round)
    requires N.Honest(w.cfg, w.chain, s, N.Ran(r)) && N.Planned(s, r).Some? && r.fetch.Fetched?
    ensures var (range, guarded) := N.Planned(s, r).value;
            Next(w, range.fromBlock - 1, N.Safe(range, guarded, r.fetch), N.Kept(range, guarded, r.fetch))
  {
    var (range, guarded) := N.Planned(s, r).value;
    N.UpToCounts(r.fetch.logs, N.Safe(range, guarded, r.fetch));
    forall log: N.Log | log in N.Kept(range, guarded, r.fetch)
      ensures log in w.chain(log.block) && range.fromBlock - 1 < log.block <= N.Safe(range, guarded, r.fetch)
    {
      N.KeptIsFetched(range, guarded, r.fetch, log);
      assert multiset(N.Kept(range, guarded, r.fetch))[log] > 0;
    }
  }

  /** Whatever an ingest event does to the database, even where its round lets logs escape. */
  lemma StepAdds(w: World, s: N.State, e: N.Event)
    requires Known(w) && S.ValidSizer(s.sizer) && Written(w, s.db) && N.Honest(w.cfg, w.chain, s, e)
    ensures var s' := N.Step(w.cfg, w.decode, s, e);
            S.ValidSizer(s'.sizer) && Written(w, s'.db) && Adds(s.db, s'.db)
  {
    if e.Ran? {
      N.RoundCases(w.cfg, w.decode, s, e.round);
      N.SizerStays(w.cfg, w.decode, s, e.round);
      if N.Commits(s, e.round) {
        var (range, guarded) := N.Planned(s, e.round).value;
        KeptIsNext(w, s, e.round);
        CommitAdds(w, s.db, N.Kept(range, guarded, e.round.fetch), N.Safe(range, guarded, e.round.fetch));
      }
    }
  }

  // ----- the batches the stages receive ----------------------------------------------------------

  ghost function Listed<T(!new)>(s: set<T>): (all: seq<T>)
    ensures forall x :: x in all <==> x in s
    ensures forall x :: multiset(all)[x] <= 1
    decreases |s|
  {
    if s == {} then []
    else
      var x :| x in s;
      var rest := Listed(s - {x});
      assert multiset(rest)[x] == 0;
      rest + [x]
  }

  function RowOf(feed: Feed, k: N.RowKey, columns: N.Columns): I.EventRow {
    I.EventRow(k.table, k.block, k.index, feed.txOf(columns))
  }

  function TransferOf(feed: Feed, k: N.RowKey, columns: N.Columns): Option<R.Transfer> {
    var sides := feed.sides(k, columns);
    if sides.None? then None else Some(R.Transfer(k.block, k.index, sides.value.from, sides.value.to, sides.value.value))
  }

  function RowsAt(feed: Feed, events: Events, keys: seq<N.RowKey>): seq<I.EventRow>
    requires forall k :: k in keys ==> k in events
  {
    if keys == [] then []
    else
      var last := keys[|keys| - 1];
      RowsAt(feed, events, keys[..|keys| - 1]) + [RowOf(feed, last, events[last])]
  }

  function TransfersAt(feed: Feed, events: Events, keys: seq<N.RowKey>): seq<R.Transfer>
    requires forall k :: k in keys ==> k in events
  {
    if keys == [] then []
    else
      var last := keys[|keys| - 1];
      var transfer := TransferOf(feed, last, events[last]);
      TransfersAt(feed, events, keys[..|keys| - 1]) + if transfer.Some? then [transfer.value] else []
  }

  function Name(row: I.EventRow): N.RowKey {
    N.RowKey(row.table, row.block, row.index)
  }

  ghost predicate IsRow(feed: Feed, events: Events, row: I.EventRow) {
    Name(row) in events && row == RowOf(feed, Name(row), events[Name(row)])
  }

  ghost predicate IsTransfer(feed: Feed, events: Events, t: R.Transfer) {
    exists k :: k in events && TransferOf(feed, k, events[k]) == Some(t)
  }

  /** Each key's row is listed, as often as the key. */
  lemma {:induction false} RowsAtOnce(feed: Feed, events: Events, keys: seq<N.RowKey>, row: I.EventRow)
    requires forall k :: k in keys ==> k in events
    ensures multiset(RowsAt(feed, events, keys))[row] == if IsRow(feed, events, row) then multiset(keys)[Name(row)] else 0
  {
    if keys != [] {
      var init, last := keys[..|keys| - 1], keys[|keys| - 1];
      assert keys == init + [last];
      RowsAtOnce(feed, events, init, row);
    }
  }

  lemma {:induction false} TransfersAtMembers(feed: Feed, events: Events, keys: seq<N.RowKey>, t: R.Transfer)
    requires forall k :: k in keys ==> k in events
    ensures t in TransfersAt(feed, events, keys) <==> exists k :: k in keys && TransferOf(feed, k, events[k]) == Some(t)
  {
    if keys != [] {
      var init, last := keys[..|keys| - 1], keys[|keys| - 1];
      assert keys == init + [last];
      TransfersAtMembers(feed, events, init, t);
    }
  }

  /** Where block and index name one key, no transfer is listed twice. */
  lemma {:induction false} TransfersAtOnce(feed: Feed, events: Events, keys: seq<N.RowKey>, t: R.Transfer)
    requires forall k :: k in keys ==> k in events
    requires forall k1, k2 :: k1 in keys && k2 in keys && k1.block == k2.block && k1.index == k2.index ==> k1 == k2
    requires forall k :: multiset(keys)[k] <= 1
    ensures multiset(TransfersAt(feed, events, keys))[t] <= 1
  {
    if keys != [] {
      var init, last := keys[..|keys| - 1], keys[|keys| - 1];
      assert keys == init + [last];
      forall k
        ensures multiset(init)[k] <= 1
      {
        assert multiset(keys)[k] == multiset(init)[k] + multiset([last])[k];
      }
      TransfersAtOnce(feed, events, init, t);
      if TransferOf(feed, last, events[last]) == Some(t) {
        TransfersAtMembers(feed, events, init, t);
        assert multiset(keys)[last] == multiset(init)[last] + 1;
      }
    }
  }

  ghost function NewKeys(before: N.Db, after: N.Db): set<N.RowKey> {
    after.events.Keys - before.events.Keys
  }

  ghost function RowBatch(feed: Feed, before: N.Db, after: N.Db): I.Batch
    requires after.cursor.Some?
  {
    I.Batch(after.cursor.value, RowsAt(feed, after.events, Listed(NewKeys(before, after))))
  }

  ghost function TransferBatch(feed: Feed, before: N.Db, after: N.Db): R.Batch
    requires after.cursor.Some?
  {
    R.Batch(after.cursor.value, TransfersAt(feed, after.events, Listed(NewKeys(before, after))),
            map b | b in after.blocks - before.blocks :: feed.dayOf(b))
  }

  // ----- the stages' tables are ingest's ---------------------------------------------------------

  /** The loop's rows are the event rows, each once. */
  ghost predicate SeesRows(feed: Feed, n: N.Db, db: I.Db) {
    && db.cursor == n.cursor
    && forall row: I.EventRow :: multiset(db.rows)[row] == if IsRow(feed, n.events, row) then 1 else 0
  }

  /** The rollup's transfers are those among the event rows, each once, and its blocks are the _blocks rows. */
  ghost predicate SeesTransfers(feed: Feed, n: N.Db, db: R.Db) {
    && db.cursor == n.cursor
    && (forall t: R.Transfer :: t in db.transfers <==> IsTransfer(feed, n.events, t))
    && (forall t: R.Transfer :: multiset(db.transfers)[t] <= 1)
    && db.blocks.Keys == n.blocks && forall b :: b in db.blocks ==> db.blocks[b] == feed.dayOf(b)
  }

  lemma NewRow(feed: Feed, before: N.Db, after: N.Db, row: I.EventRow)
    requires after.cursor.Some? && row in RowBatch(feed, before, after).rows
    ensures Name(row) in after.events && Name(row) !in before.events && row == RowOf(feed, Name(row), after.events[Name(row)])
  {
    RowsAtOnce(feed, after.events, Listed(NewKeys(before, after)), row);
    assert multiset(RowBatch(feed, before, after).rows)[row] > 0;
  }

  lemma RowBatchFollows(w: World, feed: Feed, before: N.Db, after: N.Db, db: I.Db)
    requires N.ValidChain(w.chain) && Written(w, after) && Adds(before, after) && after.cursor.Some?
    requires SeesRows(feed, before, db)
    ensures I.Follows(db, RowBatch(feed, before, after))
  {
    var rows := RowBatch(feed, before, after).rows;
    forall row | row in rows
      ensures Reached(before) < row.block <= Reached(after)
    {
      NewRow(feed, before, after, row);
    }
    forall r1, r2 | r1 in rows && r2 in rows && I.KeyOf(r1) == I.KeyOf(r2)
      ensures r1 == r2
    {
      NewRow(feed, before, after, r1);
      NewRow(feed, before, after, r2);
      KeysAreUnique(w, Name(r1), after.events[Name(r1)], Name(r2), after.events[Name(r2)]);
    }
  }

  lemma RowBatchSeen(feed: Feed, before: N.Db, after: N.Db, db: I.Db)
    requires Adds(before, after) && after.cursor.Some? && SeesRows(feed, before, db)
    ensures SeesRows(feed, after, I.Ingest(db, RowBatch(feed, before, after)))
  {
    var keys, rows := Listed(NewKeys(before, after)), RowBatch(feed, before, after).rows;
    forall row: I.EventRow
      ensures multiset(db.rows + rows)[row] == if IsRow(feed, after.events, row) then 1 else 0
    {
      RowsAtOnce(feed, after.events, keys, row);
      assert Name(row) in keys <==> multiset(keys)[Name(row)] > 0;
      assert multiset(db.rows + rows)[row] == multiset(db.rows)[row] + multiset(rows)[row];
    }
  }

  lemma TransferBatchFollows(w: World, feed: Feed, before: N.Db, after: N.Db, db: R.Db)
    requires Written(w, before) && Written(w, after) && Adds(before, after) && after.cursor.Some?
    requires SeesTransfers(feed, before, db)
    ensures R.Follows(db, TransferBatch(feed, before, after))
  {
    var keys, batch := Listed(NewKeys(before, after)), TransferBatch(feed, before, after);
    forall t | t in batch.transfers
      ensures t.block in batch.blocks
    {
      TransfersAtMembers(feed, after.events, keys, t);
      var k :| k in keys && TransferOf(feed, k, after.events[k]) == Some(t);
      assert k.block in after.blocks && k.block !in before.blocks;
    }
  }

  /** The rows added name no transfer twice. */
  lemma NewTransferOnce(w: World, feed: Feed, before: N.Db, after: N.Db, t: R.Transfer)
    requires N.ValidChain(w.chain) && Written(w, after) && after.cursor.Some?
    ensures multiset(TransferBatch(feed, before, after).transfers)[t] <= 1
  {
    var keys := Listed(NewKeys(before, after));
    forall k1, k2 | k1 in keys && k2 in keys && k1.block == k2.block && k1.index == k2.index
      ensures k1 == k2
    {
      KeysAreUnique(w, k1, after.events[k1], k2, after.events[k2]);
    }
    TransfersAtOnce(feed, after.events, keys, t);
  }

  /** Nor one that was there, which lies behind the cursor. */
  lemma NewTransferIsNew(w: World, feed: Feed, before: N.Db, after: N.Db, t: R.Transfer)
    requires Written(w, before) && Adds(before, after) && after.cursor.Some?
    ensures t in TransferBatch(feed, before, after).transfers ==> t.block > Reached(before)
    ensures IsTransfer(feed, before.events, t) ==> t.block <= Reached(before)
  {
    TransfersAtMembers(feed, after.events, Listed(NewKeys(before, after)), t);
  }

  /** What is a transfer now was one before, or was added. */
  lemma TransfersGrow(feed: Feed, before: N.Db, after: N.Db, t: R.Transfer)
    requires Adds(before, after) && after.cursor.Some?
    ensures IsTransfer(feed, after.events, t) <==>
            IsTransfer(feed, before.events, t) || t in TransferBatch(feed, before, after).transfers
  {
    var keys := Listed(NewKeys(before, after));
    TransfersAtMembers(feed, after.events, keys, t);
    if IsTransfer(feed, before.events, t) {
      var k :| k in before.events && TransferOf(feed, k, before.events[k]) == Some(t);
      assert TransferOf(feed, k, after.events[k]) == Some(t);
    }
    if IsTransfer(feed, after.events, t) {
      var k :| k in after.events && TransferOf(feed, k, after.events[k]) == Some(t);
      if k in before.events {
        assert TransferOf(feed, k, before.events[k]) == Some(t);
      } else {
        assert k in keys;
      }
    }
  }

  lemma OnceInBoth<T>(a: seq<T>, b: seq<T>, x: T)
    requires multiset(a)[x] <= 1 && multiset(b)[x] <= 1 && !(x in a && x in b)
    ensures multiset(a + b)[x] <= 1 && (x in a + b <==> x in a || x in b)
  {
    assert (x in a <==> multiset(a)[x] > 0) && (x in b <==> multiset(b)[x] > 0);
    assert multiset(a + b)[x] == multiset(a)[x] + multiset(b)[x];
  }

  lemma TransferSeen(w: World, feed: Feed, before: N.Db, after: N.Db, transfers: seq<R.Transfer>, t: R.Transfer)
    requires N.ValidChain(w.chain) && Written(w, before) && Written(w, after) && Adds(before, after) && after.cursor.Some?
    requires (t in transfers <==> IsTransfer(feed, before.events, t)) && multiset(transfers)[t] <= 1
    ensures var all := transfers + TransferBatch(feed, before, after).transfers;
            (t in all <==> IsTransfer(feed, after.events, t)) && multiset(all)[t] <= 1
  {
    NewTransferOnce(w, feed, before, after, t);
    NewTransferIsNew(w, feed, before, after, t);
    TransfersGrow(feed, before, after, t);
    OnceInBoth(transfers, TransferBatch(feed, before, after).transfers, t);
  }

  lemma BlocksSeen(feed: Feed, before: N.Db, after: N.Db, blocks: map<nat, R.Day>)
    requires Adds(before, after) && after.cursor.Some?
    requires blocks.Keys == before.blocks && forall b :: b in blocks ==> blocks[b] == feed.dayOf(b)
    ensures var all := blocks + TransferBatch(feed, before, after).blocks;
            all.Keys == after.blocks && forall b :: b in all ==> all[b] == feed.dayOf(b)
  {
    assert before.blocks + (after.blocks - before.blocks) == after.blocks;
  }

  lemma TransferBatchSeen(w: World, feed: Feed, before: N.Db, after: N.Db, db: R.Db)
    requires N.ValidChain(w.chain) && Written(w, before) && Written(w, after) && Adds(before, after) && after.cursor.Some?
    requires SeesTransfers(feed, before, db)
    ensures SeesTransfers(feed, after, R.Ingest(db, TransferBatch(feed, before, after)))
  {
    forall t: R.Transfer
      ensures var all := db.transfers + TransferBatch(feed, before, after).transfers;
              (t in all <==> IsTransfer(feed, after.events, t)) && multiset(all)[t] <= 1
    {
      TransferSeen(w, feed, before, after, db.transfers, t);
    }
    BlocksSeen(feed, before, after, db.blocks);
  }

  // ----- the stages side by side -----------------------------------------------------------------

  /** `began` is where lanes began. */
  datatype State = State(ingest: N.State, insights: I.State, began: Option<int>, rollup: R.System)

  datatype Event = OfIngest(ingest: N.Event) | OfInsights(insights: I.Event) | OfRollup(i: nat, op: R.Op)

  ghost predicate Possible(w: World, s: State, e: Event) {
    match e
    case OfIngest(n) => N.Honest(w.cfg, w.chain, s.ingest, n)
    case OfInsights(i) => !i.Ingested?
    case OfRollup(i, op) => R.Possible(s.rollup, R.Ran(i, op))
  }

  /** An ingest event reaches the other stages as what it added, once there is a cursor. */
  ghost function Fed(feed: Feed, setup: I.Setup, s: State, n: N.State): State {
    if n.db.cursor.None? then s.(ingest := n)
    else
      State(n, I.Step(setup, s.insights, I.Ingested(RowBatch(feed, s.ingest.db, n.db))), s.began,
            R.Step(s.rollup, R.Ingested(TransferBatch(feed, s.ingest.db, n.db))))
  }

  ghost function Step(w: World, feed: Feed, setup: I.Setup, s: State, e: Event): State
    requires Known(w)
  {
    match e
    case OfIngest(n) => Fed(feed, setup, s, N.Step(w.cfg, w.decode, s.ingest, n))
    case OfInsights(i) =>
      var after := I.Step(setup, s.insights, i);
      s.(insights := after, began := I.Began(s.began, after))
    case OfRollup(i, op) => s.(rollup := R.Step(s.rollup, R.Ran(i, op)))
  }

  ghost predicate Legal(w: World, feed: Feed, setup: I.Setup, s: State, es: seq<Event>)
    requires Known(w)
    decreases |es|
  {
    es == [] || (Possible(w, s, es[0]) && Legal(w, feed, setup, Step(w, feed, setup, s, es[0]), es[1..]))
  }

  ghost function Run(w: World, feed: Feed, setup: I.Setup, s: State, es: seq<Event>): State
    requires Known(w)
    decreases |es|
  {
    if es == [] then s else Run(w, feed, setup, Step(w, feed, setup, s, es[0]), es[1..])
  }

  ghost predicate Sound(w: World, feed: Feed, setup: I.Setup, s: State) {
    && S.ValidSizer(s.ingest.sizer) && Written(w, s.ingest.db)
    && SeesRows(feed, s.ingest.db, s.insights.db) && I.Sound(setup, s.insights, s.began)
    && SeesTransfers(feed, s.ingest.db, s.rollup.db) && R.Sound(s.rollup)
  }

  /** Before anything ran. */
  ghost predicate Fresh(w: World, s: State) {
    s.ingest == N.Start(w.cfg) && s.insights == I.Fresh() && s.began.None? && R.Fresh(s.rollup)
  }

  lemma FreshSound(w: World, feed: Feed, setup: I.Setup, s: State)
    requires Known(w) && Fresh(w, s)
    ensures Sound(w, feed, setup, s)
  {
    assert forall t: R.Transfer :: multiset(s.rollup.db.transfers)[t] == 0;
  }

  /** The insight loop leaves ingest's tables alone. */
  lemma LoopReadsOnly(setup: I.Setup, s: I.State, e: I.Event)
    requires !e.Ingested?
    ensures I.Step(setup, s, e).db.cursor == s.db.cursor && I.Step(setup, s, e).db.rows == s.db.rows
  {
  }

  /** And so do the rollup's statements. */
  lemma RollupReadsOnly(s: R.System, i: nat, op: R.Op)
    ensures var db := R.Step(s, R.Ran(i, op)).db;
            db.cursor == s.db.cursor && db.transfers == s.db.transfers && db.blocks == s.db.blocks
  {
  }

  lemma FedSound(w: World, feed: Feed, setup: I.Setup, s: State, n: N.State)
    requires Known(w) && I.ValidSetup(setup) && Sound(w, feed, setup, s)
    requires S.ValidSizer(n.sizer) && Written(w, n.db) && Adds(s.ingest.db, n.db)
    ensures Sound(w, feed, setup, Fed(feed, setup, s, n))
  {
    if n.db.cursor.Some? {
      RowBatchFollows(w, feed, s.ingest.db, n.db, s.insights.db);
      RowBatchSeen(feed, s.ingest.db, n.db, s.insights.db);
      I.IngestSound(setup, s.insights, s.began, RowBatch(feed, s.ingest.db, n.db));
      TransferBatchFollows(w, feed, s.ingest.db, n.db, s.rollup.db);
      TransferBatchSeen(w, feed, s.ingest.db, n.db, s.rollup.db);
      R.StepSound(s.rollup, R.Ingested(TransferBatch(feed, s.ingest.db, n.db)));
    }
  }

  lemma StepSound(w: World, feed: Feed, setup: I.Setup, s: State, e: Event)
    requires Known(w) && I.ValidSetup(setup) && Sound(w, feed, setup, s) && Possible(w, s, e)
    ensures Sound(w, feed, setup, Step(w, feed, setup, s, e))
  {
    match e {
      case OfIngest(n) =>
        StepAdds(w, s.ingest, n);
        FedSound(w, feed, setup, s, N.Step(w.cfg, w.decode, s.ingest, n));
      case OfInsights(i) =>
        LoopReadsOnly(setup, s.insights, i);
        I.StepSound(setup, s.insights, s.began, i);
      case OfRollup(i, op) =>
        RollupReadsOnly(s.rollup, i, op);
        R.StepSound(s.rollup, R.Ran(i, op));
    }
  }

  lemma {:induction false} SoundRun(w: World, feed: Feed, setup: I.Setup, s: State, es: seq<Event>)
    requires Known(w) && I.ValidSetup(setup) && Sound(w, feed, setup, s) && Legal(w, feed, setup, s, es)
    ensures Sound(w, feed, setup, Run(w, feed, setup, s, es))
    decreases |es|
  {
    if es != [] {
      StepSound(w, feed, setup, s, es[0]);
      SoundRun(w, feed, setup, Step(w, feed, setup, s, es[0]), es[1..]);
    }
  }

  lemma {:induction false} RunEnds(w: World, feed: Feed, setup: I.Setup, s: State, es: seq<Event>, e: Event)
    requires Known(w)
    ensures Run(w, feed, setup, s, es + [e]) == Step(w, feed, setup, Run(w, feed, setup, s, es), e)
    decreases |es|
  {
    if es == [] {
      assert [e][1..] == [];
      assert [] + [e] == [e];
    } else {
      assert (es + [e])[1..] == es[1..] + [e];
      RunEnds(w, feed, setup, Step(w, feed, setup, s, es[0]), es[1..], e);
    }
  }

  /** An event moves its own stage by that stage's step, and no other; ingest's rows also reach the others' tables, nothing else of theirs. */
  lemma EventsAct(w: World, feed: Feed, setup: I.Setup, s: State, es: seq<Event>, e: Event, was: State, now: State)
    requires Known(w) && was == Run(w, feed, setup, s, es) && now == Run(w, feed, setup, s, es + [e])
    ensures now.ingest == if e.OfIngest? then N.Step(w.cfg, w.decode, was.ingest, e.ingest) else was.ingest
    ensures e.OfInsights? ==> now.insights == I.Step(setup, was.insights, e.insights) && now.rollup == was.rollup
    ensures e.OfRollup? ==> now.rollup == R.Step(was.rollup, R.Ran(e.i, e.op)) && now.insights == was.insights && now.began == was.began
    ensures e.OfIngest? ==>
              && now.insights.round == was.insights.round && now.insights.db.insights == was.insights.db.insights
              && now.insights.db.insightsCursor == was.insights.db.insightsCursor && now.began == was.began
              && now.rollup.replicas == was.rollup.replicas && now.rollup.db.daily == was.rollup.db.daily
              && now.rollup.db.rolled == was.rollup.db.rolled && now.rollup.db.lock == was.rollup.db.lock
  {
    RunEnds(w, feed, setup, s, es, e);
  }

  // ----- from the event tables -------------------------------------------------------------------

  /** The row's insight is there. */
  ghost predicate Labelled(setup: I.Setup, feed: Feed, k: N.RowKey, columns: N.Columns, insights: map<I.Key, I.Insight>) {
    var key := I.Key(k.block, k.index);
    key in insights && I.IsInsightOf(setup, RowOf(feed, k, columns), insights[key])
  }

  /** _insights holds one insight for each event row of (start, done], and nothing else. */
  ghost predicate LabelsTables(setup: I.Setup, feed: Feed, events: Events, start: int, done: int, insights: map<I.Key, I.Insight>) {
    && (forall k :: k in events && start < k.block <= done ==> Labelled(setup, feed, k, events[k], insights))
    && (forall i :: i in insights ==> exists k :: k in events && I.Key(k.block, k.index) == i && start < k.block <= done)
  }

  lemma SeenRow(feed: Feed, n: N.Db, db: I.Db, row: I.EventRow)
    requires SeesRows(feed, n, db)
    ensures row in db.rows <==> IsRow(feed, n.events, row)
  {
    assert row in db.rows <==> multiset(db.rows)[row] > 0;
  }

  lemma CoversTables(setup: I.Setup, feed: Feed, n: N.Db, db: I.Db, start: int, done: int)
    requires SeesRows(feed, n, db) && I.Covers(setup, db.rows, start, done, db.insights)
    ensures LabelsTables(setup, feed, n.events, start, done, db.insights)
  {
    forall k | k in n.events && start < k.block <= done
      ensures Labelled(setup, feed, k, n.events[k], db.insights)
    {
      SeenRow(feed, n, db, RowOf(feed, k, n.events[k]));
    }
    forall i | i in db.insights
      ensures exists k :: k in n.events && I.Key(k.block, k.index) == i && start < k.block <= done
    {
      var row :| row in db.rows && I.KeyOf(row) == i && start < row.block <= done;
      SeenRow(feed, n, db, row);
      assert Name(row) in n.events;
    }
  }

  /**
   On ingest's own rounds, whatever they let escape: _insights holds one insight for each row of the event
   tables from where lanes began to the insights cursor, and nothing else; the loop never runs ahead.
   */
  lemma InsightsCoverTheTables(w: World, feed: Feed, setup: I.Setup, s: State, es: seq<Event>, s': State)
    requires Known(w) && I.ValidSetup(setup) && Fresh(w, s) && Legal(w, feed, setup, s, es)
    requires s' == Run(w, feed, setup, s, es) && s'.insights.db.insightsCursor.Some?
    ensures var db, done := s'.insights.db, s'.insights.db.insightsCursor.value;
            && s'.began.Some? && s'.began.value <= done <= Max(s'.began.value, Reached(s'.ingest.db))
            && LabelsTables(setup, feed, s'.ingest.db.events, s'.began.value, done, db.insights)
  {
    FreshSound(w, feed, setup, s);
    SoundRun(w, feed, setup, s, es);
    CoversTables(setup, feed, s'.ingest.db, s'.insights.db, s'.began.value, s'.insights.db.insightsCursor.value);
  }

  /**
   And address_daily is the fold from scratch, up to the rollup's cursor, of the transfers in the event
   tables, each once; so what was received in it is what was sent.
   */
  lemma TotalsCoverTheTables(w: World, feed: Feed, setup: I.Setup, s: State, es: seq<Event>, s': State)
    requires Known(w) && I.ValidSetup(setup) && Fresh(w, s) && Legal(w, feed, setup, s, es)
    requires s' == Run(w, feed, setup, s, es)
    ensures var db := s'.rollup.db;
            && SeesTransfers(feed, s'.ingest.db, db) && R.RolledTo(db) <= Max(Reached(s'.ingest.db), -1)
            && db.daily == R.Grouped(db.transfers, db.blocks, -1, R.RolledTo(db))
            && R.Column(db.daily, true) == R.Column(db.daily, false) == R.Transferred(db.transfers, db.blocks, -1, R.RolledTo(db))
  {
    FreshSound(w, feed, setup, s);
    SoundRun(w, feed, setup, s, es);
    var db := s'.rollup.db;
    R.FoldConserves(db.transfers, db.blocks, -1, R.RolledTo(db), true);
    R.FoldConserves(db.transfers, db.blocks, -1, R.RolledTo(db), false);
  }

  // ----- from the chain --------------------------------------------------------------------------

  /** Nothing escapes any committed ingest round of the run. */
  ghost predicate AllCovered(w: World, feed: Feed, setup: I.Setup, s: State, es: seq<Event>)
    requires Known(w)
    decreases |es|
  {
    es == [] ||
    ((es[0].OfIngest? ==> N.CoversRound(w.cfg, w.decode, w.chain, s.ingest, es[0].ingest)) &&
     AllCovered(w, feed, setup, Step(w, feed, setup, s, es[0]), es[1..]))
  }

  lemma {:induction false} ExactRun(w: World, feed: Feed, setup: I.Setup, s: State, es: seq<Event>)
    requires Known(w) && Legal(w, feed, setup, s, es) && AllCovered(w, feed, setup, s, es)
    requires N.Sound(w.cfg, w.decode, w.chain, s.ingest)
    ensures N.Sound(w.cfg, w.decode, w.chain, Run(w, feed, setup, s, es).ingest)
    decreases |es|
  {
    if es != [] {
      if es[0].OfIngest? { N.StepSound(w.cfg, w.decode, w.chain, s.ingest, es[0].ingest); }
      ExactRun(w, feed, setup, Step(w, feed, setup, s, es[0]), es[1..]);
    }
  }

  /** Where nothing escapes, the event tables are the chain's decodable tracked logs up to the cursor. */
  lemma TablesAreTheChain(w: World, feed: Feed, setup: I.Setup, s: State, es: seq<Event>, s': State)
    requires Known(w) && Fresh(w, s) && Legal(w, feed, setup, s, es) && AllCovered(w, feed, setup, s, es)
    requires s' == Run(w, feed, setup, s, es)
    ensures N.RowsExact(w.cfg, w.decode, w.chain, -1, Reached(s'.ingest.db), s'.ingest.db.events)
  {
    ExactRun(w, feed, setup, s, es);
    if s'.ingest.db.cursor.Some? {
      N.ExactFromStart(w.cfg, w.decode, w.chain, s'.ingest.db.cursor.value, s'.ingest.db);
    }
  }

  /** A decodable tracked log of (lo, hi] has this key. */
  ghost predicate LogAt(w: World, lo: int, hi: int, i: I.Key) {
    exists log: N.Log, row ::
      N.Becomes(w.cfg, w.decode, w.chain, log, row) && log.block == i.block && log.index == i.index && lo < log.block <= hi
  }

  /**
   Each decodable tracked log of (start, done], as far as ingest has come, has its insight, and every
   insight is such a log's.
   */
  ghost predicate LabelsChain(w: World, setup: I.Setup, feed: Feed, start: int, done: int, ingested: int, insights: map<I.Key, I.Insight>) {
    && (forall log: N.Log, row ::
          N.Becomes(w.cfg, w.decode, w.chain, log, row) && start < log.block <= Min(done, ingested) ==>
            row.key.block == log.block && row.key.index == log.index && Labelled(setup, feed, row.key, row.columns, insights))
    && (forall i :: i in insights ==> LogAt(w, start, Min(done, ingested), i))
  }

  lemma LogLabelled(w: World, setup: I.Setup, feed: Feed, events: Events, start: int, done: int, ingested: int,
                    insights: map<I.Key, I.Insight>, log: N.Log, row: N.Row)
    requires LabelsTables(setup, feed, events, start, done, insights)
    requires N.RowsExact(w.cfg, w.decode, w.chain, -1, ingested, events)
    requires N.Becomes(w.cfg, w.decode, w.chain, log, row) && start < log.block <= Min(done, ingested)
    ensures row.key.block == log.block && row.key.index == log.index && Labelled(setup, feed, row.key, row.columns, insights)
  {
    assert row.key in events && events[row.key] == row.columns;
  }

  lemma RowHasLog(w: World, events: Events, ingested: int, k: N.RowKey, lo: int, hi: int)
    requires N.RowsExact(w.cfg, w.decode, w.chain, -1, ingested, events)
    requires k in events && lo < k.block <= hi
    ensures LogAt(w, lo, Min(hi, ingested), I.Key(k.block, k.index))
  {
    var log: N.Log :| N.Becomes(w.cfg, w.decode, w.chain, log, N.Row(k, events[k])) && log.block <= ingested;
  }

  lemma InsightHasRow(setup: I.Setup, feed: Feed, events: Events, start: int, done: int, insights: map<I.Key, I.Insight>, i: I.Key)
    returns (k: N.RowKey)
    requires LabelsTables(setup, feed, events, start, done, insights) && i in insights
    ensures k in events && I.Key(k.block, k.index) == i && start < k.block <= done
  {
    k :| k in events && I.Key(k.block, k.index) == i && start < k.block <= done;
  }

  lemma TablesToChain(w: World, setup: I.Setup, feed: Feed, events: Events, start: int, done: int, ingested: int,
                      insights: map<I.Key, I.Insight>)
    requires LabelsTables(setup, feed, events, start, done, insights)
    requires N.RowsExact(w.cfg, w.decode, w.chain, -1, ingested, events)
    ensures LabelsChain(w, setup, feed, start, done, ingested, insights)
  {
    forall log: N.Log, row: N.Row | N.Becomes(w.cfg, w.decode, w.chain, log, row) && start < log.block <= Min(done, ingested)
      ensures row.key.block == log.block && row.key.index == log.index && Labelled(setup, feed, row.key, row.columns, insights)
    {
      LogLabelled(w, setup, feed, events, start, done, ingested, insights, log, row);
    }
    forall i | i in insights
      ensures LogAt(w, start, Min(done, ingested), i)
    {
      var k := InsightHasRow(setup, feed, events, start, done, insights, i);
      RowHasLog(w, events, ingested, k, start, done);
    }
  }

  /** From the chain to the labels, where nothing escapes ingest. */
  lemma LogsAreLabelled(w: World, feed: Feed, setup: I.Setup, s: State, es: seq<Event>, s': State)
    requires Known(w) && I.ValidSetup(setup) && Fresh(w, s) && Legal(w, feed, setup, s, es) && AllCovered(w, feed, setup, s, es)
    requires s' == Run(w, feed, setup, s, es) && s'.insights.db.insightsCursor.Some?
    ensures s'.began.Some?
    ensures LabelsChain(w, setup, feed, s'.began.value, s'.insights.db.insightsCursor.value, Reached(s'.ingest.db), s'.insights.db.insights)
  {
    InsightsCoverTheTables(w, feed, setup, s, es, s');
    TablesAreTheChain(w, feed, setup, s, es, s');
    TablesToChain(w, setup, feed, s'.ingest.db.events, s'.began.value, s'.insights.db.insightsCursor.value,
                  Reached(s'.ingest.db), s'.insights.db.insights);
  }

  /** From the chain to the totals: where nothing escapes ingest, what is folded is exactly the chain's transfers. */
  lemma TransfersAreTheChains(w: World, feed: Feed, setup: I.Setup, s: State, es: seq<Event>, s': State, t: R.Transfer)
    requires Known(w) && I.ValidSetup(setup) && Fresh(w, s) && Legal(w, feed, setup, s, es) && AllCovered(w, feed, setup, s, es)
    requires s' == Run(w, feed, setup, s, es)
    ensures t in s'.rollup.db.transfers <==>
            exists log: N.Log, row ::
              N.Becomes(w.cfg, w.decode, w.chain, log, row) && log.block <= Reached(s'.ingest.db) &&
              TransferOf(feed, row.key, row.columns) == Some(t)
    ensures multiset(s'.rollup.db.transfers)[t] <= 1
  {
    TotalsCoverTheTables(w, feed, setup, s, es, s');
    TablesAreTheChain(w, feed, setup, s, es, s');
    var events := s'.ingest.db.events;
    if IsTransfer(feed, events, t) {
      var k :| k in events && TransferOf(feed, k, events[k]) == Some(t);
      var log: N.Log :| N.Becomes(w.cfg, w.decode, w.chain, log, N.Row(k, events[k])) && log.block <= Reached(s'.ingest.db);
      assert TransferOf(feed, N.Row(k, events[k]).key, N.Row(k, events[k]).columns) == Some(t);
    }
    if log: N.Log, row :| N.Becomes(w.cfg, w.decode, w.chain, log, row) && log.block <= Reached(s'.ingest.db) &&
                          TransferOf(feed, row.key, row.columns) == Some(t) {
      assert row.key in events && events[row.key] == row.columns;
    }
  }

  // ----- the partitions of ingest's rows ---------------------------------------------------------

  function PartRows(rows: seq<N.Row>): (parts: seq<P.Row>)
    ensures |parts| == |rows|
  {
    seq(|rows|, i requires 0 <= i < |rows| => P.Row(rows[i].key.table, rows[i].key.block))
  }

  function EndingOf(ending: N.Ending): P.Ending {
    match ending case Committed => P.Done case RolledBack => P.RolledBack case ReplyLost => P.ReplyLost
  }

  /** The round gets as far as its transaction. */
  predicate Tries(s: N.State, r: N.Round) {
    && N.Planned(s, r).Some? && r.fetch.Fetched? && r.timesRead
    && !(N.Planned(s, r).value.1 && r.fetch.queryHead < N.Planned(s, r).value.0.fromBlock)
  }

  /** What an ingest event is to the partitions: a process starts with none known, a transaction is tried, or nothing. */
  function PartitionEvents(w: World, s: N.State, e: N.Event): seq<P.Event> {
    match e
    case Booted => [P.Restarted]
    case Ran(r) =>
      if Tries(s, r) then
        var (range, guarded) := N.Planned(s, r).value;
        [P.Tried(PartRows(N.RowsOf(w.cfg, w.decode, N.Kept(range, guarded, r.fetch))), N.Safe(range, guarded, r.fetch), EndingOf(r.ending))]
      else []
  }

  function PartitionRun(w: World, size: nat, s: N.State, p: P.State, es: seq<N.Event>): P.State
    requires size > 0 && w.cfg.contracts != []
    decreases |es|
  {
    if es == [] then p
    else PartitionRun(w, size, N.Step(w.cfg, w.decode, s, es[0]), P.Run(size, p, PartitionEvents(w, s, es[0])), es[1..])
  }

  /** The cursor as the partitions' batches left it; before ingest has one, where it will begin. */
  predicate SameCursor(w: World, db: N.Db, p: P.Db)
    requires w.cfg.contracts != []
  {
    p.cursor == if db.cursor.Some? then db.cursor.value else N.InitialCursor(w.cfg)
  }

  /** Where a round that tries starts and ends, and what becomes of the cursor. */
  lemma TriesCursor(w: World, s: N.State, r: N.Round)
    requires S.ValidSizer(s.sizer) && Tries(s, r)
    ensures var (range, guarded) := N.Planned(s, r).value;
            && s.db.cursor == Some(range.fromBlock - 1) && range.fromBlock <= N.Safe(range, guarded, r.fetch)
            && N.RunOnce(w.cfg, w.decode, s, r).0.db.cursor
               == if r.ending.RolledBack? then s.db.cursor else Some(N.Safe(range, guarded, r.fetch))
  {
    N.RoundCases(w.cfg, w.decode, s, r);
    N.RoundCases(w.cfg, w.decode, s, r.(ending := N.Committed));
  }

  lemma PartRowsPast(w: World, lo: int, hi: int, kept: seq<N.Log>)
    requires N.ValidChain(w.chain) && Next(w, lo, hi, kept)
    ensures forall x :: x in PartRows(N.RowsOf(w.cfg, w.decode, kept)) ==> lo < x.block <= hi
  {
    var rows := N.RowsOf(w.cfg, w.decode, kept);
    NextRows(w, lo, hi, kept);
    forall x | x in PartRows(rows)
      ensures lo < x.block <= hi
    {
      var i :| 0 <= i < |rows| && PartRows(rows)[i] == x;
      assert rows[i] in rows;
    }
  }

  /** A round's batch is one the partitions rely on: rows past the cursor, up to the next. */
  lemma RoundIsBatch(w: World, size: nat, s: N.State, r: N.Round, p: P.State)
    requires Known(w) && size > 0 && S.ValidSizer(s.sizer) && N.Honest(w.cfg, w.chain, s, N.Ran(r)) && Tries(s, r)
    requires SameCursor(w, s.db, p.db)
    ensures var e := PartitionEvents(w, s, N.Ran(r))[0];
            P.Legal(p, e) && SameCursor(w, N.Step(w.cfg, w.decode, s, N.Ran(r)).db, P.Step(size, p, e).db)
  {
    var (range, guarded) := N.Planned(s, r).value;
    TriesCursor(w, s, r);
    KeptIsNext(w, s, r);
    PartRowsPast(w, range.fromBlock - 1, N.Safe(range, guarded, r.fetch), N.Kept(range, guarded, r.fetch));
  }

  lemma StepFeedsPartitions(w: World, size: nat, s: N.State, e: N.Event, p: P.State)
    requires Known(w) && size > 0 && S.ValidSizer(s.sizer) && N.Honest(w.cfg, w.chain, s, e)
    requires SameCursor(w, s.db, p.db) && P.Sound(size, p)
    ensures var p' := P.Run(size, p, PartitionEvents(w, s, e));
            SameCursor(w, N.Step(w.cfg, w.decode, s, e).db, p'.db) && P.Sound(size, p')
  {
    var events := PartitionEvents(w, s, e);
    if e.Booted? {
      PartitionStep(size, p, events);
    } else if Tries(s, e.round) {
      RoundIsBatch(w, size, s, e.round, p);
      PartitionStep(size, p, events);
    } else {
      N.RoundCases(w.cfg, w.decode, s, e.round);
    }
  }

  lemma PartitionStep(size: nat, p: P.State, events: seq<P.Event>)
    requires size > 0 && P.Sound(size, p) && |events| == 1 && P.Legal(p, events[0])
    ensures P.Run(size, p, events) == P.Step(size, p, events[0]) && P.Sound(size, P.Step(size, p, events[0]))
  {
    assert P.Run(size, P.Step(size, p, events[0]), events[1..]) == P.Step(size, p, events[0]);
    P.StepSound(size, p, events[0]);
  }

  lemma {:induction false} PartitionsFed(w: World, size: nat, s: N.State, es: seq<N.Event>, p: P.State)
    requires Known(w) && size > 0 && S.ValidSizer(s.sizer) && N.Legal(w.cfg, w.decode, w.chain, s, es)
    requires SameCursor(w, s.db, p.db) && P.Sound(size, p)
    ensures P.Sound(size, PartitionRun(w, size, s, p, es))
    ensures SameCursor(w, N.Run(w.cfg, w.decode, s, es).db, PartitionRun(w, size, s, p, es).db)
    ensures S.ValidSizer(N.Run(w.cfg, w.decode, s, es).sizer)
    decreases |es|
  {
    if es != [] {
      StepFeedsPartitions(w, size, s, es[0], p);
      if es[0].Ran? { N.SizerStays(w.cfg, w.decode, s, es[0].round); }
      PartitionsFed(w, size, N.Step(w.cfg, w.decode, s, es[0]), es[1..], P.Run(size, p, PartitionEvents(w, s, es[0])));
    }
  }

  /**
   On ingest's own rounds, whatever they let escape: every row lies in a partition that exists, and only in
   that one; no process reports a partition finished twice; and what the next round writes is in none that
   any process reported.
   */
  lemma RowsHaveTheirPartitions(w: World, size: nat, es: seq<N.Event>, s: N.State, p: P.State, r: N.Round)
    requires Known(w) && size > 0 && N.Legal(w.cfg, w.decode, w.chain, N.Start(w.cfg), es)
    requires s == N.Run(w.cfg, w.decode, N.Start(w.cfg), es)
    requires p == PartitionRun(w, size, N.Start(w.cfg), P.Fresh(N.InitialCursor(w.cfg)), es)
    requires N.Honest(w.cfg, w.chain, s, N.Ran(r))
    ensures forall row, n: nat :: row in p.db.rows && P.Holds(n, size, row.block) ==> P.Part(row.table, n) in p.db.existing
    ensures P.Once(p.mem.reported)
    ensures Tries(s, r) ==>
              forall row :: row in P.Written(PartitionEvents(w, s, N.Ran(r))[0].rows) ==>
                P.Part(row.table, P.PartitionOf(row.block, size)) !in p.db.ever
  {
    PartitionsFed(w, size, N.Start(w.cfg), es, P.Fresh(N.InitialCursor(w.cfg)));
    forall row, n: nat | row in p.db.rows && P.Holds(n, size, row.block)
      ensures P.Part(row.table, n) in p.db.existing
    {
      P.RowsLieInOne(size, p, row, n);
    }
    if Tries(s, r) {
      RoundIsBatch(w, size, s, r, p);
      var rows := PartitionEvents(w, s, N.Ran(r))[0].rows;
      forall row | row in P.Written(rows)
        ensures P.Part(row.table, P.PartitionOf(row.block, size)) !in p.db.ever
      {
        P.WritesPastFinished(size, p, rows, row);
      }
    }
  }
}
