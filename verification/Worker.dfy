/**
 The worker process: its database, its range sizer, and `runOnce` with the loop that decodes a range's
 logs, proved to do what the functions of module Ingest say.
 */
module Workers {
  import opened Common
  import opened Ranges
  import I = Ingest

  /** The schema's tables, as the last transaction to commit left them. */
  class Database {
    var cursor: Option<int>
    var events: map<I.RowKey, I.Columns>
    var blocks: set<nat>
    var dead: multiset<I.Log>

    constructor ()
      ensures View() == I.EMPTY
    {
      cursor, events, blocks, dead := None, map[], {}, multiset{};
    }

    function View(): I.Db
      reads this
    {
      I.Db(cursor, events, blocks, dead)
    }

    /** `commitBatch`: all of it takes effect, or nothing. Answers whether the worker saw it commit. */
    method CommitBatch(rows: seq<I.Row>, deadLetters: seq<I.Log>, newCursor: int, ending: I.Ending) returns (ok: bool)
      modifies this
      ensures View() == if ending == I.RolledBack then old(View()) else I.Commit(old(View()), rows, deadLetters, newCursor)
      ensures ok == (ending == I.Committed)
    {
      var tables, touched := events, blocks;
      for i := 0 to |rows|
        invariant tables == I.InsertRows(events, rows[..i]) && touched == blocks + I.BlocksOf(rows[..i])
      {
        assert rows[..i + 1][..i] == rows[..i];
        touched := touched + {rows[i].key.block};
        assert I.BlocksOf(rows[..i + 1]) == I.BlocksOf(rows[..i]) + {rows[i].key.block};
        if rows[i].key !in tables {
          tables := tables[rows[i].key := rows[i].columns];
        }
      }
      assert rows[..|rows|] == rows;
      if ending != I.RolledBack {
        cursor, events, blocks, dead := Some(newCursor), tables, touched, dead + multiset(deadLetters);
      }
      ok := ending == I.Committed;
    }
  }

  class Worker {
    const cfg: I.Config
    const decode: I.Decoder
    const db: Database
    const sizer: RangeSizer

    ghost predicate Valid()
      reads this, sizer
    {
      sizer.Valid()
    }

    function View(): I.State
      reads this, db, sizer
    {
      I.State(db.View(), sizer.View())
    }

    /** A process start: a new span, and `initCursor`, which leaves an existing cursor alone. */
    constructor (cfg: I.Config, decode: I.Decoder, db: Database)
      requires cfg.contracts != [] && cfg.batchBlocks >= 1
      modifies db
      ensures Valid() && fresh(sizer) && this.cfg == cfg && this.decode == decode && this.db == db
      ensures forall sizer0 :: View() == I.Boot(cfg, I.State(old(db.View()), sizer0))
    {
      this.cfg, this.decode, this.db := cfg, decode, db;
      sizer := new RangeSizer(cfg.batchBlocks);
      new;
      if db.cursor == None {
        db.cursor := Some(I.InitialCursor(cfg));
      }
    }

    /** The logs of a range that are safe to commit. */
    method Keep(logs: seq<I.Log>, safeTo: int) returns (kept: seq<I.Log>)
      ensures kept == I.UpTo(logs, safeTo)
    {
      kept := [];
      for i := 0 to |logs|
        invariant kept == I.UpTo(logs[..i], safeTo)
      {
        assert logs[..i + 1][..i] == logs[..i];
        if logs[i].block <= safeTo { kept := kept + [logs[i]]; }
      }
      assert logs[..|logs|] == logs;
    }

    /** The decode loop: each tracked log at or past its contract's start becomes a row or a dead letter. */
    method Decode(logs: seq<I.Log>) returns (rows: seq<I.Row>, dead: seq<I.Log>)
      ensures rows == I.RowsOf(cfg, decode, logs) && dead == I.DeadOf(cfg, decode, logs)
    {
      rows, dead := [], [];
      for i := 0 to |logs|
        invariant rows == I.RowsOf(cfg, decode, logs[..i]) && dead == I.DeadOf(cfg, decode, logs[..i])
      {
        assert logs[..i + 1][..i] == logs[..i];
        var log := logs[i];
        var address := I.Lower(log.address);
        if log.topics == [] { continue; }
        var def := I.Lookup(cfg.defs, address, log.topics[0]);
        if def == None { continue; }
        if log.block < I.StartBlock(cfg.contracts, address) { continue; }
        var columns := decode(def.value, log);
        if columns.Some? {
          rows := rows + [I.Row(I.RowKey(def.value.tableName, log.block, log.index), columns.value)];
        } else {
          dead := dead + [log];
        }
      }
      assert logs[..|logs|] == logs;
    }

    method RunOnce(r: I.Round) returns (outcome: I.Outcome)
      requires Valid()
      modifies db, sizer
      ensures Valid() && (View(), outcome) == I.RunOnce(cfg, decode, old(View()), r)
    {
      if db.cursor == None { return I.Threw; }
      var cursor := db.cursor.value;
      var announced := r.signal.Some? && r.signal.value > cursor;
      if !announced && r.head == None { return I.Threw; }
      var finalized := if announced then r.signal.value else r.head.value;
      var range := PlanRange(cursor, finalized, sizer.current);
      if range == None { return I.Idle; }
      var safeTo := range.value.toBlock;
      var logs: seq<I.Log> := [];
      match r.fetch {
        case Fetched(fetched, queryHead) =>
          if r.signal == Some(finalized) {
            if queryHead < range.value.fromBlock { return I.Idle; }
            safeTo := if queryHead < range.value.toBlock then queryHead else range.value.toBlock;
            logs := Keep(fetched, safeTo);
          } else {
            logs := fetched;
          }
        case CapExceeded =>
          var shrunk := sizer.ShrinkSpan();
          return if shrunk then I.Progressed else I.Threw;
        case FetchFailed =>
          return I.Threw;
      }
      if !r.timesRead { return I.Threw; }
      var rows, dead := Decode(logs);
      var ok := db.CommitBatch(rows, dead, safeTo, r.ending);
      if !ok { return I.Threw; }
      var grew := sizer.RangeSucceeded();
      return I.Progressed;
    }
  }
}
