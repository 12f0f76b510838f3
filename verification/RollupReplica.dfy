/**
 The Rollup class of one explorer replica: its working span, and the statements of its transaction
 against the shared database, each proved to be the statement of module Rollup.
 */
module RollupReplicas {
  import opened Common
  import R = Rollup

  /** What the replicas share: the worker's tables, the rollup's, and the advisory lock. */
  class Database {
    var cursor: Option<int>
    var transfers: seq<R.Transfer>
    var blocks: map<nat, R.Day>
    var daily: R.Daily
    var rolled: Option<int>
    var lock: Option<nat>

    constructor ()
      ensures View() == R.Db(None, [], map[], map[], None, None)
    {
      cursor, transfers, blocks, daily, rolled, lock := None, [], map[], map[], None, None;
    }

    function View(): R.Db
      reads this
    {
      R.Db(cursor, transfers, blocks, daily, rolled, lock)
    }
  }

  class Rollup {
    const id: nat
    const maxSpan: nat
    const db: Database
    var span: nat
    var phase: R.Phase

    constructor (id: nat, maxSpan: nat, db: Database)
      requires maxSpan >= 1
      ensures this.id == id && this.db == db && View() == R.Replica(maxSpan, maxSpan, R.Out)
    {
      this.id, this.maxSpan, this.db, this.span, this.phase := id, maxSpan, db, maxSpan, R.Out;
    }

    function View(): R.Replica
      reads this
    {
      R.Replica(maxSpan, span, phase)
    }

    method TryLock() returns (result: Option<R.StepResult>)
      requires phase.Out?
      modifies this`phase, db`lock
      ensures (db.View(), View(), result) == R.Statement(old(db.View()), old(View()), id, R.TakeLock)
    {
      if db.lock.Some? { return Some(R.Locked); }
      db.lock := Some(id);
      phase := R.Holding;
      return None;
    }

    method ReadHead() returns (result: Option<R.StepResult>)
      requires phase.Holding?
      modifies this`phase, db`lock
      ensures (db.View(), View(), result) == R.Statement(old(db.View()), old(View()), id, R.ReadHead)
    {
      if db.cursor == None {
        Leave();
        return Some(R.Idle);
      }
      phase := R.HeadRead(db.cursor.value);
      return None;
    }

    method ReadDone() returns (result: Option<R.StepResult>)
      requires phase.HeadRead?
      modifies this`phase, db`lock
      ensures (db.View(), View(), result) == R.Statement(old(db.View()), old(View()), id, R.ReadDone)
    {
      var cursor := phase.cursor;
      var from := if db.rolled.Some? then db.rolled.value else -1;
      if from > cursor {
        Leave();
        return Some(R.Ahead);
      }
      if from == cursor {
        Leave();
        return Some(R.Idle);
      }
      phase := R.DoneRead(cursor, from);
      return None;
    }

    /** The least block with rows in (from, cursor], as the database's aggregate finds it. */
    method First(from: int, cursor: int) returns (first: Option<nat>)
      ensures R.IsFirst(db.View(), from, cursor, first)
    {
      first := None;
      var todo := db.blocks.Keys;
      while todo != {}
        invariant todo <= db.blocks.Keys
        invariant first.Some? ==> first.value in db.blocks && from < first.value <= cursor
        invariant forall b :: b in db.blocks && b !in todo && from < b <= cursor ==> first.Some? && first.value <= b
        decreases |todo|
      {
        var b :| b in todo;
        todo := todo - {b};
        if from < b <= cursor && (first == None || b < first.value) {
          first := Some(b);
        }
      }
    }

    method ReadFirst() returns (ghost first: Option<nat>)
      requires phase.DoneRead?
      modifies this`phase
      ensures R.IsFirst(db.View(), old(phase).from, old(phase).cursor, first)
      ensures (db.View(), View(), None) == R.Statement(old(db.View()), old(View()), id, R.ReadFirst(first))
    {
      var cursor, from := phase.cursor, phase.from;
      var next := First(from, cursor);
      first := next;
      var to := if next == None then cursor else Min(cursor, next.value - 1 + span);
      phase := R.FirstRead(cursor, from, to, next.Some?);
    }

    method Fold()
      requires phase.FirstRead?
      modifies this`phase
      ensures (db.View(), View(), None) == R.Statement(old(db.View()), old(View()), id, R.Fold)
    {
      var FirstRead(cursor, from, to, fold) := phase;
      var folded := if fold then R.Upsert(db.daily, R.Grouped(db.transfers, db.blocks, from, to)) else db.daily;
      phase := R.Folded(cursor, from, to, folded);
    }

    /** COMMIT. When its reply is lost the transaction is done all the same, but the span stays. */
    method Commit(replied: bool) returns (result: Option<R.StepResult>)
      requires phase.Folded?
      modifies this`phase, this`span, db
      ensures (db.View(), View(), result) ==
              R.Statement(old(db.View()), old(View()), id, if replied then R.Commit else R.CommitReplyLost)
    {
      var Folded(cursor, from, to, folded) := phase;
      db.daily := folded;
      db.rolled := Some(to);
      Leave();
      if !replied { return None; }
      span := Min(maxSpan, span * 2);
      return Some(if to < cursor then R.More else R.Idle);
    }

    /** Any statement throws: the transaction is rolled back, and a timeout halves the span. */
    method Fail(canceled: bool)
      requires !phase.Out?
      modifies this`phase, this`span, db`lock
      ensures (db.View(), View(), None) == R.Statement(old(db.View()), old(View()), id, R.Fail(canceled))
    {
      Leave();
      if canceled {
        var floor := if maxSpan < R.MIN_SPAN then 1 else R.MIN_SPAN;
        span := Max(floor, span / 2);
      }
    }

    method Leave()
      modifies this`phase, db`lock
      ensures db.View() == R.Release(old(db.View())) && View() == old(View()).(phase := R.Out)
    {
      db.lock := None;
      phase := R.Out;
    }
  }
}
