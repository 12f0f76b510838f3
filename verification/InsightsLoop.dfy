/**
 The loop that runs insight rounds (`runInsightsLoop`, `prepareRound`, `finishRound`): the round it holds
 in memory and the tables it writes, one method for each stretch between two awaits.
 */
module InsightsLoops {
  import opened Common
  import opened Ranges
  import I = Insights

  class Database {
    var cursor: Option<int>
    var rows: seq<I.EventRow>
    var insightsCursor: Option<int>
    var insights: map<I.Key, I.Insight>

    constructor ()
      ensures View() == I.Db(None, [], None, map[])
    {
      cursor, rows, insightsCursor, insights := None, [], None, map[];
    }

    function View(): I.Db
      reads this
    {
      I.Db(cursor, rows, insightsCursor, insights)
    }

    /** `commitInsights`: rows and cursor in one transaction. */
    method CommitInsights(setup: I.Setup, described: seq<I.EventRow>, answers: map<string, I.Answer>, newCursor: int, ending: I.Ending)
      modifies this
      ensures View() == if ending.RolledBack? then old(View())
                        else old(View()).(insightsCursor := Some(newCursor), insights := I.Write(setup, old(insights), described, answers))
    {
      var written := insights;
      for i := 0 to |described|
        invariant written == I.Write(setup, insights, described[..i], answers)
      {
        assert described[..i + 1][..i] == described[..i];
        if I.KeyOf(described[i]) !in written {
          written := written[I.KeyOf(described[i]) := I.ToInsight(setup, described[i], answers)];
        }
      }
      assert described[..|described|] == described;
      if !ending.RolledBack? {
        insightsCursor := Some(newCursor);
        insights := written;
      }
    }
  }

  class Loop {
    const setup: I.Setup
    const db: Database
    var round: I.Round

    constructor (setup: I.Setup, db: Database)
      modifies db`insightsCursor
      ensures this.setup == setup && this.db == db
      ensures forall r :: View() == I.Step(setup, I.State(old(db.View()), r), I.Booted)
    {
      this.setup, this.db, round := setup, db, I.NoRound;
      new;
      if setup.start.AtCursor? && db.insightsCursor == None {
        db.insightsCursor := Some(setup.start.cursor);
      }
    }

    function View(): I.State
      reads this, db
    {
      I.State(db.View(), round)
    }

    /** The start of `prepareRound`; it throws, leaving no round, where a cursor is missing. */
    method PlanRound()
      requires round.NoRound?
      modifies this`round, db`insightsCursor
      ensures View() == I.Step(setup, old(View()), I.Plan)
    {
      if db.cursor == None { return; }
      var ingested := db.cursor.value;
      if db.insightsCursor == None {
        if setup.start.AtCursor? { return; }
        var from := ingested - setup.start.behind;
        db.insightsCursor := Some(if from > setup.start.floor then from else setup.start.floor);
      }
      var range := PlanRange(db.insightsCursor.value, ingested, setup.batchBlocks);
      if range == None { return; }
      round := I.Planned(ingested, range.value.fromBlock, range.value.toBlock);
    }

    method CapRound()
      requires round.Planned?
      modifies this`round
      ensures View() == I.Step(setup, old(View()), I.Cap)
    {
      round := I.Capped(round.ingested, round.from, round.to, I.CapRange(db.rows, round.from, round.to, I.MAX_ROWS_PER_ROUND));
    }

    method ReadRound()
      requires round.Capped?
      modifies this`round
      ensures View() == I.Step(setup, old(View()), I.Read)
    {
      var described: seq<I.EventRow> := [];
      for i := 0 to |db.rows|
        invariant described == I.Between(db.rows[..i], round.from, round.end)
      {
        assert db.rows[..i + 1][..i] == db.rows[..i];
        if round.from <= db.rows[i].block <= round.end { described := described + [db.rows[i]]; }
      }
      assert db.rows[..|db.rows|] == db.rows;
      round := I.Prepared(round.ingested, round.from, round.end, described);
    }

    /** A round that failed: where the model was asked it stays prepared, anywhere else it is dropped. */
    method RoundFailed(modelStage: bool)
      modifies this`round
      ensures View() == I.Step(setup, old(View()), if modelStage then I.ModelFails else I.Breaks)
    {
      if !modelStage { round := I.NoRound; }
    }

    /** `finishRound` once the model answered, and `pending = null` (also where its commit threw). */
    method FinishRound(answers: map<string, I.Answer>, ending: I.Ending)
      requires round.Prepared?
      modifies this`round, db
      ensures View() == I.Step(setup, old(View()), I.Finish(answers, ending))
    {
      db.CommitInsights(setup, round.described, answers, round.end, ending);
      round := I.NoRound;
    }
  }
}
