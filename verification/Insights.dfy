/**
 The insight loop (packages/worker/src/insights.ts, insightsdb.ts): rounds that trail the ingest cursor,
 cut to whole blocks, kept over a failed model call, and committed with their own cursor.
 */
module Insights {
  import opened Common
  import opened Ranges

  const MAX_ROWS_PER_ROUND: nat := 2000

  datatype EventRow = EventRow(table: string, block: nat, index: nat, txHash: string)

  /** The primary key of _insights, and of every event table. */
  datatype Key = Key(block: nat, index: nat)

  function KeyOf(row: EventRow): Key {
    Key(row.block, row.index)
  }

  // ----- where a round ends ----------------------------------------------------------------------

  /** How many rows lie in blocks lo to hi. */
  function Count(rows: seq<EventRow>, lo: int, hi: int): nat {
    if rows == [] then 0
    else Count(rows[..|rows| - 1], lo, hi) + if lo <= rows[|rows| - 1].block <= hi then 1 else 0
  }

  function Insert(sorted: seq<nat>, block: nat): seq<nat> {
    if sorted == [] || block <= sorted[0] then [block] + sorted else [sorted[0]] + Insert(sorted[1..], block)
  }

  /** The block numbers of the rows from `lo` to `hi`, in order. */
  function SortedBlocks(rows: seq<EventRow>, lo: int, hi: int): seq<nat> {
    if rows == [] then []
    else
      var rest := SortedBlocks(rows[..|rows| - 1], lo, hi);
      var block := rows[|rows| - 1].block;
      if lo <= block <= hi then Insert(rest, block) else rest
  }

  /** The last block that keeps the round at `maxRows` rows: just before the row at that offset. */
  function CapRange(rows: seq<EventRow>, from: int, to: int, maxRows: nat): int {
    var sorted := SortedBlocks(rows, from, to);
    if |sorted| <= maxRows then to
    else
      var cut := sorted[maxRows];
      if cut > from then cut - 1 else from
  }

  ghost predicate Ascending(s: seq<nat>) {
    forall i, j :: 0 <= i < j < |s| ==> s[i] <= s[j]
  }

  /** How many of `s` are at most `x`. */
  function AtMost(s: seq<nat>, x: int): nat {
    if s == [] then 0 else (if s[0] <= x then 1 else 0) + AtMost(s[1..], x)
  }

  lemma {:induction false} InsertSorts(s: seq<nat>, block: nat, x: int)
    requires Ascending(s)
    ensures Ascending(Insert(s, block)) && |Insert(s, block)| == |s| + 1
    ensures AtMost(Insert(s, block), x) == AtMost(s, x) + if block <= x then 1 else 0
    ensures forall b :: b in Insert(s, block) <==> b in s || b == block
  {
    if s != [] && block > s[0] {
      InsertSorts(s[1..], block, x);
      assert Insert(s, block) == [s[0]] + Insert(s[1..], block);
      assert s == [s[0]] + s[1..];
    } else {
      assert Insert(s, block)[1..] == s;
    }
  }

  lemma {:induction false} SortedBlocksCount(rows: seq<EventRow>, lo: int, hi: int, x: int)
    requires x <= hi
    ensures Ascending(SortedBlocks(rows, lo, hi))
    ensures AtMost(SortedBlocks(rows, lo, hi), x) == Count(rows, lo, x)
    ensures forall b :: b in SortedBlocks(rows, lo, hi) ==> lo <= b <= hi
  {
    if rows != [] {
      SortedBlocksCount(rows[..|rows| - 1], lo, hi, x);
      var block := rows[|rows| - 1].block;
      if lo <= block <= hi {
        InsertSorts(SortedBlocks(rows[..|rows| - 1], lo, hi), block, x);
      }
    }
  }

  lemma {:induction false} AtMostBounds(s: seq<nat>, x: int, k: nat)
    requires Ascending(s) && k <= |s|
    ensures (k < |s| && s[k] > x) ==> AtMost(s, x) <= k
    ensures (k > 0 && s[k - 1] <= x) ==> AtMost(s, x) >= k
    ensures AtMost(s, x) <= |s|
  {
    if s != [] {
      AtMostBounds(s[1..], x, if k > 0 then k - 1 else 0);
      if k == 0 && s[0] > x && |s| > 1 {
        assert s[1..][0] > x;
      }
    }
  }

  /** The largest block boundary holding at most `maxRows` rows, or one oversized block. */
  ghost predicate RoundEnd(rows: seq<EventRow>, from: int, to: int, maxRows: nat, end: int) {
    && from <= end <= to
    && (Count(rows, from, end) <= maxRows || end == from)
    && (end == to || Count(rows, from, end + 1) > maxRows)
  }

  lemma CapRangeIsRoundEnd(rows: seq<EventRow>, from: int, to: int, maxRows: nat)
    requires from <= to
    ensures RoundEnd(rows, from, to, maxRows, CapRange(rows, from, to, maxRows))
  {
    var sorted, end := SortedBlocks(rows, from, to), CapRange(rows, from, to, maxRows);
    SortedBlocksCount(rows, from, to, to);
    if |sorted| > maxRows { assert sorted[maxRows] in sorted; }
    SortedBlocksCount(rows, from, to, end);
    if |sorted| <= maxRows {
      AtMostBounds(sorted, end, 0);
    } else {
      AtMostBounds(sorted, end, maxRows);
      if end < to {
        SortedBlocksCount(rows, from, to, end + 1);
        AtMostBounds(sorted, end + 1, maxRows + 1);
      }
    }
  }

  // ----- rounds ----------------------------------------------------------------------------------

  datatype Description = Description(sentence: string, ruled: Option<string>)

  datatype Answer = Answer(lane: string, confidence: int)

  datatype Insight = Insight(lane: string, sentence: string, ruled: bool)

  /** What the loop is given: how rows read as sentences, how answers settle on lanes, and where lanes begin. */
  datatype Setup = Setup(describe: EventRow -> Description, settle: (Option<Answer>, Option<string>) -> string,
                         start: Begin, batchBlocks: nat)

  datatype Begin = AtCursor(cursor: int) | BehindHead(behind: nat, floor: int)

  datatype Db = Db(cursor: Option<int>, rows: seq<EventRow>, insightsCursor: Option<int>, insights: map<Key, Insight>)

  /** Where a round stands. Only a prepared one outlives a failed model call. */
  datatype Round =
    | NoRound
    | Planned(ingested: int, from: int, to: int)
    | Capped(ingested: int, from: int, to: int, end: int)
    | Prepared(ingested: int, from: int, end: int, described: seq<EventRow>)

  /** The rows from block `from` to `end`; the loop also sorts them, which no property here depends on. */
  function Between(rows: seq<EventRow>, from: int, end: int): seq<EventRow> {
    if rows == [] then []
    else
      var row := rows[|rows| - 1];
      Between(rows[..|rows| - 1], from, end) + if from <= row.block <= end then [row] else []
  }

  function ToInsight(setup: Setup, row: EventRow, answers: map<string, Answer>): Insight {
    var d := setup.describe(row);
    var answer := if d.ruled.Some? || d.sentence !in answers then None else Some(answers[d.sentence]);
    Insight(setup.settle(answer, d.ruled), d.sentence, d.ruled.Some?)
  }

  /** INSERT ... ON CONFLICT DO NOTHING into _insights. */
  function Write(setup: Setup, insights: map<Key, Insight>, rows: seq<EventRow>, answers: map<string, Answer>): map<Key, Insight> {
    if rows == [] then insights
    else
      var before := Write(setup, insights, rows[..|rows| - 1], answers);
      var row := rows[|rows| - 1];
      if KeyOf(row) in before then before else before[KeyOf(row) := ToInsight(setup, row, answers)]
  }

  datatype Ending = Committed | RolledBack | ReplyLost

  datatype Batch = Batch(newCursor: int, rows: seq<EventRow>)

  datatype Event =
    | Ingested(batch: Batch)                                  // ingest commits, at any point
    | Booted                                                  // the process starts, or restarts after a crash
    | Plan                                                    // the cursors are read and a range planned
    | Cap                                                     // the range is cut
    | Read                                                    // its rows are read and described
    | ModelFails                                              // the model call fails: the round is kept
    | Breaks                                                  // any other failure: the round is dropped
    | Finish(answers: map<string, Answer>, ending: Ending)    // the round is written

  datatype State = State(db: Db, round: Round)

  function Ingest(db: Db, batch: Batch): Db {
    db.(cursor := Some(batch.newCursor), rows := db.rows + batch.rows)
  }

  /** `bootstrapInsights`: an absolute start is written at boot, unless there is a cursor. */
  function Boot(setup: Setup, db: Db): Db {
    if setup.start.AtCursor? && db.insightsCursor.None? then db.(insightsCursor := Some(setup.start.cursor)) else db
  }

  /** A start behind the head is resolved by the first round, which then reads the cursor it wrote. */
  function Resolve(setup: Setup, db: Db): Db {
    if db.insightsCursor.None? && db.cursor.Some? && setup.start.BehindHead? then
      db.(insightsCursor := Some(Max(db.cursor.value - setup.start.behind, setup.start.floor)))
    else db
  }

  function Step(setup: Setup, s: State, e: Event): State {
    match (e, s.round)
    case (Ingested(batch), _) => s.(db := Ingest(s.db, batch))
    case (Booted, _) => State(Boot(setup, s.db), NoRound)
    case (Plan, NoRound) =>
      var db := Resolve(setup, s.db);
      if db.cursor.None? || db.insightsCursor.None? then State(s.db, NoRound)
      else
        var range := PlanRange(db.insightsCursor.value, db.cursor.value, setup.batchBlocks);
        State(db, if range.None? then NoRound else Planned(db.cursor.value, range.value.fromBlock, range.value.toBlock))
    case (Cap, Planned(ingested, from, to)) =>
      s.(round := Capped(ingested, from, to, CapRange(s.db.rows, from, to, MAX_ROWS_PER_ROUND)))
    case (Read, Capped(ingested, from, to, end)) =>
      s.(round := Prepared(ingested, from, end, Between(s.db.rows, from, end)))
    case (Breaks, _) => s.(round := NoRound)
    case (Finish(answers, ending), Prepared(ingested, from, end, described)) =>
      var written := s.db.(insightsCursor := Some(end), insights := Write(setup, s.db.insights, described, answers));
      State(if ending.RolledBack? then s.db else written, NoRound)
    case _ => s
  }

  // ----- what every interleaving keeps -----------------------------------------------------------

  function IngestedTo(db: Db): int {
    if db.cursor.Some? then db.cursor.value else -1
  }

  /** Ingest only adds rows past its cursor, and a key names one row. */
  ghost predicate Follows(db: Db, batch: Batch) {
    && batch.newCursor >= IngestedTo(db)
    && (forall row :: row in batch.rows ==> IngestedTo(db) < row.block <= batch.newCursor)
    && (forall r1, r2 :: r1 in batch.rows && r2 in batch.rows && KeyOf(r1) == KeyOf(r2) ==> r1 == r2)
  }

  ghost predicate ValidRows(db: Db) {
    && (forall row :: row in db.rows ==> row.block <= IngestedTo(db))
    && (forall r1, r2 :: r1 in db.rows && r2 in db.rows && KeyOf(r1) == KeyOf(r2) ==> r1 == r2)
  }

  /**
   The insight that these answers give a row: its own sentence, and its lane settled on the answer to that
   sentence, if there is one and the row was not ruled.
   */
  predicate Reads(setup: Setup, row: EventRow, answers: map<string, Answer>, insight: Insight) {
    var d := setup.describe(row);
    && insight.sentence == d.sentence && insight.ruled == d.ruled.Some?
    && (d.ruled.Some? ==> insight.lane == setup.settle(None, d.ruled))
    && (d.ruled.None? && d.sentence in answers ==> insight.lane == setup.settle(Some(answers[d.sentence]), None))
    && (d.ruled.None? && d.sentence !in answers ==> insight.lane == setup.settle(None, None))
  }

  /** An insight that some answers give this row; a ruled row's is settled without them. */
  ghost predicate IsInsightOf(setup: Setup, row: EventRow, insight: Insight) {
    exists answers :: Reads(setup, row, answers, insight)
  }

  /** _insights holds one insight for each event row of (start, done], and nothing else. */
  ghost predicate Covers(setup: Setup, rows: seq<EventRow>, start: int, done: int, insights: map<Key, Insight>) {
    && (forall row :: row in rows && start < row.block <= done ==>
          KeyOf(row) in insights && IsInsightOf(setup, row, insights[KeyOf(row)]))
    && (forall k :: k in insights ==> exists row :: row in rows && KeyOf(row) == k && start < row.block <= done)
  }

  ghost predicate RoundOk(db: Db, round: Round) {
    match round
    case NoRound => true
    case Planned(ingested, from, to) =>
      db.insightsCursor == Some(from - 1) && from <= to <= ingested <= IngestedTo(db)
    case Capped(ingested, from, to, end) =>
      db.insightsCursor == Some(from - 1) && to <= ingested <= IngestedTo(db) && RoundEnd(db.rows, from, to, MAX_ROWS_PER_ROUND, end)
    case Prepared(ingested, from, end, described) =>
      db.insightsCursor == Some(from - 1) && from <= end <= ingested <= IngestedTo(db) && described == Between(db.rows, from, end)
  }

  /** `start`: where lanes began, the first value the insights cursor was given. */
  ghost predicate Sound(setup: Setup, s: State, start: Option<int>) {
    && ValidRows(s.db) && RoundOk(s.db, s.round)
    && (start.None? <==> s.db.insightsCursor.None?)
    && (start.None? ==> s.db.insights == map[])
    && (start.Some? ==>
          && start.value <= s.db.insightsCursor.value <= Max(start.value, IngestedTo(s.db))
          && Covers(setup, s.db.rows, start.value, s.db.insightsCursor.value, s.db.insights))
  }

  lemma {:induction false} CountAppend(a: seq<EventRow>, b: seq<EventRow>, lo: int, hi: int)
    requires forall row :: row in b ==> row.block > hi
    ensures Count(a + b, lo, hi) == Count(a, lo, hi)
    decreases |b|
  {
    if b != [] {
      assert (a + b)[..|a + b| - 1] == a + b[..|b| - 1];
      CountAppend(a, b[..|b| - 1], lo, hi);
    } else {
      assert a + b == a;
    }
  }

  lemma {:induction false} BetweenAppend(a: seq<EventRow>, b: seq<EventRow>, lo: int, hi: int)
    requires forall row :: row in b ==> row.block > hi
    ensures Between(a + b, lo, hi) == Between(a, lo, hi)
    decreases |b|
  {
    if b != [] {
      assert (a + b)[..|a + b| - 1] == a + b[..|b| - 1];
      BetweenAppend(a, b[..|b| - 1], lo, hi);
    } else {
      assert a + b == a;
    }
  }

  lemma {:induction false} BetweenMembers(rows: seq<EventRow>, lo: int, hi: int)
    ensures forall row :: row in Between(rows, lo, hi) <==> row in rows && lo <= row.block <= hi
  {
    if rows != [] {
      var init, last := rows[..|rows| - 1], rows[|rows| - 1];
      assert rows == init + [last];
      BetweenMembers(init, lo, hi);
    }
  }

  lemma {:induction false} WriteAdds(setup: Setup, insights: map<Key, Insight>, rows: seq<EventRow>, answers: map<string, Answer>)
    requires forall row :: row in rows ==> KeyOf(row) !in insights
    requires forall r1, r2 :: r1 in rows && r2 in rows && KeyOf(r1) == KeyOf(r2) ==> r1 == r2
    ensures forall k :: k in insights ==> k in Write(setup, insights, rows, answers) && Write(setup, insights, rows, answers)[k] == insights[k]
    ensures forall row :: row in rows ==> KeyOf(row) in Write(setup, insights, rows, answers)
    ensures forall row :: row in rows ==> Reads(setup, row, answers, Write(setup, insights, rows, answers)[KeyOf(row)])
    ensures forall k :: k in Write(setup, insights, rows, answers) ==> k in insights || exists row :: row in rows && KeyOf(row) == k
  {
    if rows != [] {
      var init, last := rows[..|rows| - 1], rows[|rows| - 1];
      assert rows == init + [last];
      WriteAdds(setup, insights, init, answers);
    }
  }

  lemma IngestRows(db: Db, batch: Batch)
    requires ValidRows(db) && Follows(db, batch)
    ensures ValidRows(Ingest(db, batch)) && IngestedTo(db) <= IngestedTo(Ingest(db, batch))
  {
  }

  /** A round under way does not see what ingest adds past it. */
  lemma IngestKeepsRound(db: Db, batch: Batch, round: Round)
    requires Follows(db, batch) && RoundOk(db, round)
    ensures RoundOk(Ingest(db, batch), round)
  {
    match round {
      case Capped(ingested, from, to, end) =>
        CountAppend(db.rows, batch.rows, from, end);
        if end < to { CountAppend(db.rows, batch.rows, from, end + 1); }
      case Prepared(ingested, from, end, described) => BetweenAppend(db.rows, batch.rows, from, end);
      case _ =>
    }
  }

  lemma LaterRowsUncovered(setup: Setup, rows: seq<EventRow>, more: seq<EventRow>, start: int, done: int, insights: map<Key, Insight>)
    requires Covers(setup, rows, start, done, insights)
    requires forall row :: row in more ==> row.block > done || row.block <= start
    ensures Covers(setup, rows + more, start, done, insights)
  {
    forall row | row in rows + more && start < row.block <= done
      ensures row in rows
    {
    }
    forall k | k in insights
      ensures exists row :: row in rows + more && KeyOf(row) == k && start < row.block <= done
    {
      var row :| row in rows && KeyOf(row) == k && start < row.block <= done;
      assert row in rows + more;
    }
  }

  lemma IngestSound(setup: Setup, s: State, start: Option<int>, batch: Batch)
    requires Sound(setup, s, start) && Follows(s.db, batch)
    ensures Sound(setup, State(Ingest(s.db, batch), s.round), start)
  {
    IngestRows(s.db, batch);
    IngestKeepsRound(s.db, batch, s.round);
    if start.Some? {
      LaterRowsUncovered(setup, s.db.rows, batch.rows, start.value, s.db.insightsCursor.value, s.db.insights);
    }
  }

  /** Writing the insights of (mid, end] to those of (start, mid] covers (start, end]. */
  lemma WriteCovers(setup: Setup, rows: seq<EventRow>, start: int, mid: int, end: int, insights: map<Key, Insight>,
                    described: seq<EventRow>, answers: map<string, Answer>)
    requires start <= mid <= end && Covers(setup, rows, start, mid, insights)
    requires forall r1, r2 :: r1 in rows && r2 in rows && KeyOf(r1) == KeyOf(r2) ==> r1 == r2
    requires forall row :: row in described <==> row in rows && mid < row.block <= end
    ensures Covers(setup, rows, start, end, Write(setup, insights, described, answers))
  {
    var after := Write(setup, insights, described, answers);
    assert forall k :: k in insights ==> k.block <= mid;
    WriteAdds(setup, insights, described, answers);
    forall row | row in rows && start < row.block <= end
      ensures KeyOf(row) in after && IsInsightOf(setup, row, after[KeyOf(row)])
    {
      if row.block > mid { assert Reads(setup, row, answers, after[KeyOf(row)]); }
    }
    forall k | k in after
      ensures exists row :: row in rows && KeyOf(row) == k && start < row.block <= end
    {
      if k in insights {
        var row :| row in rows && KeyOf(row) == k && start < row.block <= mid;
      } else {
        var row :| row in described && KeyOf(row) == k;
      }
    }
  }

  lemma FinishSound(setup: Setup, s: State, start: Option<int>, answers: map<string, Answer>, ending: Ending)
    requires Sound(setup, s, start) && s.round.Prepared?
    ensures Sound(setup, Step(setup, s, Finish(answers, ending)), start)
  {
    var Prepared(ingested, from, end, described) := s.round;
    BetweenMembers(s.db.rows, from, end);
    WriteCovers(setup, s.db.rows, start.value, from - 1, end, s.db.insights, described, answers);
  }

  /** Where lanes began, as of the first time there is an insights cursor. */
  function Began(start: Option<int>, s: State): Option<int> {
    if start.Some? then start else s.db.insightsCursor
  }

  ghost predicate ValidSetup(setup: Setup) {
    setup.batchBlocks >= 1
  }

  ghost predicate Possible(s: State, e: Event) {
    e.Ingested? ==> Follows(s.db, e.batch)
  }

  lemma StepSound(setup: Setup, s: State, start: Option<int>, e: Event)
    requires ValidSetup(setup) && Sound(setup, s, start) && Possible(s, e)
    ensures Sound(setup, Step(setup, s, e), Began(start, Step(setup, s, e)))
  {
    match (e, s.round) {
      case (Ingested(batch), _) => IngestSound(setup, s, start, batch);
      case (Cap, Planned(ingested, from, to)) => CapRangeIsRoundEnd(s.db.rows, from, to, MAX_ROWS_PER_ROUND);
      case (Finish(answers, ending), Prepared(_, _, _, _)) => FinishSound(setup, s, start, answers, ending);
      case _ =>
    }
  }

  ghost predicate Legal(setup: Setup, s: State, es: seq<Event>)
    decreases |es|
  {
    es == [] || (Possible(s, es[0]) && Legal(setup, Step(setup, s, es[0]), es[1..]))
  }

  function Run(setup: Setup, s: State, es: seq<Event>): State
    decreases |es|
  {
    if es == [] then s else Run(setup, Step(setup, s, es[0]), es[1..])
  }

  /** Where lanes began in a run. */
  function BeganIn(setup: Setup, s: State, start: Option<int>, es: seq<Event>): Option<int>
    decreases |es|
  {
    if es == [] then start else BeganIn(setup, Step(setup, s, es[0]), Began(start, Step(setup, s, es[0])), es[1..])
  }

  lemma {:induction false} SoundRun(setup: Setup, s: State, start: Option<int>, es: seq<Event>)
    requires ValidSetup(setup) && Sound(setup, s, start) && Legal(setup, s, es)
    ensures Sound(setup, Run(setup, s, es), BeganIn(setup, s, start, es))
    decreases |es|
  {
    if es != [] {
      StepSound(setup, s, start, es[0]);
      SoundRun(setup, Step(setup, s, es[0]), Began(start, Step(setup, s, es[0])), es[1..]);
    }
  }

  function Fresh(): State {
    State(Db(None, [], None, map[]), NoRound)
  }

  /**
   With ingest committing at any point, and model failures, other failures, rollbacks, lost replies and
   crashes in between: _insights holds exactly one insight for each event row of (start, insights
   cursor], and no round moves that cursor past the ingest cursor.
   */
  lemma InsightsAreComplete(setup: Setup, es: seq<Event>)
    requires ValidSetup(setup) && Legal(setup, Fresh(), es)
    requires Run(setup, Fresh(), es).db.insightsCursor.Some?
    ensures var db, start := Run(setup, Fresh(), es).db, BeganIn(setup, Fresh(), None, es);
            && start.Some? && Covers(setup, db.rows, start.value, db.insightsCursor.value, db.insights)
            && start.value <= db.insightsCursor.value <= Max(start.value, IngestedTo(db))
  {
    SoundRun(setup, Fresh(), None, es);
  }

  /**
   Whatever happened since it was prepared, a kept round still starts right after the cursor, holds all
   rows of its blocks, and ends at the largest block boundary within the row limit, or at one block.
   */
  lemma KeptRoundStaysRight(setup: Setup, es: seq<Event>)
    requires ValidSetup(setup) && Legal(setup, Fresh(), es)
    ensures var s := Run(setup, Fresh(), es);
            && (s.round.Prepared? ==>
                  s.db.insightsCursor == Some(s.round.from - 1) && s.round.end <= IngestedTo(s.db) &&
                  forall row :: row in s.round.described <==> row in s.db.rows && s.round.from <= row.block <= s.round.end)
            && (s.round.Capped? ==> RoundEnd(s.db.rows, s.round.from, s.round.to, MAX_ROWS_PER_ROUND, s.round.end))
  {
    SoundRun(setup, Fresh(), None, es);
    var s := Run(setup, Fresh(), es);
    if s.round.Prepared? { BetweenMembers(s.db.rows, s.round.from, s.round.end); }
  }

  lemma WrittenAdvances(setup: Setup, s: State, start: Option<int>, answers: map<string, Answer>, ending: Ending)
    requires Sound(setup, s, start) && s.round.Prepared? && !ending.RolledBack?
    ensures var s' := Step(setup, s, Finish(answers, ending));
            && s.db.insightsCursor.Some? && s'.db.insightsCursor == Some(s.round.end)
            && s.db.insightsCursor.value < s.round.end <= IngestedTo(s'.db)
  {
  }

  /** A written round moves the cursor forward: from right before its first block to its last. */
  lemma RoundsAdvance(setup: Setup, es: seq<Event>, answers: map<string, Answer>, ending: Ending)
    requires ValidSetup(setup) && Legal(setup, Fresh(), es) && !ending.RolledBack?
    requires Run(setup, Fresh(), es).round.Prepared?
    ensures var s := Run(setup, Fresh(), es);
            var s' := Step(setup, s, Finish(answers, ending));
            && s.db.insightsCursor.Some? && s'.db.insightsCursor == Some(s.round.end)
            && s.db.insightsCursor.value < s.round.end <= IngestedTo(s'.db)
  {
    SoundRun(setup, Fresh(), None, es);
    WrittenAdvances(setup, Run(setup, Fresh(), es), BeganIn(setup, Fresh(), None, es), answers, ending);
  }

  // ----- what a step does, written out -----------------------------------------------------------

  /** Nothing a round is about to write has an insight yet. */
  lemma NotYetRead(setup: Setup, s: State, start: Option<int>, row: EventRow)
    requires Sound(setup, s, start) && s.round.Prepared?
    ensures row in s.round.described <==> row in s.db.rows && s.round.from <= row.block <= s.round.end
    ensures row in s.round.described ==> KeyOf(row) !in s.db.insights
  {
    BetweenMembers(s.db.rows, s.round.from, s.round.end);
  }

  lemma WriteReads(setup: Setup, insights: map<Key, Insight>, rows: seq<EventRow>, answers: map<string, Answer>, row: EventRow)
    requires forall r :: r in rows ==> KeyOf(r) !in insights
    requires forall r1, r2 :: r1 in rows && r2 in rows && KeyOf(r1) == KeyOf(r2) ==> r1 == r2
    requires row in rows
    ensures KeyOf(row) in Write(setup, insights, rows, answers)
    ensures Reads(setup, row, answers, Write(setup, insights, rows, answers)[KeyOf(row)])
  {
    WriteAdds(setup, insights, rows, answers);
  }

  lemma {:induction false} WriteKeeps(setup: Setup, insights: map<Key, Insight>, rows: seq<EventRow>, answers: map<string, Answer>, k: Key)
    requires k in insights
    ensures k in Write(setup, insights, rows, answers) && Write(setup, insights, rows, answers)[k] == insights[k]
  {
    if rows != [] { WriteKeeps(setup, insights, rows[..|rows| - 1], answers, k); }
  }

  /** A round written under these answers gives its rows what they settle, and changes no other insight. */
  ghost predicate WritesReads(setup: Setup, s: State, s': State, answers: map<string, Answer>)
    requires s.round.Prepared?
  {
    && (forall row :: row in s.db.rows && s.round.from <= row.block <= s.round.end ==>
          Key(row.block, row.index) in s'.db.insights && Reads(setup, row, answers, s'.db.insights[Key(row.block, row.index)]))
    && (forall k :: k in s.db.insights ==> k in s'.db.insights && s'.db.insights[k] == s.db.insights[k])
  }

  lemma FinishReads(setup: Setup, s: State, start: Option<int>, answers: map<string, Answer>, ending: Ending)
    requires Sound(setup, s, start) && s.round.Prepared? && !ending.RolledBack?
    ensures WritesReads(setup, s, Step(setup, s, Finish(answers, ending)), answers)
  {
    var insights, described := s.db.insights, s.round.described;
    var after := Step(setup, s, Finish(answers, ending)).db.insights;
    assert after == Write(setup, insights, described, answers);
    forall row
      ensures row in described <==> row in s.db.rows && s.round.from <= row.block <= s.round.end
      ensures row in described ==> KeyOf(row) !in insights
    {
      NotYetRead(setup, s, start, row);
    }
    forall row | row in described
      ensures KeyOf(row) in after && Reads(setup, row, answers, after[KeyOf(row)])
    {
      WriteReads(setup, insights, described, answers, row);
    }
    forall k | k in insights
      ensures k in after && after[k] == insights[k]
    {
      WriteKeeps(setup, insights, described, answers, k);
    }
  }

  /**
   Whatever came before: a round written under some answers gives each row of its blocks the insight those
   answers settle, and changes no other; rolled back, it writes nothing. Either way the round is over.
   */
  lemma RoundsUseTheirAnswers(setup: Setup, es: seq<Event>, answers: map<string, Answer>, ending: Ending)
    requires ValidSetup(setup) && Legal(setup, Fresh(), es) && Run(setup, Fresh(), es).round.Prepared?
    ensures var s := Run(setup, Fresh(), es);
            var s' := Step(setup, s, Finish(answers, ending));
            && s'.round.NoRound? && s'.db.rows == s.db.rows && s'.db.cursor == s.db.cursor
            && (if ending.RolledBack? then s'.db == s.db else WritesReads(setup, s, s', answers))
  {
    SoundRun(setup, Fresh(), None, es);
    if !ending.RolledBack? {
      FinishReads(setup, Run(setup, Fresh(), es), BeganIn(setup, Fresh(), None, es), answers, ending);
    }
  }

  /** A round that waits for its model is kept as it is, and no other is planned meanwhile; any other failure drops it. */
  lemma FailuresWrittenOut(setup: Setup, s: State)
    ensures Step(setup, s, ModelFails) == s && Step(setup, s, Breaks) == State(s.db, NoRound)
    ensures !s.round.NoRound? ==> Step(setup, s, Plan) == s
  {
  }

  /**
   A round is planned right after the insights cursor, up to the ingest cursor and a batch of blocks at
   most. Where there is no insights cursor, a start behind the head first sets it that far behind the
   ingest cursor, or at the floor if that is further on.
   */
  lemma PlanWrittenOut(setup: Setup, s: State)
    requires ValidSetup(setup) && s.round.NoRound?
    ensures var s' := Step(setup, s, Plan);
            if s.db.cursor.None? || (s.db.insightsCursor.None? && setup.start.AtCursor?) then s' == s
            else
              var head := s.db.cursor.value;
              var done := if s.db.insightsCursor.Some? then s.db.insightsCursor.value
                          else if head - setup.start.behind > setup.start.floor then head - setup.start.behind
                          else setup.start.floor;
              && s'.db == s.db.(insightsCursor := Some(done))
              && s'.round == if head <= done then NoRound
                             else Planned(head, done + 1, if head < done + setup.batchBlocks then head else done + setup.batchBlocks)
  {
  }

  /** A start writes an absolute beginning where there is no cursor, and nothing else; a round under way is lost. */
  lemma BootWrittenOut(setup: Setup, s: State)
    ensures Step(setup, s, Booted).round.NoRound?
    ensures Step(setup, s, Booted).db ==
              if setup.start.AtCursor? && s.db.insightsCursor.None? then s.db.(insightsCursor := Some(setup.start.cursor)) else s.db
  {
  }

  /** A planned range is cut at a round's end, and its round reads every row up to there, whatever is ingested meanwhile. */
  lemma ReadsWrittenOut(setup: Setup, s: State, batch: Batch)
    ensures s.round.Planned? && s.round.from <= s.round.to ==>
              var cut := Step(setup, s, Cap);
              && cut.db == s.db && cut.round.Capped? && cut.round == Capped(s.round.ingested, s.round.from, s.round.to, cut.round.end)
              && RoundEnd(s.db.rows, s.round.from, s.round.to, MAX_ROWS_PER_ROUND, cut.round.end)
    ensures s.round.Capped? ==>
              var read := Step(setup, s, Read);
              && read.db == s.db && read.round.Prepared? && read.round == Prepared(s.round.ingested, s.round.from, s.round.end, read.round.described)
              && forall row :: row in read.round.described <==> row in s.db.rows && s.round.from <= row.block <= s.round.end
    ensures Step(setup, s, Ingested(batch)) == s.(db := s.db.(cursor := Some(batch.newCursor), rows := s.db.rows + batch.rows))
  {
    match s.round {
      case Planned(ingested, from, to) =>
        if from <= to { CapRangeIsRoundEnd(s.db.rows, from, to, MAX_ROWS_PER_ROUND); }
      case Capped(ingested, from, to, end) => BetweenMembers(s.db.rows, from, end);
      case _ =>
    }
  }

  /** A run is its events, one after the other. */
  lemma {:induction false} EventsAct(setup: Setup, s: State, es: seq<Event>, e: Event)
    ensures Run(setup, s, []) == s && Run(setup, s, es + [e]) == Step(setup, Run(setup, s, es), e)
    decreases |es|
  {
    if es == [] {
      assert [e][1..] == [];
      assert [] + [e] == [e];
    } else {
      assert (es + [e])[1..] == es[1..] + [e];
      EventsAct(setup, Step(setup, s, es[0]), es[1..], e);
    }
  }
}
