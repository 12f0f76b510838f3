/**
 The ingest round (packages/worker/src/pipeline.ts) and the transaction that commits it
 (packages/worker/src/db.ts): a range is planned behind the head, its logs are fetched from a node that
 may lag, decoded or dead-lettered, and written together with the cursor.

 Chain data is final, so the chain is one function from block number to logs, past and future. A round
 receives what the outside world answers as a value: the announced head, the node's head, the fetched
 logs, and how the transaction ended.
 */
module Ingest {
  import opened Common
  import opened Ranges

  datatype Log = Log(block: nat, index: nat, address: string, topics: seq<string>, txHash: string, data: string)

  datatype EventDef = EventDef(address: string, topic0: string, tableName: string)

  datatype Contract = Contract(address: string, startBlock: nat)

  datatype Config = Config(contracts: seq<Contract>, defs: seq<EventDef>, batchBlocks: nat)

  type Chain = nat -> seq<Log>

  type Columns = string

  /** `decodeLogToRow`: the row's columns, or None where it throws. */
  type Decoder = (EventDef, Log) -> Option<Columns>

  function LowerChar(c: char): char {
    if 'A' <= c <= 'Z' then (c as int - 'A' as int + 'a' as int) as char else c
  }

  function Lower(s: string): string {
    seq(|s|, i requires 0 <= i < |s| => LowerChar(s[i]))
  }

  /** The event definition filed under an address and topic; a later definition replaces an earlier one. */
  function Lookup(defs: seq<EventDef>, address: string, topic0: string): Option<EventDef> {
    if defs == [] then None
    else
      var last := defs[|defs| - 1];
      if last.address == address && last.topic0 == topic0 then Some(last) else Lookup(defs[..|defs| - 1], address, topic0)
  }

  function StartBlock(contracts: seq<Contract>, address: string): nat {
    if contracts == [] then 0
    else
      var last := contracts[|contracts| - 1];
      if Lower(last.address) == address then last.startBlock else StartBlock(contracts[..|contracts| - 1], address)
  }

  function MinStart(contracts: seq<Contract>): (start: nat)
    requires contracts != []
    ensures forall c :: c in contracts ==> start <= c.startBlock
    ensures exists c :: c in contracts && start == c.startBlock
  {
    var last := contracts[|contracts| - 1];
    if |contracts| == 1 then last.startBlock
    else
      assert contracts == contracts[..|contracts| - 1] + [last];
      Min(last.startBlock, MinStart(contracts[..|contracts| - 1]))
  }

  /** Just before the earliest contract's first block. */
  function InitialCursor(cfg: Config): int
    requires cfg.contracts != []
  {
    MinStart(cfg.contracts) - 1
  }

  datatype RowKey = RowKey(table: string, block: nat, index: nat)

  datatype Row = Row(key: RowKey, columns: Columns)

  /** What becomes of a log: not tracked, a row of its event's table, or a dead letter. */
  datatype Fate = Ignored | Stored(row: Row) | Dead

  function FateOf(cfg: Config, decode: Decoder, log: Log): Fate {
    var address := Lower(log.address);
    var def := if log.topics == [] then None else Lookup(cfg.defs, address, log.topics[0]);
    if def.None? || log.block < StartBlock(cfg.contracts, address) then Ignored
    else
      match decode(def.value, log)
      case Some(columns) => Stored(Row(RowKey(def.value.tableName, log.block, log.index), columns))
      case None => Dead
  }

  /** The stored state. `events` are the event tables, keyed by table and primary key. */
  datatype Db = Db(cursor: Option<int>, events: map<RowKey, Columns>, blocks: set<nat>, dead: multiset<Log>)

  const EMPTY := Db(None, map[], {}, multiset{})

  function RowsOf(cfg: Config, decode: Decoder, logs: seq<Log>): seq<Row> {
    if logs == [] then []
    else
      var fate := FateOf(cfg, decode, logs[|logs| - 1]);
      RowsOf(cfg, decode, logs[..|logs| - 1]) + if fate.Stored? then [fate.row] else []
  }

  function DeadOf(cfg: Config, decode: Decoder, logs: seq<Log>): seq<Log> {
    if logs == [] then []
    else
      var log := logs[|logs| - 1];
      DeadOf(cfg, decode, logs[..|logs| - 1]) + if FateOf(cfg, decode, log).Dead? then [log] else []
  }

  /** INSERT ... ON CONFLICT DO NOTHING, row by row. */
  function InsertRows(events: map<RowKey, Columns>, rows: seq<Row>): map<RowKey, Columns> {
    if rows == [] then events
    else
      var before := InsertRows(events, rows[..|rows| - 1]);
      var row := rows[|rows| - 1];
      if row.key in before then before else before[row.key := row.columns]
  }

  function BlocksOf(rows: seq<Row>): set<nat> {
    set r | r in rows :: r.key.block
  }

  /** `commitBatch`, once its COMMIT took effect. */
  function Commit(db: Db, rows: seq<Row>, dead: seq<Log>, newCursor: int): Db {
    Db(Some(newCursor), InsertRows(db.events, rows), db.blocks + BlocksOf(rows), db.dead + multiset(dead))
  }

  function UpTo(logs: seq<Log>, block: int): seq<Log> {
    if logs == [] then []
    else
      var log := logs[|logs| - 1];
      UpTo(logs[..|logs| - 1], block) + if log.block <= block then [log] else []
  }

  // ----- one round -------------------------------------------------------------------------------

  /** `queryHead` is the head of the node that answered: a guarded round reads it beside the logs, another does not. */
  datatype Fetch = Fetched(logs: seq<Log>, queryHead: nat) | CapExceeded | FetchFailed

  /** How the transaction ended. After ReplyLost it is committed and the worker only sees an error. */
  datatype Ending = Committed | RolledBack | ReplyLost

  datatype Round = Round(signal: Option<nat>, head: Option<nat>, fetch: Fetch, timesRead: bool, ending: Ending)

  datatype Outcome = Idle | Progressed | Threw

  datatype State = State(db: Db, sizer: Sizer)

  /** The target head, and whether the completeness guard runs; None where reading the head fails. */
  function Target(cursor: int, r: Round): Option<(nat, bool)> {
    if r.signal.Some? && r.signal.value > cursor then Some((r.signal.value, true))
    else if r.head.Some? then Some((r.head.value, r.signal == r.head))
    else None
  }

  /** What a round stores, once it gets as far as its transaction: the logs kept, and the block they reach. */
  function Safe(range: BlockRange, guarded: bool, fetch: Fetch): int
    requires fetch.Fetched?
  {
    if guarded then Min(fetch.queryHead, range.toBlock) else range.toBlock
  }

  function Kept(range: BlockRange, guarded: bool, fetch: Fetch): seq<Log>
    requires fetch.Fetched?
  {
    if guarded then UpTo(fetch.logs, Safe(range, guarded, fetch)) else fetch.logs
  }

  /** `runOnce` after its range is planned. */
  function Finish(cfg: Config, decode: Decoder, s: State, range: BlockRange, guarded: bool, r: Round): (State, Outcome) {
    match r.fetch
    case CapExceeded => if CanShrink(s.sizer) then (s.(sizer := Shrink(s.sizer)), Progressed) else (s, Threw)
    case FetchFailed => (s, Threw)
    case Fetched(logs, queryHead) =>
      if guarded && queryHead < range.fromBlock then (s, Idle)
      else if !r.timesRead then (s, Threw)
      else
        var safeTo := Safe(range, guarded, r.fetch);
        var kept := Kept(range, guarded, r.fetch);
        var db := Commit(s.db, RowsOf(cfg, decode, kept), DeadOf(cfg, decode, kept), safeTo);
        match r.ending
        case RolledBack => (s, Threw)
        case Committed => (State(db, Succeeded(s.sizer)), Progressed)
        case ReplyLost => (s.(db := db), Threw)
  }

  function RunOnce(cfg: Config, decode: Decoder, s: State, r: Round): (State, Outcome) {
    if s.db.cursor.None? then (s, Threw)
    else
      var target := Target(s.db.cursor.value, r);
      if target.None? then (s, Threw)
      else
        var range := PlanRange(s.db.cursor.value, target.value.0, s.sizer.current);
        if range.None? then (s, Idle) else Finish(cfg, decode, s, range.value, target.value.1, r)
  }

  /** A process starts: its memory is new, and `initCursor` writes the cursor only if there is none. */
  function Boot(cfg: Config, s: State): State
    requires cfg.contracts != []
  {
    State(if s.db.cursor.Some? then s.db else s.db.(cursor := Some(InitialCursor(cfg))), NewSizer(cfg.batchBlocks))
  }

  /** A crash needs no event of its own: it is whatever came before, then a boot. */
  datatype Event = Booted | Ran(round: Round)

  function Step(cfg: Config, decode: Decoder, s: State, e: Event): State
    requires cfg.contracts != []
  {
    match e
    case Booted => Boot(cfg, s)
    case Ran(r) => RunOnce(cfg, decode, s, r).0
  }

  // ----- what the outside world owes -------------------------------------------------------------

  ghost predicate ValidConfig(cfg: Config) {
    && cfg.contracts != [] && cfg.batchBlocks >= 1
    && forall d :: d in cfg.defs ==> exists c :: c in cfg.contracts && Lower(c.address) == d.address
  }

  /** Every log sits at its own block, and its index names it there. */
  ghost predicate ValidChain(chain: Chain) {
    && (forall b: nat, log: Log :: log in chain(b) ==> log.block == b)
    && (forall b: nat, l1: Log, l2: Log :: l1 in chain(b) && l2 in chain(b) && l1.index == l2.index ==> l1 == l2)
  }

  ghost predicate Queried(cfg: Config, log: Log) {
    exists d :: d in cfg.defs && d.address == Lower(log.address)
  }

  ghost predicate Asked(cfg: Config, log: Log, range: BlockRange) {
    range.fromBlock <= log.block <= range.toBlock && Queried(cfg, log)
  }

  /** `getLogs` returns only logs it was asked for, each once, and all of those up to the head its node has seen. */
  ghost predicate HonestFetch(cfg: Config, chain: Chain, range: BlockRange, seen: nat, logs: seq<Log>) {
    && (forall i, j :: 0 <= i < j < |logs| ==> logs[i] != logs[j])
    && (forall log: Log :: log in logs ==> log in chain(log.block) && Asked(cfg, log, range))
    && (forall log: Log :: log in chain(log.block) && Asked(cfg, log, range) && log.block <= seen ==> log in logs)
  }

  /** The range a round plans, and whether its completeness guard runs; None where it ends before. */
  function Planned(s: State, r: Round): Option<(BlockRange, bool)> {
    if s.db.cursor.None? then None
    else
      var target := Target(s.db.cursor.value, r);
      if target.None? then None
      else
        var range := PlanRange(s.db.cursor.value, target.value.0, s.sizer.current);
        if range.None? then None else Some((range.value, target.value.1))
  }

  ghost predicate Honest(cfg: Config, chain: Chain, s: State, e: Event) {
    e.Ran? && e.round.fetch.Fetched? && Planned(s, e.round).Some? ==>
      HonestFetch(cfg, chain, Planned(s, e.round).value.0, e.round.fetch.queryHead, e.round.fetch.logs)
  }

  /** A log that is stored or dead-lettered when it is fetched. */
  ghost predicate Tracked(cfg: Config, decode: Decoder, chain: Chain, log: Log) {
    log in chain(log.block) && !FateOf(cfg, decode, log).Ignored?
  }

  /**
   Nothing of the range escapes: the guard ran, or the node had seen the range to its end, or what it had
   not seen holds no tracked log it did not return anyway.
   */
  ghost predicate Covered(cfg: Config, decode: Decoder, chain: Chain, range: BlockRange, guarded: bool, fetch: Fetch)
    requires fetch.Fetched?
  {
    || guarded
    || fetch.queryHead >= range.toBlock
    || forall log: Log :: Tracked(cfg, decode, chain, log) && range.fromBlock <= log.block <= range.toBlock && fetch.queryHead < log.block
         ==> log in fetch.logs
  }

  /** The round's transaction takes effect. */
  predicate Commits(s: State, r: Round) {
    && Planned(s, r).Some? && r.fetch.Fetched? && r.timesRead && !r.ending.RolledBack?
    && !(Planned(s, r).value.1 && r.fetch.queryHead < Planned(s, r).value.0.fromBlock)
  }

  ghost predicate CoversRound(cfg: Config, decode: Decoder, chain: Chain, s: State, e: Event) {
    e.Ran? && Commits(s, e.round) ==> Covered(cfg, decode, chain, Planned(s, e.round).value.0, Planned(s, e.round).value.1, e.round.fetch)
  }

  // ----- completeness ----------------------------------------------------------------------------

  /** A log of the chain that is tracked, decodes, and belongs in this row. */
  ghost predicate Becomes(cfg: Config, decode: Decoder, chain: Chain, log: Log, row: Row) {
    log in chain(log.block) && FateOf(cfg, decode, log) == Stored(row)
  }

  /** A log of the chain that is tracked and does not decode. */
  ghost predicate Fails(cfg: Config, decode: Decoder, chain: Chain, log: Log) {
    log in chain(log.block) && FateOf(cfg, decode, log).Dead?
  }

  ghost predicate RowsExact(cfg: Config, decode: Decoder, chain: Chain, lo: int, hi: int, events: map<RowKey, Columns>) {
    && (forall log: Log, row :: Becomes(cfg, decode, chain, log, row) && lo < log.block <= hi ==>
          row.key in events && events[row.key] == row.columns)
    && (forall k :: k in events ==>
          exists log: Log :: Becomes(cfg, decode, chain, log, Row(k, events[k])) && lo < log.block <= hi)
  }

  ghost predicate DeadExact(cfg: Config, decode: Decoder, chain: Chain, lo: int, hi: int, dead: multiset<Log>) {
    forall log: Log :: dead[log] == if Fails(cfg, decode, chain, log) && lo < log.block <= hi then 1 else 0
  }

  ghost predicate BlocksExact(cfg: Config, decode: Decoder, chain: Chain, lo: int, hi: int, blocks: set<nat>) {
    && (forall log: Log, row :: Becomes(cfg, decode, chain, log, row) && lo < log.block <= hi ==> log.block in blocks)
    && (forall b: nat :: b in blocks ==>
          exists log: Log, row :: Becomes(cfg, decode, chain, log, row) && log.block == b && lo < b <= hi)
  }

  /** Exactly the tracked logs of (lo, hi] are stored, each once: as its row, or as one dead letter. */
  ghost predicate Exact(cfg: Config, decode: Decoder, chain: Chain, lo: int, hi: int, db: Db) {
    && RowsExact(cfg, decode, chain, lo, hi, db.events)
    && DeadExact(cfg, decode, chain, lo, hi, db.dead)
    && BlocksExact(cfg, decode, chain, lo, hi, db.blocks)
  }

  lemma {:induction false} RowsOfMembers(cfg: Config, decode: Decoder, logs: seq<Log>)
    ensures forall r :: r in RowsOf(cfg, decode, logs) <==>
              exists log: Log :: log in logs && FateOf(cfg, decode, log) == Stored(r)
  {
    if logs != [] {
      var init, last := logs[..|logs| - 1], logs[|logs| - 1];
      assert logs == init + [last];
      RowsOfMembers(cfg, decode, init);
    }
  }

  lemma {:induction false} DeadOfCounts(cfg: Config, decode: Decoder, logs: seq<Log>)
    ensures forall log: Log :: multiset(DeadOf(cfg, decode, logs))[log] ==
                          if FateOf(cfg, decode, log).Dead? then multiset(logs)[log] else 0
  {
    if logs != [] {
      var init, last := logs[..|logs| - 1], logs[|logs| - 1];
      assert logs == init + [last];
      DeadOfCounts(cfg, decode, init);
    }
  }

  lemma {:induction false} UpToCounts(logs: seq<Log>, block: int)
    ensures forall log: Log :: multiset(UpTo(logs, block))[log] == if log.block <= block then multiset(logs)[log] else 0
  {
    if logs != [] {
      var init, last := logs[..|logs| - 1], logs[|logs| - 1];
      assert logs == init + [last];
      UpToCounts(init, block);
    }
  }

  lemma {:induction false} DistinctCounts(logs: seq<Log>)
    requires forall i, j :: 0 <= i < j < |logs| ==> logs[i] != logs[j]
    ensures forall log: Log :: multiset(logs)[log] == if log in logs then 1 else 0
  {
    if logs != [] {
      var init, last := logs[..|logs| - 1], logs[|logs| - 1];
      assert logs == init + [last];
      DistinctCounts(init);
    }
  }

  /** Inserting rows whose keys determine them adds exactly those, and keeps what was there. */
  lemma {:induction false} InsertRowsAdds(events: map<RowKey, Columns>, rows: seq<Row>)
    requires forall r1, r2 :: r1 in rows && r2 in rows && r1.key == r2.key ==> r1 == r2
    requires forall r :: r in rows ==> r.key !in events
    ensures forall k :: k in InsertRows(events, rows) <==> k in events || exists r :: r in rows && r.key == k
    ensures forall k :: k in events ==> InsertRows(events, rows)[k] == events[k]
    ensures forall r :: r in rows ==> InsertRows(events, rows)[r.key] == r.columns
  {
    if rows != [] {
      var init, last := rows[..|rows| - 1], rows[|rows| - 1];
      assert rows == init + [last];
      InsertRowsAdds(events, init);
    }
  }

  lemma {:induction false} LookupAddress(defs: seq<EventDef>, address: string, topic0: string)
    ensures Lookup(defs, address, topic0).Some? ==>
              exists d :: d in defs && d.address == address && Lookup(defs, address, topic0) == Some(d)
  {
    if defs != [] && !(defs[|defs| - 1].address == address && defs[|defs| - 1].topic0 == topic0) {
      LookupAddress(defs[..|defs| - 1], address, topic0);
    }
  }

  /** A log with a fate is at an address that is queried. */
  lemma TrackedIsQueried(cfg: Config, decode: Decoder, log: Log)
    ensures FateOf(cfg, decode, log).Ignored? || Queried(cfg, log)
  {
    if log.topics != [] {
      LookupAddress(cfg.defs, Lower(log.address), log.topics[0]);
    }
  }

  /** Of the logs that matter, `kept` holds each of (lo, hi] once, and no other. */
  ghost predicate Keeps(cfg: Config, decode: Decoder, chain: Chain, lo: int, hi: int, kept: seq<Log>) {
    forall log: Log :: !FateOf(cfg, decode, log).Ignored? ==>
      multiset(kept)[log] == if log in chain(log.block) && lo < log.block <= hi then 1 else 0
  }

  /** One key, one log. */
  lemma RowsAreNamed(cfg: Config, decode: Decoder, chain: Chain, log1: Log, log2: Log, row1: Row, row2: Row)
    requires ValidChain(chain) && row1.key == row2.key
    requires Becomes(cfg, decode, chain, log1, row1) && Becomes(cfg, decode, chain, log2, row2)
    ensures log1 == log2 && row1 == row2 && row1.key.block == log1.block
  {
  }

  /** The rows a commit inserts are those of the blocks it covers. */
  ghost predicate RowsFor(cfg: Config, decode: Decoder, chain: Chain, lo: int, hi: int, rows: seq<Row>) {
    && (forall log: Log, row :: Becomes(cfg, decode, chain, log, row) && lo < log.block <= hi ==>
          row in rows && row.key.block == log.block)
    && (forall row :: row in rows ==>
          exists log: Log :: Becomes(cfg, decode, chain, log, row) && lo < log.block <= hi && row.key.block == log.block)
  }

  lemma KeptRows(cfg: Config, decode: Decoder, chain: Chain, lo: int, hi: int, kept: seq<Log>)
    requires Keeps(cfg, decode, chain, lo, hi, kept)
    ensures RowsFor(cfg, decode, chain, lo, hi, RowsOf(cfg, decode, kept))
  {
    RowsOfMembers(cfg, decode, kept);
    forall log: Log, row | Becomes(cfg, decode, chain, log, row) && lo < log.block <= hi
      ensures row in RowsOf(cfg, decode, kept) && row.key.block == log.block
    {
      assert log in multiset(kept);
    }
    forall row | row in RowsOf(cfg, decode, kept)
      ensures exists log: Log :: Becomes(cfg, decode, chain, log, row) && lo < log.block <= hi && row.key.block == log.block
    {
      var log: Log :| log in kept && FateOf(cfg, decode, log) == Stored(row);
      assert log in multiset(kept);
      assert Becomes(cfg, decode, chain, log, row);
    }
  }

  lemma CommitRows(cfg: Config, decode: Decoder, chain: Chain, lo: int, mid: int, hi: int, events: map<RowKey, Columns>, rows: seq<Row>)
    requires ValidChain(chain) && lo <= mid <= hi
    requires RowsExact(cfg, decode, chain, lo, mid, events) && RowsFor(cfg, decode, chain, mid, hi, rows)
    ensures RowsExact(cfg, decode, chain, lo, hi, InsertRows(events, rows))
  {
    var events' := InsertRows(events, rows);
    forall r1, r2 | r1 in rows && r2 in rows && r1.key == r2.key
      ensures r1 == r2
    {
      var log1: Log :| Becomes(cfg, decode, chain, log1, r1);
      var log2: Log :| Becomes(cfg, decode, chain, log2, r2);
      RowsAreNamed(cfg, decode, chain, log1, log2, r1, r2);
    }
    forall r | r in rows
      ensures r.key !in events
    {
      if r.key in events {
        var log1: Log :| Becomes(cfg, decode, chain, log1, r) && mid < log1.block;
        var log2: Log :| Becomes(cfg, decode, chain, log2, Row(r.key, events[r.key])) && log2.block <= mid;
        RowsAreNamed(cfg, decode, chain, log1, log2, r, Row(r.key, events[r.key]));
      }
    }
    InsertRowsAdds(events, rows);
    forall k | k in events'
      ensures exists log: Log :: Becomes(cfg, decode, chain, log, Row(k, events'[k])) && lo < log.block <= hi
    {
      if k in events {
        var log: Log :| Becomes(cfg, decode, chain, log, Row(k, events[k])) && lo < log.block <= mid;
      } else {
        var r :| r in rows && r.key == k;
        assert r == Row(k, events'[k]);
        var log: Log :| Becomes(cfg, decode, chain, log, r) && mid < log.block <= hi;
      }
    }
  }

  lemma RowsForBlocks(cfg: Config, decode: Decoder, chain: Chain, lo: int, hi: int, rows: seq<Row>)
    requires RowsFor(cfg, decode, chain, lo, hi, rows)
    ensures BlocksExact(cfg, decode, chain, lo, hi, BlocksOf(rows))
  {
    var blocks := BlocksOf(rows);
    forall log: Log, row | Becomes(cfg, decode, chain, log, row) && lo < log.block <= hi
      ensures log.block in blocks
    {
      assert row in rows;
    }
    assert forall b: nat :: b in blocks ==> exists row :: row in rows && row.key.block == b;
  }

  lemma CommitBlocks(cfg: Config, decode: Decoder, chain: Chain, lo: int, mid: int, hi: int, blocks: set<nat>, more: set<nat>)
    requires lo <= mid <= hi
    requires BlocksExact(cfg, decode, chain, lo, mid, blocks) && BlocksExact(cfg, decode, chain, mid, hi, more)
    ensures BlocksExact(cfg, decode, chain, lo, hi, blocks + more)
  {
  }

  lemma CommitDead(cfg: Config, decode: Decoder, chain: Chain, lo: int, mid: int, hi: int, dead: multiset<Log>, kept: seq<Log>)
    requires lo <= mid <= hi && DeadExact(cfg, decode, chain, lo, mid, dead) && Keeps(cfg, decode, chain, mid, hi, kept)
    ensures DeadExact(cfg, decode, chain, lo, hi, dead + multiset(DeadOf(cfg, decode, kept)))
  {
    DeadOfCounts(cfg, decode, kept);
    forall log: Log
      ensures multiset(DeadOf(cfg, decode, kept))[log] == if Fails(cfg, decode, chain, log) && mid < log.block <= hi then 1 else 0
    {
    }
  }

  lemma CommitExact(cfg: Config, decode: Decoder, chain: Chain, lo: int, mid: int, hi: int, db: Db, kept: seq<Log>)
    requires ValidChain(chain) && lo <= mid <= hi
    requires Exact(cfg, decode, chain, lo, mid, db) && Keeps(cfg, decode, chain, mid, hi, kept)
    ensures Exact(cfg, decode, chain, lo, hi, Commit(db, RowsOf(cfg, decode, kept), DeadOf(cfg, decode, kept), hi))
  {
    KeptRows(cfg, decode, chain, mid, hi, kept);
    CommitRows(cfg, decode, chain, lo, mid, hi, db.events, RowsOf(cfg, decode, kept));
    RowsForBlocks(cfg, decode, chain, mid, hi, RowsOf(cfg, decode, kept));
    CommitBlocks(cfg, decode, chain, lo, mid, hi, db.blocks, BlocksOf(RowsOf(cfg, decode, kept)));
    CommitDead(cfg, decode, chain, lo, mid, hi, db.dead, kept);
  }

  /** What a covered round keeps. */
  lemma HonestKeeps(cfg: Config, decode: Decoder, chain: Chain, range: BlockRange, guarded: bool, fetch: Fetch)
    requires fetch.Fetched? && HonestFetch(cfg, chain, range, fetch.queryHead, fetch.logs)
    requires Covered(cfg, decode, chain, range, guarded, fetch)
    ensures Keeps(cfg, decode, chain, range.fromBlock - 1, Safe(range, guarded, fetch), Kept(range, guarded, fetch))
  {
    DistinctCounts(fetch.logs);
    UpToCounts(fetch.logs, Safe(range, guarded, fetch));
    forall log: Log | Tracked(cfg, decode, chain, log) && range.fromBlock <= log.block <= Safe(range, guarded, fetch)
      ensures log in fetch.logs
    {
      TrackedIsQueried(cfg, decode, log);
    }
  }

  // ----- every run -------------------------------------------------------------------------------

  function Start(cfg: Config): State {
    State(EMPTY, NewSizer(cfg.batchBlocks))
  }

  ghost predicate Sound(cfg: Config, decode: Decoder, chain: Chain, s: State) {
    && cfg.contracts != [] && ValidSizer(s.sizer) && s.sizer.max == cfg.batchBlocks
    && (s.db.cursor.None? ==> s.db == EMPTY)
    && (s.db.cursor.Some? ==> InitialCursor(cfg) <= s.db.cursor.value &&
                              Exact(cfg, decode, chain, InitialCursor(cfg), s.db.cursor.value, s.db))
  }

  lemma BootSound(cfg: Config, decode: Decoder, chain: Chain, s: State)
    requires ValidConfig(cfg) && Sound(cfg, decode, chain, s)
    ensures Sound(cfg, decode, chain, Boot(cfg, s))
  {
  }

  lemma SizerSound(cfg: Config, decode: Decoder, chain: Chain, s: State, sizer: Sizer)
    requires Sound(cfg, decode, chain, s) && ValidSizer(sizer) && sizer.max == s.sizer.max
    ensures Sound(cfg, decode, chain, s.(sizer := sizer))
  {
  }

  lemma CommittedIsSound(cfg: Config, decode: Decoder, chain: Chain, s: State, safeTo: int, kept: seq<Log>)
    requires ValidChain(chain) && Sound(cfg, decode, chain, s)
    requires s.db.cursor.Some? && s.db.cursor.value <= safeTo && Keeps(cfg, decode, chain, s.db.cursor.value, safeTo, kept)
    ensures Sound(cfg, decode, chain, s.(db := Commit(s.db, RowsOf(cfg, decode, kept), DeadOf(cfg, decode, kept), safeTo)))
  {
    CommitExact(cfg, decode, chain, InitialCursor(cfg), s.db.cursor.value, safeTo, s.db, kept);
  }

  lemma FinishCases(cfg: Config, decode: Decoder, s: State, range: BlockRange, guarded: bool, r: Round)
    requires ValidSizer(s.sizer)
    ensures var s' := Finish(cfg, decode, s, range, guarded, r).0;
            && ValidSizer(s'.sizer) && s'.sizer.max == s.sizer.max
            && (s'.db == s.db
                || (r.fetch.Fetched? && !(guarded && r.fetch.queryHead < range.fromBlock)
                    && s'.db == Commit(s.db, RowsOf(cfg, decode, Kept(range, guarded, r.fetch)),
                                       DeadOf(cfg, decode, Kept(range, guarded, r.fetch)), Safe(range, guarded, r.fetch))))
  {
  }

  lemma FinishSound(cfg: Config, decode: Decoder, chain: Chain, s: State, range: BlockRange, guarded: bool, r: Round)
    requires ValidChain(chain) && Sound(cfg, decode, chain, s)
    requires s.db.cursor == Some(range.fromBlock - 1) && range.fromBlock <= range.toBlock
    requires r.fetch.Fetched? ==> HonestFetch(cfg, chain, range, r.fetch.queryHead, r.fetch.logs)
    requires r.fetch.Fetched? && Finish(cfg, decode, s, range, guarded, r).0.db != s.db ==> Covered(cfg, decode, chain, range, guarded, r.fetch)
    ensures Sound(cfg, decode, chain, Finish(cfg, decode, s, range, guarded, r).0)
  {
    var s' := Finish(cfg, decode, s, range, guarded, r).0;
    FinishCases(cfg, decode, s, range, guarded, r);
    if s'.db == s.db {
      SizerSound(cfg, decode, chain, s, s'.sizer);
      assert s' == s.(sizer := s'.sizer);
    } else {
      var safeTo, kept := Safe(range, guarded, r.fetch), Kept(range, guarded, r.fetch);
      HonestKeeps(cfg, decode, chain, range, guarded, r.fetch);
      CommittedIsSound(cfg, decode, chain, s, safeTo, kept);
      SizerSound(cfg, decode, chain, s.(db := s'.db), s'.sizer);
      assert s' == s.(db := s'.db).(sizer := s'.sizer);
    }
  }

  /** What a round does to the database: nothing, or one commit past the cursor, to the end of its range at most. */
  lemma RoundCases(cfg: Config, decode: Decoder, s: State, r: Round)
    requires ValidSizer(s.sizer)
    ensures var s' := RunOnce(cfg, decode, s, r).0;
            && (!Commits(s, r) ==> s'.db == s.db)
            && (Commits(s, r) ==>
                  var (range, guarded) := Planned(s, r).value;
                  && s.db.cursor == Some(range.fromBlock - 1)
                  && range.fromBlock <= Safe(range, guarded, r.fetch) <= range.toBlock <= s.db.cursor.value + s.sizer.current
                  && range.toBlock <= Target(s.db.cursor.value, r).value.0
                  && s'.db == Commit(s.db, RowsOf(cfg, decode, Kept(range, guarded, r.fetch)),
                                     DeadOf(cfg, decode, Kept(range, guarded, r.fetch)), Safe(range, guarded, r.fetch)))
  {
  }

  /**
   A round that changes the database moves the cursor forward, by at most the span and never past its
   target, and where nothing escapes it leaves exactly the logs up to there; any other leaves the database alone.
   */
  lemma RoundSound(cfg: Config, decode: Decoder, chain: Chain, s: State, r: Round)
    requires ValidConfig(cfg) && ValidChain(chain) && Sound(cfg, decode, chain, s) && Honest(cfg, chain, s, Ran(r))
    ensures CoversRound(cfg, decode, chain, s, Ran(r)) ==> Sound(cfg, decode, chain, RunOnce(cfg, decode, s, r).0)
    ensures var db' := RunOnce(cfg, decode, s, r).0.db;
            if Commits(s, r) then
              && s.db.cursor.Some? && db'.cursor.Some? && Target(s.db.cursor.value, r).Some?
              && s.db.cursor.value < db'.cursor.value <= Target(s.db.cursor.value, r).value.0
              && db'.cursor.value <= s.db.cursor.value + s.sizer.current
            else db' == s.db
  {
    RoundCases(cfg, decode, s, r);
    if CoversRound(cfg, decode, chain, s, Ran(r)) && Planned(s, r).Some? {
      FinishSound(cfg, decode, chain, s, Planned(s, r).value.0, Planned(s, r).value.1, r);
    }
  }

  ghost predicate Legal(cfg: Config, decode: Decoder, chain: Chain, s: State, es: seq<Event>)
    requires cfg.contracts != []
    decreases |es|
  {
    es == [] || (Honest(cfg, chain, s, es[0]) && Legal(cfg, decode, chain, Step(cfg, decode, s, es[0]), es[1..]))
  }

  function Run(cfg: Config, decode: Decoder, s: State, es: seq<Event>): State
    requires cfg.contracts != []
    decreases |es|
  {
    if es == [] then s else Run(cfg, decode, Step(cfg, decode, s, es[0]), es[1..])
  }

  /** Nothing escapes any of the run's rounds. */
  ghost predicate AllCovered(cfg: Config, decode: Decoder, chain: Chain, s: State, es: seq<Event>)
    requires cfg.contracts != []
    decreases |es|
  {
    es == [] || (CoversRound(cfg, decode, chain, s, es[0]) && AllCovered(cfg, decode, chain, Step(cfg, decode, s, es[0]), es[1..]))
  }

  lemma StepSound(cfg: Config, decode: Decoder, chain: Chain, s: State, e: Event)
    requires ValidConfig(cfg) && ValidChain(chain) && Sound(cfg, decode, chain, s) && Honest(cfg, chain, s, e)
    requires CoversRound(cfg, decode, chain, s, e)
    ensures Sound(cfg, decode, chain, Step(cfg, decode, s, e))
  {
    if e.Ran? {
      RoundSound(cfg, decode, chain, s, e.round);
    } else {
      BootSound(cfg, decode, chain, s);
    }
  }

  lemma {:induction false} SoundRun(cfg: Config, decode: Decoder, chain: Chain, s: State, es: seq<Event>)
    requires ValidConfig(cfg) && ValidChain(chain) && Sound(cfg, decode, chain, s) && Legal(cfg, decode, chain, s, es)
    requires AllCovered(cfg, decode, chain, s, es)
    ensures Sound(cfg, decode, chain, Run(cfg, decode, s, es))
    decreases |es|
  {
    if es != [] {
      StepSound(cfg, decode, chain, s, es[0]);
      SoundRun(cfg, decode, chain, Step(cfg, decode, s, es[0]), es[1..]);
    }
  }

  // ----- what escapes is lost ---------------------------------------------------------------------

  /** A tracked log behind the cursor that is neither a row nor a dead letter. */
  ghost predicate Lost(cfg: Config, decode: Decoder, chain: Chain, db: Db, log: Log)
    requires cfg.contracts != []
  {
    && Tracked(cfg, decode, chain, log) && db.cursor.Some? && InitialCursor(cfg) < log.block <= db.cursor.value
    && (FateOf(cfg, decode, log).Stored? ==> FateOf(cfg, decode, log).row.key !in db.events)
    && (FateOf(cfg, decode, log).Dead? ==> db.dead[log] == 0)
  }

  lemma LostIsNotExact(cfg: Config, decode: Decoder, chain: Chain, db: Db, log: Log)
    requires cfg.contracts != [] && Lost(cfg, decode, chain, db, log)
    ensures !Exact(cfg, decode, chain, InitialCursor(cfg), db.cursor.value, db)
  {
    if FateOf(cfg, decode, log).Stored? {
      assert Becomes(cfg, decode, chain, log, FateOf(cfg, decode, log).row);
    } else {
      assert Fails(cfg, decode, chain, log);
    }
  }

  lemma {:induction false} InsertRowsKeys(events: map<RowKey, Columns>, rows: seq<Row>, k: RowKey)
    ensures k in InsertRows(events, rows) ==> k in events || exists r :: r in rows && r.key == k
  {
    if rows != [] {
      var init, last := rows[..|rows| - 1], rows[|rows| - 1];
      assert rows == init + [last];
      InsertRowsKeys(events, init, k);
    }
  }

  /** A commit of logs of the chain that leaves `log` out does not write it. */
  lemma CommitLeavesOut(cfg: Config, decode: Decoder, chain: Chain, db: Db, kept: seq<Log>, log: Log, newCursor: int)
    requires ValidChain(chain) && Tracked(cfg, decode, chain, log) && log !in kept
    requires forall l: Log :: l in kept ==> l in chain(l.block)
    ensures var db' := Commit(db, RowsOf(cfg, decode, kept), DeadOf(cfg, decode, kept), newCursor);
            && (FateOf(cfg, decode, log).Stored? && FateOf(cfg, decode, log).row.key !in db.events ==>
                  FateOf(cfg, decode, log).row.key !in db'.events)
            && db'.dead[log] == db.dead[log]
  {
    var fate, rows := FateOf(cfg, decode, log), RowsOf(cfg, decode, kept);
    RowsOfMembers(cfg, decode, kept);
    DeadOfCounts(cfg, decode, kept);
    if fate.Stored? {
      forall r | r in rows
        ensures r.key != fate.row.key
      {
        var l: Log :| l in kept && FateOf(cfg, decode, l) == Stored(r);
        if r.key == fate.row.key { RowsAreNamed(cfg, decode, chain, l, log, r, fate.row); }
      }
      InsertRowsKeys(db.events, rows, fate.row.key);
    }
  }

  lemma KeptIsFetched(range: BlockRange, guarded: bool, fetch: Fetch, log: Log)
    requires fetch.Fetched? && log in Kept(range, guarded, fetch)
    ensures log in fetch.logs
  {
    UpToCounts(fetch.logs, Safe(range, guarded, fetch));
    assert multiset(Kept(range, guarded, fetch))[log] > 0;
  }

  /** What a committed round leaves out of its range is lost. */
  lemma EscapedIsLost(cfg: Config, decode: Decoder, chain: Chain, s: State, r: Round) returns (log: Log)
    requires ValidConfig(cfg) && ValidChain(chain) && Sound(cfg, decode, chain, s) && Honest(cfg, chain, s, Ran(r))
    requires Commits(s, r) && !CoversRound(cfg, decode, chain, s, Ran(r))
    ensures Lost(cfg, decode, chain, RunOnce(cfg, decode, s, r).0.db, log)
  {
    var (range, guarded) := Planned(s, r).value;
    RoundCases(cfg, decode, s, r);
    log :| Tracked(cfg, decode, chain, log) && range.fromBlock <= log.block <= range.toBlock && log !in r.fetch.logs;
    NotYetWritten(cfg, decode, chain, s, log);
    CommitLeavesOut(cfg, decode, chain, s.db, r.fetch.logs, log, range.toBlock);
  }

  /** A sound database has written nothing past its cursor. */
  lemma NotYetWritten(cfg: Config, decode: Decoder, chain: Chain, s: State, log: Log)
    requires ValidChain(chain) && Sound(cfg, decode, chain, s) && s.db.cursor.Some? && log.block > s.db.cursor.value
    requires Tracked(cfg, decode, chain, log)
    ensures FateOf(cfg, decode, log).Stored? ==> FateOf(cfg, decode, log).row.key !in s.db.events
    ensures s.db.dead[log] == 0
  {
    if FateOf(cfg, decode, log).Stored? {
      var row := FateOf(cfg, decode, log).row;
      if row.key in s.db.events {
        var l: Log :| Becomes(cfg, decode, chain, l, Row(row.key, s.db.events[row.key])) && l.block <= s.db.cursor.value;
        RowsAreNamed(cfg, decode, chain, l, log, Row(row.key, s.db.events[row.key]), row);
      }
    }
  }

  /** And stays lost: no later round looks behind the cursor. */
  lemma LostStays(cfg: Config, decode: Decoder, chain: Chain, s: State, e: Event, log: Log)
    requires ValidConfig(cfg) && ValidChain(chain) && ValidSizer(s.sizer) && Honest(cfg, chain, s, e)
    requires Lost(cfg, decode, chain, s.db, log)
    ensures Lost(cfg, decode, chain, Step(cfg, decode, s, e).db, log) && ValidSizer(Step(cfg, decode, s, e).sizer)
  {
    if e.Ran? {
      RoundCases(cfg, decode, s, e.round);
      if Commits(s, e.round) {
        var (range, guarded) := Planned(s, e.round).value;
        var kept := Kept(range, guarded, e.round.fetch);
        forall l: Log | l in kept
          ensures l in chain(l.block) && l != log
        {
          KeptIsFetched(range, guarded, e.round.fetch, l);
        }
        CommitLeavesOut(cfg, decode, chain, s.db, kept, log, Safe(range, guarded, e.round.fetch));
      }
      SizerStays(cfg, decode, s, e.round);
    }
  }

  lemma SizerStays(cfg: Config, decode: Decoder, s: State, r: Round)
    requires ValidSizer(s.sizer)
    ensures ValidSizer(RunOnce(cfg, decode, s, r).0.sizer) && RunOnce(cfg, decode, s, r).0.sizer.max == s.sizer.max
  {
    if Planned(s, r).Some? { FinishCases(cfg, decode, s, Planned(s, r).value.0, Planned(s, r).value.1, r); }
  }

  lemma {:induction false} LostForGood(cfg: Config, decode: Decoder, chain: Chain, s: State, es: seq<Event>, log: Log)
    requires ValidConfig(cfg) && ValidChain(chain) && ValidSizer(s.sizer) && Legal(cfg, decode, chain, s, es)
    requires Lost(cfg, decode, chain, s.db, log)
    ensures Lost(cfg, decode, chain, Run(cfg, decode, s, es).db, log)
    decreases |es|
  {
    if es != [] {
      LostStays(cfg, decode, chain, s, es[0], log);
      LostForGood(cfg, decode, chain, Step(cfg, decode, s, es[0]), es[1..], log);
    }
  }

  lemma {:induction false} UncoveredRunLoses(cfg: Config, decode: Decoder, chain: Chain, s: State, es: seq<Event>) returns (log: Log)
    requires ValidConfig(cfg) && ValidChain(chain) && Sound(cfg, decode, chain, s) && Legal(cfg, decode, chain, s, es)
    requires !AllCovered(cfg, decode, chain, s, es)
    ensures Lost(cfg, decode, chain, Run(cfg, decode, s, es).db, log)
    decreases |es|
  {
    var s' := Step(cfg, decode, s, es[0]);
    if CoversRound(cfg, decode, chain, s, es[0]) {
      StepSound(cfg, decode, chain, s, es[0]);
      log := UncoveredRunLoses(cfg, decode, chain, s', es[1..]);
    } else {
      log := EscapedIsLost(cfg, decode, chain, s, es[0].round);
      SizerStays(cfg, decode, s, es[0].round);
      LostForGood(cfg, decode, chain, s', es[1..], log);
    }
  }

  lemma {:induction false} StartIsConfigured(contracts: seq<Contract>, address: string)
    requires exists c :: c in contracts && Lower(c.address) == address
    ensures exists c :: c in contracts && StartBlock(contracts, address) == c.startBlock
  {
    var last := contracts[|contracts| - 1];
    if Lower(last.address) != address {
      StartIsConfigured(contracts[..|contracts| - 1], address);
    }
  }

  /** The initial cursor skips no tracked log: each is at or past its contract's start block. */
  lemma TrackedIsPastInitial(cfg: Config, decode: Decoder, log: Log)
    requires ValidConfig(cfg) && !FateOf(cfg, decode, log).Ignored?
    ensures log.block > InitialCursor(cfg)
  {
    TrackedIsQueried(cfg, decode, log);
    StartIsConfigured(cfg.contracts, Lower(log.address));
  }

  /** The initial cursor skips nothing, so exact from it on is exact from the first block on. */
  lemma ExactFromStart(cfg: Config, decode: Decoder, chain: Chain, hi: int, db: Db)
    requires ValidConfig(cfg) && Exact(cfg, decode, chain, InitialCursor(cfg), hi, db)
    ensures Exact(cfg, decode, chain, -1, hi, db)
  {
    forall log: Log
      ensures !FateOf(cfg, decode, log).Ignored? ==> log.block > InitialCursor(cfg)
    {
      if !FateOf(cfg, decode, log).Ignored? { TrackedIsPastInitial(cfg, decode, log); }
    }
    assert DeadExact(cfg, decode, chain, -1, hi, db.dead);
    assert RowsExact(cfg, decode, chain, -1, hi, db.events);
    assert BlocksExact(cfg, decode, chain, -1, hi, db.blocks);
  }

  /**
   Whatever happens (announced or polled heads, lagging nodes, range caps, failed reads, rollbacks, lost
   replies, crashes and restarts), the database holds exactly the chain's tracked logs up to the cursor,
   from the contracts' first blocks on, each decodable one as its row and each other as one dead letter,
   if and only if nothing escaped a committed round. A round whose guard ran lets nothing escape, however
   far its node lags; one that polled the head has no guard.
   */
  lemma IngestIsComplete(cfg: Config, decode: Decoder, chain: Chain, es: seq<Event>, db: Db)
    requires ValidConfig(cfg) && ValidChain(chain) && Legal(cfg, decode, chain, Start(cfg), es)
    requires db == Run(cfg, decode, Start(cfg), es).db && db.cursor.Some?
    ensures AllCovered(cfg, decode, chain, Start(cfg), es) <==> Exact(cfg, decode, chain, InitialCursor(cfg), db.cursor.value, db)
    ensures AllCovered(cfg, decode, chain, Start(cfg), es) ==> Exact(cfg, decode, chain, -1, db.cursor.value, db)
  {
    if AllCovered(cfg, decode, chain, Start(cfg), es) {
      SoundRun(cfg, decode, chain, Start(cfg), es);
      ExactFromStart(cfg, decode, chain, db.cursor.value, db);
    } else {
      var log := UncoveredRunLoses(cfg, decode, chain, Start(cfg), es);
      LostIsNotExact(cfg, decode, chain, db, log);
    }
  }

  /** One round: committed, it keeps the database exact if and only if nothing escaped it. */
  lemma RoundIsCompleteExactly(cfg: Config, decode: Decoder, chain: Chain, s: State, r: Round, db: Db)
    requires ValidConfig(cfg) && ValidChain(chain) && Sound(cfg, decode, chain, s) && Honest(cfg, chain, s, Ran(r))
    requires Commits(s, r) && db == RunOnce(cfg, decode, s, r).0.db
    ensures db.cursor.Some?
    ensures Exact(cfg, decode, chain, InitialCursor(cfg), db.cursor.value, db) <==>
            Covered(cfg, decode, chain, Planned(s, r).value.0, Planned(s, r).value.1, r.fetch)
  {
    RoundSound(cfg, decode, chain, s, r);
    if !CoversRound(cfg, decode, chain, s, Ran(r)) {
      var log := EscapedIsLost(cfg, decode, chain, s, r);
      LostIsNotExact(cfg, decode, chain, db, log);
    }
  }

  /** The head is polled at `block`, and the node that answers `getLogs` is one block behind it. */
  predicate LagsByOne(s: State, r: Round, block: nat) {
    && block > 0 && s.db.cursor == Some(block - 1)
    && r.signal.None? && r.head == Some(block) && r.fetch == Fetched([], block - 1) && r.timesRead && r.ending.Committed?
  }

  lemma LagsPlanned(s: State, r: Round, block: nat)
    requires LagsByOne(s, r, block) && ValidSizer(s.sizer)
    ensures Planned(s, r) == Some((BlockRange(block, block), false)) && Commits(s, r)
  {
  }

  /** The input that loses a log. */
  lemma LaggingPollLoses(cfg: Config, decode: Decoder, chain: Chain, s: State, r: Round, log: Log)
    requires ValidConfig(cfg) && ValidChain(chain) && Sound(cfg, decode, chain, s) && LagsByOne(s, r, log.block)
    requires Tracked(cfg, decode, chain, log)
    ensures Honest(cfg, chain, s, Ran(r)) && Lost(cfg, decode, chain, RunOnce(cfg, decode, s, r).0.db, log)
  {
    LagsPlanned(s, r, log.block);
    NotYetWritten(cfg, decode, chain, s, log);
    RoundCases(cfg, decode, s, r);
    assert Kept(BlockRange(log.block, log.block), false, r.fetch) == [];
    CommitLeavesOut(cfg, decode, chain, s.db, r.fetch.logs, log, log.block);
  }

  /** One contract from block 5 on, of which one event is tracked. */
  lemma OneEvent(cfg: Config, decode: Decoder, log: Log)
    requires cfg.contracts == [Contract("a", 5)] && cfg.defs == [EventDef("a", "t", "transfers")] && cfg.batchBlocks == 1
    requires log == Log(5, 0, "a", ["t"], "", "")
    ensures ValidConfig(cfg) && InitialCursor(cfg) == 4 && !FateOf(cfg, decode, log).Ignored?
  {
    assert Lower("a") == "a";
    assert cfg.contracts[0] in cfg.contracts;
    assert Lookup(cfg.defs, "a", "t") == Some(cfg.defs[0]);
    assert StartBlock(cfg.contracts, "a") == 5;
  }

  lemma OneMore(cfg: Config, decode: Decoder, chain: Chain, s: State, e: Event, rest: seq<Event>)
    requires cfg.contracts != [] && Honest(cfg, chain, s, e) && Legal(cfg, decode, chain, Step(cfg, decode, s, e), rest)
    ensures Legal(cfg, decode, chain, s, [e] + rest)
    ensures Run(cfg, decode, s, [e] + rest) == Run(cfg, decode, Step(cfg, decode, s, e), rest)
  {
    assert ([e] + rest)[1..] == rest;
  }

  /** Such an input from the first round of all: nothing but one log at block 5, and a node that has seen block 4. */
  lemma FirstRoundLoses(decode: Decoder) returns (cfg: Config, chain: Chain, log: Log, r: Round)
    ensures ValidConfig(cfg) && ValidChain(chain) && LagsByOne(Boot(cfg, Start(cfg)), r, log.block)
    ensures Legal(cfg, decode, chain, Start(cfg), [Booted, Ran(r)])
    ensures Lost(cfg, decode, chain, Run(cfg, decode, Start(cfg), [Booted, Ran(r)]).db, log)
  {
    log := Log(5, 0, "a", ["t"], "", "");
    cfg := Config([Contract("a", 5)], [EventDef("a", "t", "transfers")], 1);
    chain := b => if b == 5 then [log] else [];
    r := Round(None, Some(5), Fetched([], 4), true, Committed);
    OneEvent(cfg, decode, log);
    BootSound(cfg, decode, chain, Start(cfg));
    LaggingPollLoses(cfg, decode, chain, Boot(cfg, Start(cfg)), r, log);
    OneMore(cfg, decode, chain, Boot(cfg, Start(cfg)), Ran(r), []);
    OneMore(cfg, decode, chain, Start(cfg), Booted, [Ran(r)] + []);
    assert [Booted] + ([Ran(r)] + []) == [Booted, Ran(r)];
  }

  /** A provider that refuses only ranges of more than `cap` blocks. */
  ghost predicate CapsOnlyOver(cfg: Config, decode: Decoder, s: State, es: seq<Event>, cap: nat)
    requires cfg.contracts != []
    decreases |es|
  {
    es == [] ||
    ((es[0].Ran? && es[0].round.fetch.CapExceeded? && s.db.cursor.Some? && Target(s.db.cursor.value, es[0].round).Some? ==>
        var range := PlanRange(s.db.cursor.value, Target(s.db.cursor.value, es[0].round).value.0, s.sizer.current);
        range.Some? ==> range.value.toBlock - range.value.fromBlock + 1 > cap)
     && CapsOnlyOver(cfg, decode, Step(cfg, decode, s, es[0]), es[1..], cap))
  }

  /** A refused range was wider than the cap, so half its span is at least half the cap. */
  lemma SpanStep(cfg: Config, decode: Decoder, s: State, e: Event, cap: nat)
    requires cfg.contracts != [] && cfg.batchBlocks >= 1 && ValidSizer(s.sizer) && s.sizer.max == cfg.batchBlocks
    requires s.sizer.current >= Min(cfg.batchBlocks, (cap + 1) / 2)
    requires e.Ran? && e.round.fetch.CapExceeded? && Planned(s, e.round).Some? ==>
               Planned(s, e.round).value.0.toBlock - Planned(s, e.round).value.0.fromBlock + 1 > cap
    ensures var s' := Step(cfg, decode, s, e);
            ValidSizer(s'.sizer) && s'.sizer.max == cfg.batchBlocks && s'.sizer.current >= Min(cfg.batchBlocks, (cap + 1) / 2)
  {
    if e.Ran? { SizerStays(cfg, decode, s, e.round); }
  }

  /** Against such a provider the working span never falls below half the cap, rounded up. */
  lemma {:induction false} SpanStaysUp(cfg: Config, decode: Decoder, s: State, es: seq<Event>, cap: nat)
    requires cfg.contracts != [] && cfg.batchBlocks >= 1 && ValidSizer(s.sizer) && s.sizer.max == cfg.batchBlocks
    requires s.sizer.current >= Min(cfg.batchBlocks, (cap + 1) / 2) && CapsOnlyOver(cfg, decode, s, es, cap)
    ensures Run(cfg, decode, s, es).sizer.current >= Min(cfg.batchBlocks, (cap + 1) / 2)
    decreases |es|
  {
    if es != [] {
      SpanStep(cfg, decode, s, es[0], cap);
      SpanStaysUp(cfg, decode, Step(cfg, decode, s, es[0]), es[1..], cap);
    }
  }

  // ----- what becomes of a log, by the configuration ----------------------------------------------

  /** The definition is of the log's contract, in lower case, and of its first topic. */
  predicate Defines(d: EventDef, log: Log) {
    d.address == Lower(log.address) && log.topics != [] && d.topic0 == log.topics[0]
  }

  /** Letters A to Z become a to z, and nothing else changes. */
  lemma LowerIs(s: string, i: nat)
    requires i < |s|
    ensures |Lower(s)| == |s| && Lower(s)[i] == if 'A' <= s[i] <= 'Z' then s[i] + (32 as char) else s[i]
  {
  }

  lemma {:induction false} LookupIsLast(defs: seq<EventDef>, log: Log) returns (i: nat)
    requires log.topics != []
    ensures var def := Lookup(defs, Lower(log.address), log.topics[0]);
            if def.None? then forall j :: 0 <= j < |defs| ==> !Defines(defs[j], log)
            else i < |defs| && def == Some(defs[i]) && Defines(defs[i], log) && forall j :: i < j < |defs| ==> !Defines(defs[j], log)
  {
    i := 0;
    if defs != [] {
      var last := |defs| - 1;
      if Defines(defs[last], log) {
        i := last;
      } else {
        i := LookupIsLast(defs[..last], log);
      }
    }
  }

  /** The block a contract's logs count from: as the last contract listed at the address says, else the first block of all. */
  ghost predicate StartsAt(contracts: seq<Contract>, address: string, start: nat) {
    || (start == 0 && forall j :: 0 <= j < |contracts| ==> Lower(contracts[j].address) != address)
    || (exists i :: 0 <= i < |contracts| && Lower(contracts[i].address) == address && start == contracts[i].startBlock &&
                    forall j :: i < j < |contracts| ==> Lower(contracts[j].address) != address)
  }

  lemma {:induction false} StartBlockIsLast(contracts: seq<Contract>, address: string)
    ensures StartsAt(contracts, address, StartBlock(contracts, address))
  {
    if contracts != [] {
      var init, last := contracts[..|contracts| - 1], contracts[|contracts| - 1];
      if Lower(last.address) == address {
        assert contracts[|contracts| - 1].startBlock == StartBlock(contracts, address);
      } else {
        StartBlockIsLast(init, address);
        if i :| 0 <= i < |init| && Lower(init[i].address) == address && StartBlock(contracts, address) == init[i].startBlock &&
                forall j :: i < j < |init| ==> Lower(init[j].address) != address {
          assert contracts[i] == init[i];
        }
      }
    }
  }

  /** A log before its contract's start, or of no event defined there. */
  ghost predicate Untracked(cfg: Config, log: Log, start: nat) {
    log.block < start || forall j :: 0 <= j < |cfg.defs| ==> !Defines(cfg.defs[j], log)
  }

  /**
   A log is left out exactly where no definition names its contract and first topic, or it is before its
   contract's start. Any other is decoded by the last definition that does: into a row of its table, under
   the log's block and index, or else a dead letter.
   */
  lemma FateIsByDefinition(cfg: Config, decode: Decoder, log: Log) returns (i: nat, start: nat)
    ensures StartsAt(cfg.contracts, Lower(log.address), start)
    ensures FateOf(cfg, decode, log).Ignored? <==> Untracked(cfg, log, start)
    ensures !Untracked(cfg, log, start) ==>
              && i < |cfg.defs| && Defines(cfg.defs[i], log) && (forall j :: i < j < |cfg.defs| ==> !Defines(cfg.defs[j], log))
              && FateOf(cfg, decode, log) ==
                 match decode(cfg.defs[i], log) {
                   case Some(columns) => Stored(Row(RowKey(cfg.defs[i].tableName, log.block, log.index), columns))
                   case None => Dead
                 }
  {
    i, start := 0, StartBlock(cfg.contracts, Lower(log.address));
    StartBlockIsLast(cfg.contracts, Lower(log.address));
    if log.topics != [] { i := LookupIsLast(cfg.defs, log); }
  }

  lemma {:induction false} MinStartIsOne(contracts: seq<Contract>) returns (i: nat)
    requires contracts != []
    ensures i < |contracts| && contracts[i].startBlock == MinStart(contracts)
  {
    i := |contracts| - 1;
    if |contracts| > 1 && MinStart(contracts) != contracts[i].startBlock { i := MinStartIsOne(contracts[..i]); }
  }

  /** Ingest begins at the earliest block any contract starts at: none before it, and not later. */
  lemma BeginsAtEarliest(cfg: Config)
    requires cfg.contracts != []
    ensures forall c :: c in cfg.contracts ==> InitialCursor(cfg) < c.startBlock
    ensures exists c :: c in cfg.contracts && c.startBlock == InitialCursor(cfg) + 1
  {
    var i := MinStartIsOne(cfg.contracts);
    assert cfg.contracts[i] in cfg.contracts;
  }

  // ----- a round, written out --------------------------------------------------------------------

  /** The head is announced past the cursor, or polled and the same as announced: the query node's own head is read beside the logs. */
  predicate Announced(cursor: int, r: Round) {
    r.signal.Some? && (r.signal.value > cursor || r.head == r.signal)
  }

  /** The head a round aims at: the one announced past the cursor, else the one polled. */
  function Aim(cursor: int, r: Round): Option<nat> {
    if r.signal.Some? && r.signal.value > cursor then r.signal else r.head
  }

  /** The last block a round that fetched may write: no further than its aim, its span, and what its node had seen where that is known. */
  function Furthest(cursor: int, aim: nat, span: nat, r: Round): int
    requires r.fetch.Fetched?
  {
    var end := if aim < cursor + span then aim else cursor + span;
    if Announced(cursor, r) && r.fetch.queryHead < end then r.fetch.queryHead else end
  }

  /**
   Every way a round can end, by what it is answered: the cursor it leaves, its span, and what it reports.
   An error leaves everything as it was but for a commit whose reply was lost, which is there all the same.
   */
  lemma RoundWrittenOut(cfg: Config, decode: Decoder, s: State, r: Round, cursor: int)
    requires ValidSizer(s.sizer) && s.db.cursor == Some(cursor)
    ensures var (s', outcome), aim := RunOnce(cfg, decode, s, r), Aim(cursor, r);
            if aim.None? then s' == s && outcome == Threw
            else if aim.value <= cursor then s' == s && outcome == Idle
            else match r.fetch
              case FetchFailed => s' == s && outcome == Threw
              case CapExceeded =>
                if s.sizer.current == 1 then s' == s && outcome == Threw
                else s' == s.(sizer := Sizer(s.sizer.max, s.sizer.current / 2, 0)) && outcome == Progressed
              case Fetched(_, _) =>
                var end := Furthest(cursor, aim.value, s.sizer.current, r);
                if end <= cursor then s' == s && outcome == Idle
                else if !r.timesRead || r.ending.RolledBack? then s' == s && outcome == Threw
                else
                  && s'.db.cursor == Some(end)
                  && (if r.ending.Committed? then outcome == Progressed && s'.sizer == Succeeded(s.sizer)
                      else outcome == Threw && s'.sizer == s.sizer)
  {
  }

  /** An announced round lets nothing escape, however far the query node lags. */
  lemma AnnouncedIsComplete(cfg: Config, decode: Decoder, chain: Chain, s: State, r: Round)
    requires ValidConfig(cfg) && ValidChain(chain) && Sound(cfg, decode, chain, s) && Honest(cfg, chain, s, Ran(r))
    requires s.db.cursor.Some? && Announced(s.db.cursor.value, r)
    ensures Sound(cfg, decode, chain, RunOnce(cfg, decode, s, r).0)
  {
    RoundSound(cfg, decode, chain, s, r);
  }

  /** A start writes the cursor only where there is none, and begins with the whole batch as its span. */
  lemma BootWrittenOut(cfg: Config, s: State)
    requires cfg.contracts != []
    ensures Boot(cfg, s).sizer == Sizer(cfg.batchBlocks, cfg.batchBlocks, 0)
    ensures s.db.cursor.Some? ==> Boot(cfg, s).db == s.db
    ensures s.db.cursor.None? ==> Boot(cfg, s).db == s.db.(cursor := Some(InitialCursor(cfg)))
  {
  }

  /** What is stored under a key stays, and of several new rows with one key the first is stored. */
  lemma {:induction false} FirstWriteStays(events: map<RowKey, Columns>, rows: seq<Row>, k: RowKey)
    ensures var after := InsertRows(events, rows);
            && (k in after <==> k in events || exists i :: 0 <= i < |rows| && rows[i].key == k)
            && (k in events ==> after[k] == events[k])
            && forall i :: 0 <= i < |rows| && rows[i].key == k && k !in events && (forall j :: 0 <= j < i ==> rows[j].key != k) ==>
                 after[k] == rows[i].columns
  {
    if rows != [] {
      var init, n := rows[..|rows| - 1], |rows| - 1;
      FirstWriteStays(events, init, k);
      assert forall i :: 0 <= i < n ==> init[i] == rows[i];
      if rows[n].key == k { assert exists i :: 0 <= i < |rows| && rows[i].key == k; }
    }
  }

  /** A run is its events, one after the other. */
  lemma {:induction false} EventsAct(cfg: Config, decode: Decoder, s: State, es: seq<Event>, e: Event)
    requires cfg.contracts != []
    ensures Run(cfg, decode, s, []) == s && Run(cfg, decode, s, es + [e]) == Step(cfg, decode, Run(cfg, decode, s, es), e)
    decreases |es|
  {
    if es == [] {
      assert [e][1..] == [];
      assert [] + [e] == [e];
    } else {
      assert (es + [e])[1..] == es[1..] + [e];
      EventsAct(cfg, decode, Step(cfg, decode, s, es[0]), es[1..], e);
    }
  }
}
