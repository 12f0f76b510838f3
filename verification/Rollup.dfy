/**
 The per-address daily rollup (packages/explorer/lib/rollup.ts): totals folded range by range behind
 the worker's cursor, by competing replicas, while ingest keeps committing.

 Each await of `step` is a point where others run, so a step is a chain of statements: take the lock,
 read the worker's cursor, read the rollup's, find the first block with rows, fold, commit. Every
 statement reads what is committed when it runs (READ COMMITTED); writes show at commit.
 */
module Rollup {
  import opened Common

  /** A UTC day, counted from the epoch. */
  type Day = int

  datatype Transfer = Transfer(block: nat, index: nat, from: nat, to: nat, value: nat)

  datatype Totals = Totals(inValue: nat, outValue: nat, inCount: nat, outCount: nat)

  /** A row of address_daily: an address id and a UTC day. */
  datatype Key = Key(id: nat, day: Day)

  type Daily = map<Key, Totals>

  // A name of its own: bare sums of literal zeros send the solver astray.
  function Add(a: nat, b: nat): nat {
    a + b
  }

  function Plus(a: Totals, b: Totals): Totals {
    Totals(Add(a.inValue, b.inValue), Add(a.outValue, b.outValue), Add(a.inCount, b.inCount), Add(a.outCount, b.outCount))
  }

  function At(daily: Daily, key: Key): Totals {
    if key in daily then daily[key] else Totals(0, 0, 0, 0)
  }

  function AddTo(daily: Daily, key: Key, t: Totals): Daily {
    daily[key := Plus(At(daily, key), t)]
  }

  predicate InRange(t: Transfer, blocks: map<nat, Day>, lo: int, hi: int) {
    lo < t.block <= hi && t.block in blocks
  }

  /** The SELECT of `foldSql`: received and sent per address per day over the transfers of (lo, hi]. */
  function Grouped(ts: seq<Transfer>, blocks: map<nat, Day>, lo: int, hi: int): Daily {
    if ts == [] then map[]
    else
      var t := ts[|ts| - 1];
      var rest := Grouped(ts[..|ts| - 1], blocks, lo, hi);
      Counted(rest, t, blocks, lo, hi)
  }

  /** One transfer counted: received on one key, sent on the other. */
  function Counted(daily: Daily, t: Transfer, blocks: map<nat, Day>, lo: int, hi: int): Daily {
    if InRange(t, blocks, lo, hi) then
      AddTo(AddTo(daily, Key(t.to, blocks[t.block]), Totals(t.value, 0, 1, 0)), Key(t.from, blocks[t.block]), Totals(0, t.value, 0, 1))
    else daily
  }

  /** The upsert of `foldSql`: each group is added onto the row that is there, or becomes one. */
  function Upsert(daily: Daily, groups: Daily): Daily {
    map k | k in daily.Keys + groups.Keys :: Plus(At(daily, k), At(groups, k))
  }

  // ----- folds compose ---------------------------------------------------------------------------

  /** What one transfer adds to a key: a self-transfer counts on both sides. */
  function Share(t: Transfer, blocks: map<nat, Day>, lo: int, hi: int, key: Key): Totals {
    var counts := InRange(t, blocks, lo, hi) && blocks[t.block] == key.day;
    var received, sent := counts && t.to == key.id, counts && t.from == key.id;
    Totals(if received then t.value else 0, if sent then t.value else 0, if received then 1 else 0, if sent then 1 else 0)
  }

  function Sums(ts: seq<Transfer>, blocks: map<nat, Day>, lo: int, hi: int, key: Key): Totals {
    if ts == [] then Totals(0, 0, 0, 0)
    else Plus(Sums(ts[..|ts| - 1], blocks, lo, hi, key), Share(ts[|ts| - 1], blocks, lo, hi, key))
  }

  lemma AddToAt(daily: Daily, at: Key, t: Totals, key: Key)
    ensures At(AddTo(daily, at, t), key) == if key == at then Plus(At(daily, key), t) else At(daily, key)
    ensures key in AddTo(daily, at, t) <==> key in daily || key == at
  {
  }

  function Part(counts: bool, t: Totals): Totals {
    Totals(if counts then t.inValue else 0, if counts then t.outValue else 0,
           if counts then t.inCount else 0, if counts then t.outCount else 0)
  }

  lemma PlusPart(a: Totals, counts: bool, t: Totals)
    ensures Plus(a, Part(counts, t)) == if counts then Plus(a, t) else a
  {
  }

  lemma PlusAssociates(a: Totals, b: Totals, c: Totals)
    ensures Plus(Plus(a, b), c) == Plus(a, Plus(b, c))
  {
  }

  lemma AddToBoth(daily: Daily, to: Key, t1: Totals, from: Key, t2: Totals, key: Key, once: Daily, both: Daily)
    requires once == AddTo(daily, to, t1) && both == AddTo(once, from, t2)
    ensures At(both, key) == Plus(At(daily, key), Plus(Part(key == to, t1), Part(key == from, t2)))
    ensures key in both <==> key in daily || key == to || key == from
  {
    AddToAt(daily, to, t1, key);
    AddToAt(once, from, t2, key);
    PlusPart(At(daily, key), key == to, t1);
    PlusPart(At(once, key), key == from, t2);
    PlusAssociates(At(daily, key), Part(key == to, t1), Part(key == from, t2));
  }

  lemma ShareIsParts(t: Transfer, blocks: map<nat, Day>, lo: int, hi: int, key: Key, to: Key, from: Key)
    requires InRange(t, blocks, lo, hi) && to == Key(t.to, blocks[t.block]) && from == Key(t.from, blocks[t.block])
    ensures Share(t, blocks, lo, hi, key)
         == Plus(Part(key == to, Totals(t.value, 0, 1, 0)), Part(key == from, Totals(0, t.value, 0, 1)))
    ensures Something(Share(t, blocks, lo, hi, key)) <==> key == to || key == from
  {
  }

  predicate Something(t: Totals) {
    t.inCount + t.outCount > 0
  }

  lemma PlusNothing(a: Totals)
    ensures Plus(a, Totals(0, 0, 0, 0)) == a
  {
  }

  lemma CountedAt(daily: Daily, t: Transfer, blocks: map<nat, Day>, lo: int, hi: int, key: Key)
    ensures At(Counted(daily, t, blocks, lo, hi), key) == Plus(At(daily, key), Share(t, blocks, lo, hi, key))
    ensures key in Counted(daily, t, blocks, lo, hi) <==> key in daily || Something(Share(t, blocks, lo, hi, key))
  {
    if InRange(t, blocks, lo, hi) {
      CountedInRange(daily, t, blocks, lo, hi, key);
    } else {
      PlusNothing(At(daily, key));
    }
  }

  lemma CountedInRange(daily: Daily, t: Transfer, blocks: map<nat, Day>, lo: int, hi: int, key: Key)
    requires InRange(t, blocks, lo, hi)
    ensures At(Counted(daily, t, blocks, lo, hi), key) == Plus(At(daily, key), Share(t, blocks, lo, hi, key))
    ensures key in Counted(daily, t, blocks, lo, hi) <==> key in daily || Something(Share(t, blocks, lo, hi, key))
  {
    var to, from := Key(t.to, blocks[t.block]), Key(t.from, blocks[t.block]);
    var once := AddTo(daily, to, Totals(t.value, 0, 1, 0));
    AddToBoth(daily, to, Totals(t.value, 0, 1, 0), from, Totals(0, t.value, 0, 1), key, once, Counted(daily, t, blocks, lo, hi));
    ShareIsParts(t, blocks, lo, hi, key, to, from);
  }

  /** A group holds its key's sums, and there is one exactly where something was counted. */
  lemma {:induction false} GroupedIsSums(ts: seq<Transfer>, blocks: map<nat, Day>, lo: int, hi: int, key: Key)
    ensures At(Grouped(ts, blocks, lo, hi), key) == Sums(ts, blocks, lo, hi, key)
    ensures key in Grouped(ts, blocks, lo, hi) <==>
              Something(Sums(ts, blocks, lo, hi, key))
  {
    if ts != [] {
      var t, rest := ts[|ts| - 1], Grouped(ts[..|ts| - 1], blocks, lo, hi);
      GroupedIsSums(ts[..|ts| - 1], blocks, lo, hi, key);
      CountedAt(rest, t, blocks, lo, hi, key);
    }
  }

  lemma {:induction false} SumsCompose(ts: seq<Transfer>, blocks: map<nat, Day>, lo: int, mid: int, hi: int, key: Key)
    requires lo <= mid <= hi
    ensures Plus(Sums(ts, blocks, lo, mid, key), Sums(ts, blocks, mid, hi, key)) == Sums(ts, blocks, lo, hi, key)
  {
    if ts != [] {
      SumsCompose(ts[..|ts| - 1], blocks, lo, mid, hi, key);
    }
  }

  lemma UpsertAt(daily: Daily, groups: Daily, key: Key)
    ensures At(Upsert(daily, groups), key) == Plus(At(daily, key), At(groups, key))
    ensures key in Upsert(daily, groups) <==> key in daily || key in groups
  {
  }

  lemma SameDaily(a: Daily, b: Daily)
    requires forall k :: (k in a <==> k in b) && At(a, k) == At(b, k)
    ensures a == b
  {
    forall k | k in a
      ensures a[k] == b[k]
    {
      assert At(a, k) == At(b, k);
    }
  }

  /** One transfer counts once on each side: its receiver's row and its sender's, or both sides of one row. */
  lemma OneTransferCounts(t: Transfer, blocks: map<nat, Day>, lo: int, hi: int)
    requires lo < t.block <= hi && t.block in blocks
    ensures var day, daily := blocks[t.block], Grouped([t], blocks, lo, hi);
            && daily.Keys == {Key(t.to, day), Key(t.from, day)}
            && (t.to != t.from ==> daily[Key(t.to, day)] == Totals(t.value, 0, 1, 0) && daily[Key(t.from, day)] == Totals(0, t.value, 0, 1))
            && (t.to == t.from ==> daily[Key(t.to, day)] == Totals(t.value, t.value, 1, 1))
  {
    var none: Daily := map[];
    assert [t][..0] == [];
    assert Grouped([], blocks, lo, hi) == none;
    assert Grouped([t], blocks, lo, hi) == Counted(none, t, blocks, lo, hi);
  }

  /** Folding (lo, mid] and then (mid, hi] onto it is folding (lo, hi]. */
  lemma FoldsCompose(ts: seq<Transfer>, blocks: map<nat, Day>, lo: int, mid: int, hi: int)
    requires lo <= mid <= hi
    ensures Upsert(Grouped(ts, blocks, lo, mid), Grouped(ts, blocks, mid, hi)) == Grouped(ts, blocks, lo, hi)
  {
    var a, b, c := Grouped(ts, blocks, lo, mid), Grouped(ts, blocks, mid, hi), Grouped(ts, blocks, lo, hi);
    var both := Upsert(a, b);
    forall k
      ensures (k in both <==> k in c) && At(both, k) == At(c, k)
    {
      UpsertAt(a, b, k);
      GroupedIsSums(ts, blocks, lo, mid, k);
      GroupedIsSums(ts, blocks, mid, hi, k);
      GroupedIsSums(ts, blocks, lo, hi, k);
      SumsCompose(ts, blocks, lo, mid, hi, k);
    }
    SameDaily(both, c);
  }

  /** Nothing to fold in a range without blocks. */
  lemma {:induction false} EmptyRange(ts: seq<Transfer>, blocks: map<nat, Day>, lo: int, hi: int)
    requires forall b :: b in blocks ==> !(lo < b <= hi)
    ensures Grouped(ts, blocks, lo, hi) == map[]
  {
    if ts != [] { EmptyRange(ts[..|ts| - 1], blocks, lo, hi); }
  }

  lemma {:induction false} LaterRowsDoNotCount(ts: seq<Transfer>, more: seq<Transfer>, blocks: map<nat, Day>, added: map<nat, Day>, lo: int, hi: int)
    requires forall t :: t in more ==> t.block > hi
    requires forall b :: b in added ==> b > hi
    ensures Grouped(ts + more, blocks + added, lo, hi) == Grouped(ts, blocks, lo, hi)
    decreases |ts| + |more|
  {
    if more != [] {
      assert (ts + more)[..|ts + more| - 1] == ts + more[..|more| - 1];
      LaterRowsDoNotCount(ts, more[..|more| - 1], blocks, added, lo, hi);
    } else if ts != [] {
      assert ts + more == ts;
      assert ts[..|ts| - 1] + [] == ts[..|ts| - 1];
      LaterRowsDoNotCount(ts[..|ts| - 1], [], blocks, added, lo, hi);
    }
  }

  // ----- the database and its writers ------------------------------------------------------------

  datatype Db = Db(
    cursor: Option<int>,
    transfers: seq<Transfer>,
    blocks: map<nat, Day>,
    daily: Daily,
    rolled: Option<int>,
    lock: Option<nat>)

  function RolledTo(db: Db): int {
    if db.rolled.Some? then db.rolled.value else -1
  }

  /** What ingest commits: later blocks, with a _blocks row for each that has one. */
  datatype Batch = Batch(newCursor: int, transfers: seq<Transfer>, blocks: map<nat, Day>)

  ghost predicate Follows(db: Db, batch: Batch) {
    var after := if db.cursor.Some? then db.cursor.value else -1;
    && batch.newCursor >= after
    && (forall t :: t in batch.transfers ==> t.block in batch.blocks)
    && (forall b :: b in batch.blocks ==> after < b <= batch.newCursor)
  }

  function Ingest(db: Db, batch: Batch): Db {
    db.(cursor := Some(batch.newCursor), transfers := db.transfers + batch.transfers, blocks := db.blocks + batch.blocks)
  }

  const MIN_SPAN: nat := 500

  datatype StepResult = More | Idle | Locked | Ahead

  /** How far a replica's transaction has come. */
  datatype Phase =
    | Out
    | Holding
    | HeadRead(cursor: int)
    | DoneRead(cursor: int, from: int)
    | FirstRead(cursor: int, from: int, to: int, fold: bool)
    | Folded(cursor: int, from: int, to: int, daily: Daily)

  datatype Replica = Replica(maxSpan: nat, span: nat, phase: Phase)

  datatype Op =
    | TakeLock
    | ReadHead
    | ReadDone
    | ReadFirst(first: Option<nat>)
    | Fold
    | Commit
    | CommitReplyLost
    | Fail(canceled: bool)

  /** `first` is the answer to "the first block with rows past `from`, up to `cursor`". */
  ghost predicate IsFirst(db: Db, from: int, cursor: int, first: Option<nat>) {
    match first
    case None => forall b :: b in db.blocks ==> !(from < b <= cursor)
    case Some(f) => f in db.blocks && from < f <= cursor && forall b :: b in db.blocks && from < b <= cursor ==> f <= b
  }

  ghost predicate Truthful(db: Db, r: Replica, op: Op) {
    op.ReadFirst? && r.phase.DoneRead? ==> IsFirst(db, r.phase.from, r.phase.cursor, op.first)
  }

  function RangeEnd(first: Option<nat>, cursor: int, span: nat): int {
    if first.None? then cursor else Min(cursor, first.value - 1 + span)
  }

  function Halved(r: Replica): nat {
    var floor := if r.maxSpan < MIN_SPAN then 1 else MIN_SPAN;
    Max(floor, r.span / 2)
  }

  function Release(db: Db): Db {
    db.(lock := None)
  }

  /** One statement of replica `i`, with what `step` returns if it ends there. Out of turn, nothing happens. */
  function Statement(db: Db, r: Replica, i: nat, op: Op): (Db, Replica, Option<StepResult>) {
    match (op, r.phase)
    case (TakeLock, Out) =>
      if db.lock.Some? then (db, r, Some(Locked)) else (db.(lock := Some(i)), r.(phase := Holding), None)
    case (ReadHead, Holding) =>
      if db.cursor.None? then (Release(db), r.(phase := Out), Some(Idle))
      else (db, r.(phase := HeadRead(db.cursor.value)), None)
    case (ReadDone, HeadRead(cursor)) =>
      var from := RolledTo(db);
      if from > cursor then (Release(db), r.(phase := Out), Some(Ahead))
      else if from == cursor then (Release(db), r.(phase := Out), Some(Idle))
      else (db, r.(phase := DoneRead(cursor, from)), None)
    case (ReadFirst(first), DoneRead(cursor, from)) =>
      (db, r.(phase := FirstRead(cursor, from, RangeEnd(first, cursor, r.span), first.Some?)), None)
    case (Fold, FirstRead(cursor, from, to, fold)) =>
      var daily := if fold then Upsert(db.daily, Grouped(db.transfers, db.blocks, from, to)) else db.daily;
      (db, r.(phase := Folded(cursor, from, to, daily)), None)
    case (Commit, Folded(cursor, from, to, daily)) =>
      (Release(db.(daily := daily, rolled := Some(to))), r.(phase := Out, span := Min(r.maxSpan, r.span * 2)),
       Some(if to < cursor then More else Idle))
    case (CommitReplyLost, Folded(cursor, from, to, daily)) =>
      (Release(db.(daily := daily, rolled := Some(to))), r.(phase := Out), None)
    case (Fail(canceled), _) =>
      if r.phase.Out? then (db, r, None)
      else (Release(db), r.(phase := Out, span := if canceled then Halved(r) else r.span), None)
    case _ => (db, r, None)
  }

  // ----- what every interleaving keeps -----------------------------------------------------------

  ghost predicate Consistent(db: Db) {
    var cursor := if db.cursor.Some? then db.cursor.value else -1;
    && (forall t :: t in db.transfers ==> t.block in db.blocks)
    && (forall b :: b in db.blocks ==> b <= cursor)
    && -1 <= RolledTo(db) <= Max(cursor, -1)
    && db.daily == Grouped(db.transfers, db.blocks, -1, RolledTo(db))
  }

  /**
   A fold of (from, to] takes the replica's span of blocks from the first block with rows on, or goes to
   the cursor read where that is nearer or there is none.
   */
  ghost predicate TakesSpan(blocks: map<nat, Day>, from: int, cursor: int, to: int, span: nat) {
    && ((forall b :: b in blocks ==> !(from < b <= cursor)) ==> to == cursor)
    && (forall f :: f in blocks && from < f <= cursor && (forall b :: b in blocks && from < b <= cursor ==> f <= b) ==>
          to == if f + span - 1 < cursor then f + span - 1 else cursor)
  }

  ghost predicate ReplicaOk(db: Db, r: Replica, i: nat) {
    && 1 <= r.span <= r.maxSpan
    && (!r.phase.Out? ==> db.lock == Some(i))
    && match r.phase
       case HeadRead(c) => db.cursor.Some? && c <= db.cursor.value
       case DoneRead(c, from) => db.cursor.Some? && from == RolledTo(db) && from < c <= db.cursor.value
       case FirstRead(c, from, to, fold) =>
         db.cursor.Some? && from == RolledTo(db) && from < to <= c <= db.cursor.value &&
         (!fold ==> Grouped(db.transfers, db.blocks, from, to) == map[]) && TakesSpan(db.blocks, from, c, to, r.span)
       case Folded(c, from, to, daily) =>
         db.cursor.Some? && from == RolledTo(db) && from < to <= c <= db.cursor.value &&
         daily == Grouped(db.transfers, db.blocks, -1, to) && TakesSpan(db.blocks, from, c, to, r.span)
       case _ => true
  }

  lemma IngestKeeps(db: Db, batch: Batch)
    requires Consistent(db) && Follows(db, batch)
    ensures Consistent(Ingest(db, batch))
  {
    LaterRowsDoNotCount(db.transfers, batch.transfers, db.blocks, batch.blocks, -1, RolledTo(db));
  }

  lemma LaterBlocksTakeNothing(blocks: map<nat, Day>, added: map<nat, Day>, from: int, cursor: int, to: int, span: nat)
    requires TakesSpan(blocks, from, cursor, to, span) && forall b :: b in added ==> b > cursor
    ensures TakesSpan(blocks + added, from, cursor, to, span)
  {
    if forall b :: b in blocks + added ==> !(from < b <= cursor) {
      assert forall b :: b in blocks ==> b in blocks + added;
    }
    forall f | f in blocks + added && from < f <= cursor && (forall b :: b in blocks + added && from < b <= cursor ==> f <= b)
      ensures to == if f + span - 1 < cursor then f + span - 1 else cursor
    {
      assert f in blocks;
      assert forall b :: b in blocks ==> b in blocks + added;
    }
  }

  lemma IngestKeepsReplica(db: Db, batch: Batch, r: Replica, i: nat)
    requires Consistent(db) && Follows(db, batch) && ReplicaOk(db, r, i)
    ensures ReplicaOk(Ingest(db, batch), r, i)
  {
    match r.phase {
      case FirstRead(c, from, to, fold) =>
        LaterRowsDoNotCount(db.transfers, batch.transfers, db.blocks, batch.blocks, from, to);
        LaterBlocksTakeNothing(db.blocks, batch.blocks, from, c, to, r.span);
      case Folded(c, from, to, daily) =>
        LaterRowsDoNotCount(db.transfers, batch.transfers, db.blocks, batch.blocks, -1, to);
        LaterBlocksTakeNothing(db.blocks, batch.blocks, from, c, to, r.span);
      case _ =>
    }
  }

  lemma UpsertNothing(daily: Daily)
    ensures Upsert(daily, map[]) == daily
  {
  }

  lemma FirstTakesSpan(db: Db, from: int, cursor: int, first: Option<nat>, span: nat)
    requires IsFirst(db, from, cursor, first)
    ensures TakesSpan(db.blocks, from, cursor, RangeEnd(first, cursor, span), span)
  {
  }

  lemma StatementKeeps(db: Db, r: Replica, i: nat, op: Op)
    requires Consistent(db) && ReplicaOk(db, r, i) && Truthful(db, r, op)
    ensures Consistent(Statement(db, r, i, op).0)
    ensures ReplicaOk(Statement(db, r, i, op).0, Statement(db, r, i, op).1, i)
  {
    match (op, r.phase) {
      case (ReadFirst(first), DoneRead(cursor, from)) =>
        var to := RangeEnd(first, cursor, r.span);
        if first.None? { EmptyRange(db.transfers, db.blocks, from, to); }
        FirstTakesSpan(db, from, cursor, first, r.span);
      case (Fold, FirstRead(cursor, from, to, fold)) =>
        FoldsCompose(db.transfers, db.blocks, -1, from, to);
        UpsertNothing(db.daily);
      case _ =>
    }
  }

  /** Only the lock's holder changes what others read. */
  lemma OthersKeep(db: Db, r: Replica, i: nat, op: Op, other: Replica, j: nat)
    requires ReplicaOk(db, r, i) && ReplicaOk(db, other, j) && i != j
    ensures ReplicaOk(Statement(db, r, i, op).0, other, j)
  {
  }

  // ----- runs ------------------------------------------------------------------------------------

  datatype System = System(db: Db, replicas: seq<Replica>)

  datatype Event = Ingested(batch: Batch) | Ran(i: nat, op: Op)

  ghost predicate Possible(s: System, e: Event) {
    match e
    case Ingested(batch) => Follows(s.db, batch)
    case Ran(i, op) => i < |s.replicas| && Truthful(s.db, s.replicas[i], op)
  }

  function Step(s: System, e: Event): System {
    match e
    case Ingested(batch) => s.(db := Ingest(s.db, batch))
    case Ran(i, op) =>
      if i < |s.replicas| then
        var out := Statement(s.db, s.replicas[i], i, op);
        System(out.0, s.replicas[i := out.1])
      else s
  }

  ghost predicate Legal(s: System, es: seq<Event>)
    decreases |es|
  {
    es == [] || (Possible(s, es[0]) && Legal(Step(s, es[0]), es[1..]))
  }

  function Run(s: System, es: seq<Event>): System
    decreases |es|
  {
    if es == [] then s else Run(Step(s, es[0]), es[1..])
  }

  ghost predicate Sound(s: System) {
    Consistent(s.db) && forall i :: 0 <= i < |s.replicas| ==> ReplicaOk(s.db, s.replicas[i], i)
  }

  lemma StepSound(s: System, e: Event)
    requires Sound(s) && Possible(s, e)
    ensures Sound(Step(s, e))
  {
    match e {
      case Ingested(batch) =>
        IngestKeeps(s.db, batch);
        forall i | 0 <= i < |s.replicas|
          ensures ReplicaOk(Step(s, e).db, s.replicas[i], i)
        {
          IngestKeepsReplica(s.db, batch, s.replicas[i], i);
        }
      case Ran(i, op) =>
        StatementKeeps(s.db, s.replicas[i], i, op);
        forall j | 0 <= j < |s.replicas| && j != i
          ensures ReplicaOk(Step(s, e).db, s.replicas[j], j)
        {
          OthersKeep(s.db, s.replicas[i], i, op, s.replicas[j], j);
        }
    }
  }

  lemma {:induction false} SoundRun(s: System, es: seq<Event>)
    requires Sound(s) && Legal(s, es)
    ensures Sound(Run(s, es))
    decreases |es|
  {
    if es != [] {
      StepSound(s, es[0]);
      SoundRun(Step(s, es[0]), es[1..]);
    }
  }

  // ----- what it is all for ----------------------------------------------------------------------

  ghost predicate Fresh(s: System) {
    && s.db == Db(None, [], map[], map[], None, None)
    && forall i :: 0 <= i < |s.replicas| ==> s.replicas[i].maxSpan >= 1 && s.replicas[i] == Replica(s.replicas[i].maxSpan, s.replicas[i].maxSpan, Out)
  }

  ghost predicate InTransaction(s: System, i: int) {
    0 <= i < |s.replicas| && !s.replicas[i].phase.Out?
  }

  /**
   However ingest and the replicas' statements interleave, and whichever of them fail, time out or
   commit unseen, address_daily is the fold from scratch over all transfers up to rollup_cursor, which
   never passes the worker's cursor; and at most one replica is in its transaction.
   */
  lemma TotalsAreExact(s: System, es: seq<Event>)
    requires Fresh(s) && Legal(s, es)
    ensures var db := Run(s, es).db;
            && db.daily == Grouped(db.transfers, db.blocks, -1, RolledTo(db))
            && RolledTo(db) <= Max(if db.cursor.Some? then db.cursor.value else -1, -1)
    ensures forall i, j :: InTransaction(Run(s, es), i) && InTransaction(Run(s, es), j) ==> i == j
  {
    SoundRun(s, es);
    assert forall i :: 0 <= i < |Run(s, es).replicas| ==> ReplicaOk(Run(s, es).db, Run(s, es).replicas[i], i);
  }

  /** A commit always moves the rollup's cursor forward, so "more" never repeats a range. */
  lemma CommitMovesForward(s: System, es: seq<Event>, i: nat, op: Op)
    requires Fresh(s) && Legal(s, es) && i < |Run(s, es).replicas|
    requires op == Commit || op == CommitReplyLost
    ensures var db, r := Run(s, es).db, Run(s, es).replicas[i];
            r.phase.Folded? ==> RolledTo(db) < RolledTo(Statement(db, r, i, op).0)
  {
    SoundRun(s, es);
    assert ReplicaOk(Run(s, es).db, Run(s, es).replicas[i], i);
  }

  /** The totals depend only on the rows and on how far they are folded, not on spans, replicas or failures. */
  lemma SpansDoNotMatter(s1: System, es1: seq<Event>, s2: System, es2: seq<Event>)
    requires Fresh(s1) && Legal(s1, es1) && Fresh(s2) && Legal(s2, es2)
    requires Run(s1, es1).db.transfers == Run(s2, es2).db.transfers && Run(s1, es1).db.blocks == Run(s2, es2).db.blocks
    requires RolledTo(Run(s1, es1).db) == RolledTo(Run(s2, es2).db)
    ensures Run(s1, es1).db.daily == Run(s2, es2).db.daily
  {
    TotalsAreExact(s1, es1);
    TotalsAreExact(s2, es2);
  }

  // ----- what a step does, written out -----------------------------------------------------------

  /**
   Whatever else ran meanwhile: a fold that is committed ends where the replica's span of blocks does,
   from the first block with rows on, or at the cursor it read; it reports more exactly where it ended
   before that cursor, and the next may take twice as many blocks, up to the maximum.
   */
  lemma CommitTakesSpan(s: System, es: seq<Event>, i: nat)
    requires Fresh(s) && Legal(s, es) && i < |Run(s, es).replicas| && Run(s, es).replicas[i].phase.Folded?
    ensures var db, r := Run(s, es).db, Run(s, es).replicas[i];
            var (db', r', result) := Statement(db, r, i, Commit);
            && r.phase.from == RolledTo(db) < r.phase.cursor <= (if db.cursor.Some? then db.cursor.value else -1)
            && db'.rolled.Some? && TakesSpan(db.blocks, r.phase.from, r.phase.cursor, db'.rolled.value, r.span)
            && result == Some(if db'.rolled.value < r.phase.cursor then More else Idle)
            && db'.lock.None? && r'.phase.Out? && r'.maxSpan == r.maxSpan
            && r'.span == if 2 * r.span < r.maxSpan then 2 * r.span else r.maxSpan
  {
    SoundRun(s, es);
    assert ReplicaOk(Run(s, es).db, Run(s, es).replicas[i], i);
  }

  /** What a replica finds on its way ends its step early, and then nothing is written. */
  lemma EarlyEnds(db: Db, r: Replica, i: nat)
    ensures r.phase.Out? ==>
              var (db', r', result) := Statement(db, r, i, TakeLock);
              if db.lock.Some? then db' == db && r' == r && result == Some(Locked)
              else db' == db.(lock := Some(i)) && r'.phase.Holding? && result.None?
    ensures r.phase.Holding? ==>
              var (db', r', result) := Statement(db, r, i, ReadHead);
              if db.cursor.None? then db' == db.(lock := None) && r'.phase.Out? && result == Some(Idle)
              else db' == db && r'.phase == HeadRead(db.cursor.value) && result.None?
    ensures r.phase.HeadRead? ==>
              var (db', r', result), done := Statement(db, r, i, ReadDone), if db.rolled.Some? then db.rolled.value else -1;
              if done >= r.phase.cursor then
                db' == db.(lock := None) && r'.phase.Out? && result == Some(if done > r.phase.cursor then Ahead else Idle)
              else db' == db && r'.phase == DoneRead(r.phase.cursor, done) && result.None?
  {
  }

  /** A statement cancelled for its time halves what the next step takes, down to 500 blocks, or to one where no more may be taken at all. */
  lemma CancelHalves(db: Db, r: Replica, i: nat, canceled: bool)
    requires !r.phase.Out?
    ensures var (db', r', result) := Statement(db, r, i, Fail(canceled));
            && db' == db.(lock := None) && r'.phase.Out? && r'.maxSpan == r.maxSpan && result.None?
            && (!canceled ==> r'.span == r.span)
            && (canceled && r.maxSpan < 500 ==> r'.span == if r.span / 2 > 1 then r.span / 2 else 1)
            && (canceled && r.maxSpan >= 500 ==> r'.span == if r.span / 2 > 500 then r.span / 2 else 500)
  {
  }

  /** Between, the step asks for a stretch and folds it, or has nothing to fold, and only it sees what it has folded. */
  lemma FoldWrittenOut(db: Db, r: Replica, i: nat, first: Option<nat>)
    ensures r.phase.DoneRead? ==>
              var (db', r', result) := Statement(db, r, i, ReadFirst(first));
              && r'.phase.FirstRead? && r'.phase == FirstRead(r.phase.cursor, r.phase.from, r'.phase.to, first.Some?)
              && db' == db && r'.span == r.span && r'.maxSpan == r.maxSpan && result.None?
    ensures r.phase.FirstRead? ==>
              var (db', r', result) := Statement(db, r, i, Fold);
              && r'.phase.Folded? && r'.phase == Folded(r.phase.cursor, r.phase.from, r.phase.to, r'.phase.daily)
              && r'.phase.daily == (if r.phase.fold then Upsert(db.daily, Grouped(db.transfers, db.blocks, r.phase.from, r.phase.to)) else db.daily)
              && db' == db && r'.span == r.span && r'.maxSpan == r.maxSpan && result.None?
    ensures r.phase.Folded? ==>
              var (db', r', result) := Statement(db, r, i, CommitReplyLost);
              && db' == Statement(db, r, i, Commit).0 == db.(daily := r.phase.daily, rolled := Some(r.phase.to), lock := None)
              && r'.phase.Out? && r'.span == r.span && r'.maxSpan == r.maxSpan && result.None?
  {
  }

  predicate InTurn(op: Op, phase: Phase) {
    match op
    case TakeLock => phase.Out?
    case ReadHead => phase.Holding?
    case ReadDone => phase.HeadRead?
    case ReadFirst(_) => phase.DoneRead?
    case Fold => phase.FirstRead?
    case Commit => phase.Folded?
    case CommitReplyLost => phase.Folded?
    case Fail(_) => !phase.Out?
  }

  /** No statement runs before the one it follows. */
  lemma OutOfTurn(db: Db, r: Replica, i: nat, op: Op)
    requires !InTurn(op, r.phase)
    ensures Statement(db, r, i, op) == (db, r, None)
  {
  }

  /** What ingest commits is there for every later statement, and a replica's statement is its own and the database's change only. */
  lemma EventsAct(s: System, es: seq<Event>, e: Event)
    ensures Run(s, []) == s && Run(s, es + [e]) == Step(Run(s, es), e)
    ensures e.Ingested? ==>
              var was, now := Run(s, es).db, Run(s, es + [e]).db;
              && now.transfers == was.transfers + e.batch.transfers && now.blocks == was.blocks + e.batch.blocks
              && now.cursor == Some(e.batch.newCursor)
              && now.daily == was.daily && now.rolled == was.rolled && now.lock == was.lock
              && Run(s, es + [e]).replicas == Run(s, es).replicas
    ensures e.Ran? && e.i < |Run(s, es).replicas| ==>
              var was, now := Run(s, es), Run(s, es + [e]);
              && |now.replicas| == |was.replicas|
              && (now.db, now.replicas[e.i]) == (Statement(was.db, was.replicas[e.i], e.i, e.op).0, Statement(was.db, was.replicas[e.i], e.i, e.op).1)
              && forall j :: 0 <= j < |was.replicas| && j != e.i ==> now.replicas[j] == was.replicas[j]
  {
    RunEnds(s, es, e);
  }

  lemma {:induction false} RunEnds(s: System, es: seq<Event>, e: Event)
    ensures Run(s, es + [e]) == Step(Run(s, es), e)
    decreases |es|
  {
    if es == [] {
      assert [e][1..] == [];
      assert [] + [e] == [e];
    } else {
      assert (es + [e])[1..] == es[1..] + [e];
      RunEnds(Step(s, es[0]), es[1..], e);
    }
  }

  // ----- conservation ----------------------------------------------------------------------------

  function Value(t: Totals, received: bool): nat {
    if received then t.inValue else t.outValue
  }

  /** The sum of one column of address_daily. */
  ghost function Column(daily: Daily, received: bool): nat
    decreases |daily|
  {
    if daily == map[] then 0
    else
      var k :| k in daily;
      Value(daily[k], received) + Column(daily - {k}, received)
  }

  lemma {:induction false} ColumnPick(daily: Daily, received: bool, k: Key)
    requires k in daily
    ensures Column(daily, received) == Value(daily[k], received) + Column(daily - {k}, received)
    decreases |daily|
  {
    var c :| c in daily && Column(daily, received) == Value(daily[c], received) + Column(daily - {c}, received);
    if c != k {
      ColumnPick(daily - {c}, received, k);
      ColumnPick(daily - {k}, received, c);
      assert daily - {c} - {k} == daily - {k} - {c};
    }
  }

  lemma ColumnAdd(daily: Daily, received: bool, k: Key, t: Totals)
    ensures Column(AddTo(daily, k, t), received) == Column(daily, received) + Value(t, received)
  {
    ColumnPick(AddTo(daily, k, t), received, k);
    assert AddTo(daily, k, t) - {k} == daily - {k};
    if k in daily {
      ColumnPick(daily, received, k);
    } else {
      assert daily - {k} == daily;
    }
  }

  function Transferred(ts: seq<Transfer>, blocks: map<nat, Day>, lo: int, hi: int): nat {
    if ts == [] then 0
    else
      var t := ts[|ts| - 1];
      Transferred(ts[..|ts| - 1], blocks, lo, hi) + if InRange(t, blocks, lo, hi) then t.value else 0
  }

  lemma {:induction false} FoldConserves(ts: seq<Transfer>, blocks: map<nat, Day>, lo: int, hi: int, received: bool)
    ensures Column(Grouped(ts, blocks, lo, hi), received) == Transferred(ts, blocks, lo, hi)
  {
    if ts != [] {
      var t, rest := ts[|ts| - 1], Grouped(ts[..|ts| - 1], blocks, lo, hi);
      FoldConserves(ts[..|ts| - 1], blocks, lo, hi, received);
      if InRange(t, blocks, lo, hi) {
        ColumnAdd(rest, received, Key(t.to, blocks[t.block]), Totals(t.value, 0, 1, 0));
        ColumnAdd(AddTo(rest, Key(t.to, blocks[t.block]), Totals(t.value, 0, 1, 0)), received,
                  Key(t.from, blocks[t.block]), Totals(0, t.value, 0, 1));
      }
    }
  }

  /** A column adds up what its own rows hold: what was received in one, what was sent in the other. */
  lemma ColumnOfOne(daily: Daily, k: Key)
    requires k in daily
    ensures Column(daily, true) == daily[k].inValue + Column(daily - {k}, true)
    ensures Column(daily, false) == daily[k].outValue + Column(daily - {k}, false)
  {
    ColumnPick(daily, true, k);
    ColumnPick(daily, false, k);
  }

  /** Everything received was sent, and both are what was transferred up to the rollup's cursor. */
  lemma ValueIsConserved(s: System, es: seq<Event>)
    requires Fresh(s) && Legal(s, es)
    ensures var db := Run(s, es).db;
            Column(db.daily, true) == Column(db.daily, false) == Transferred(db.transfers, db.blocks, -1, RolledTo(db))
  {
    TotalsAreExact(s, es);
    var db := Run(s, es).db;
    FoldConserves(db.transfers, db.blocks, -1, RolledTo(db), true);
    FoldConserves(db.transfers, db.blocks, -1, RolledTo(db), false);
  }
}
