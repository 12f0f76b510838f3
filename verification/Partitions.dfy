/**
 Partition bookkeeping (packages/core/src/partitions.ts; class Partitions and commitBatch of
 packages/worker/src/db.ts): which partitions a batch creates, and which it leaves finished.
 */
module Partitions {
  import opened Common

  datatype Part = Part(table: string, n: nat)

  datatype Row = Row(table: string, block: nat)

  function PartitionOf(block: nat, size: nat): nat
    requires size > 0
  {
    block / size
  }

  /** The bounds in `partitionDdl`. */
  predicate Holds(n: nat, size: nat, block: nat) {
    n * size <= block < (n + 1) * size
  }

  /** Each block falls in exactly one partition, the one its division names. */
  lemma PartitionIsUnique(block: nat, size: nat, n: nat)
    requires size > 0
    ensures Holds(n, size, block) <==> n == PartitionOf(block, size)
  {
    var q := block / size;
    assert block == q * size + block % size;
    if n < q {
      Grows(n + 1, q, size);
    } else if n > q {
      Grows(q + 1, n, size);
      assert (q + 1) * size == q * size + size;
    } else {
      assert (q + 1) * size == q * size + size;
    }
  }

  lemma Grows(a: nat, b: nat, size: nat)
    requires a <= b
    ensures a * size <= b * size
  {
  }

  // ----- a plan ----------------------------------------------------------------------------------

  function Numbers(blocks: seq<nat>, size: nat): seq<nat>
    requires size > 0
  {
    seq(|blocks|, i requires 0 <= i < |blocks| => PartitionOf(blocks[i], size))
  }

  /** The partitions of one table not yet made. */
  function Missing(made: set<Part>, table: string, ns: seq<nat>): seq<Part> {
    if ns == [] then []
    else
      var p := Part(table, ns[|ns| - 1]);
      Missing(made, table, ns[..|ns| - 1]) + if p in made then [] else [p]
  }

  function MissingAll(made: set<Part>, tables: seq<string>, ns: seq<nat>): seq<Part> {
    if tables == [] then [] else MissingAll(made, tables[..|tables| - 1], ns) + Missing(made, tables[|tables| - 1], ns)
  }

  /** JavaScript's order on strings. */
  predicate Before(a: string, b: string) {
    if a == "" then b != ""
    else b != "" && (a[0] < b[0] || (a[0] == b[0] && Before(a[1..], b[1..])))
  }

  /** One lock order for every writer: by table, then by partition. */
  predicate Precedes(p: Part, q: Part) {
    if Before(p.table, q.table) then true else if Before(q.table, p.table) then false else p.n < q.n
  }

  function Insert(sorted: seq<Part>, p: Part): seq<Part> {
    if sorted != [] && Precedes(p, sorted[|sorted| - 1])
    then Insert(sorted[..|sorted| - 1], p) + [sorted[|sorted| - 1]]
    else sorted + [p]
  }

  function Sort(parts: seq<Part>): seq<Part> {
    if parts == [] then [] else Insert(Sort(parts[..|parts| - 1]), parts[|parts| - 1])
  }

  /** `plan`. */
  function Plan(made: set<Part>, tables: seq<string>, blocks: seq<nat>, size: nat): seq<Part>
    requires size > 0
  {
    Sort(MissingAll(made, tables, Unique(Numbers(blocks, size))))
  }

  lemma {:induction false} MissingMembers(made: set<Part>, table: string, ns: seq<nat>)
    ensures forall p :: p in Missing(made, table, ns) <==> p.table == table && p.n in ns && p !in made
  {
    if ns != [] {
      MissingMembers(made, table, ns[..|ns| - 1]);
      assert ns == ns[..|ns| - 1] + [ns[|ns| - 1]];
    }
  }

  lemma {:induction false} MissingAllMembers(made: set<Part>, tables: seq<string>, ns: seq<nat>)
    ensures forall p :: p in MissingAll(made, tables, ns) <==> p.table in tables && p.n in ns && p !in made
  {
    if tables != [] {
      var init, last := tables[..|tables| - 1], tables[|tables| - 1];
      MissingAllMembers(made, init, ns);
      MissingMembers(made, last, ns);
      assert tables == init + [last];
    }
  }

  lemma {:induction false} InsertMembers(sorted: seq<Part>, p: Part)
    ensures forall x :: x in Insert(sorted, p) <==> x in sorted || x == p
  {
    if sorted != [] && Precedes(p, sorted[|sorted| - 1]) {
      InsertMembers(sorted[..|sorted| - 1], p);
      assert sorted == sorted[..|sorted| - 1] + [sorted[|sorted| - 1]];
    }
  }

  lemma {:induction false} SortMembers(parts: seq<Part>)
    ensures forall x :: x in Sort(parts) <==> x in parts
  {
    if parts != [] {
      SortMembers(parts[..|parts| - 1]);
      InsertMembers(Sort(parts[..|parts| - 1]), parts[|parts| - 1]);
      assert parts == parts[..|parts| - 1] + [parts[|parts| - 1]];
    }
  }

  lemma NumbersMembers(blocks: seq<nat>, size: nat)
    requires size > 0
    ensures forall n :: n in Numbers(blocks, size) <==> exists b :: b in blocks && n == PartitionOf(b, size)
  {
    forall n | n in Numbers(blocks, size)
      ensures exists b :: b in blocks && n == PartitionOf(b, size)
    {
      var i :| 0 <= i < |blocks| && Numbers(blocks, size)[i] == n;
      assert blocks[i] in blocks;
    }
    forall b | b in blocks
      ensures PartitionOf(b, size) in Numbers(blocks, size)
    {
      var i :| 0 <= i < |blocks| && blocks[i] == b;
      assert Numbers(blocks, size)[i] == PartitionOf(b, size);
    }
  }

  /** A plan lists exactly the partitions the batch's blocks fall in, for its tables, that are not made. */
  lemma PlanIsWhatIsMissing(made: set<Part>, tables: seq<string>, blocks: seq<nat>, size: nat)
    requires size > 0
    ensures forall p :: p in Plan(made, tables, blocks, size) <==>
              p.table in tables && p !in made && exists b :: b in blocks && p.n == PartitionOf(b, size)
  {
    var ns := Unique(Numbers(blocks, size));
    SortMembers(MissingAll(made, tables, ns));
    MissingAllMembers(made, tables, ns);
    UniqueMembers(Numbers(blocks, size));
    NumbersMembers(blocks, size);
  }

  // ----- one lock order --------------------------------------------------------------------------

  lemma {:induction false} BeforeIsTotal(a: string, b: string)
    ensures a == b || Before(a, b) || Before(b, a)
    ensures !(Before(a, b) && Before(b, a)) && !Before(a, a)
    decreases |a|
  {
    if a != "" {
      BeforeIsTotal(a[1..], if b == "" then "" else b[1..]);
      assert b != "" ==> a == [a[0]] + a[1..] && b == [b[0]] + b[1..];
    }
  }

  lemma {:induction false} BeforeChains(a: string, b: string, c: string)
    requires Before(a, b) && Before(b, c)
    ensures Before(a, c)
    decreases |a|
  {
    if a != "" && a[0] == b[0] == c[0] { BeforeChains(a[1..], b[1..], c[1..]); }
  }

  lemma PrecedesIsTotal(p: Part, q: Part)
    ensures p == q || Precedes(p, q) || Precedes(q, p)
    ensures !(Precedes(p, q) && Precedes(q, p))
  {
    BeforeIsTotal(p.table, q.table);
  }

  lemma PrecedesChains(p: Part, q: Part, r: Part)
    requires Precedes(p, q) && Precedes(q, r)
    ensures Precedes(p, r)
  {
    BeforeIsTotal(p.table, q.table);
    BeforeIsTotal(q.table, r.table);
    BeforeIsTotal(p.table, r.table);
    if Before(p.table, q.table) && Before(q.table, r.table) { BeforeChains(p.table, q.table, r.table); }
  }

  /** No partition is locked before one that precedes it. */
  predicate InLockOrder(parts: seq<Part>) {
    parts == [] ||
    (InLockOrder(parts[..|parts| - 1]) && forall i :: 0 <= i < |parts| - 1 ==> !Precedes(parts[|parts| - 1], parts[i]))
  }

  lemma AppendInOrder(parts: seq<Part>, p: Part)
    requires InLockOrder(parts) && forall x :: x in parts ==> !Precedes(p, x)
    ensures InLockOrder(parts + [p])
  {
    assert (parts + [p])[..|parts|] == parts;
    assert forall i :: 0 <= i < |parts| ==> parts[i] in parts;
  }

  lemma {:induction false} InsertInOrder(sorted: seq<Part>, p: Part)
    requires InLockOrder(sorted)
    ensures InLockOrder(Insert(sorted, p))
  {
    if sorted != [] && Precedes(p, sorted[|sorted| - 1]) {
      var init, last := sorted[..|sorted| - 1], sorted[|sorted| - 1];
      InsertInOrder(init, p);
      InsertMembers(init, p);
      PrecedesIsTotal(p, last);
      forall x | x in Insert(init, p)
        ensures !Precedes(last, x)
      {
        if x in init {
          var i :| 0 <= i < |init| && init[i] == x;
          assert !Precedes(sorted[|sorted| - 1], sorted[i]);
        }
      }
      AppendInOrder(Insert(init, p), last);
    } else {
      forall x | x in sorted
        ensures !Precedes(p, x)
      {
        var last := sorted[|sorted| - 1];
        var i :| 0 <= i < |sorted| && sorted[i] == x;
        PrecedesIsTotal(x, last);
        PrecedesIsTotal(p, last);
        if Precedes(p, x) && Precedes(x, last) { PrecedesChains(p, x, last); }
      }
      AppendInOrder(sorted, p);
    }
  }

  lemma {:induction false} SortInOrder(parts: seq<Part>)
    ensures InLockOrder(Sort(parts))
  {
    if parts != [] {
      SortInOrder(parts[..|parts| - 1]);
      InsertInOrder(Sort(parts[..|parts| - 1]), parts[|parts| - 1]);
    }
  }

  lemma {:induction false} OrderAt(parts: seq<Part>, i: nat, j: nat)
    requires InLockOrder(parts) && i < j < |parts|
    ensures !Precedes(parts[j], parts[i])
  {
    if j < |parts| - 1 { OrderAt(parts[..|parts| - 1], i, j); }
  }

  /** Writers never cross: what two plans share, both create in the same order. */
  lemma PlansNeverCross(made: set<Part>, tables: seq<string>, blocks: seq<nat>, made2: set<Part>, tables2: seq<string>, blocks2: seq<nat>,
                        size: nat, i: nat, j: nat, k: nat, l: nat)
    requires size > 0
    requires var p, q := Plan(made, tables, blocks, size), Plan(made2, tables2, blocks2, size);
             i < j < |p| && k < |q| && l < |q| && p[i] == q[k] && p[j] == q[l] && p[i] != p[j]
    ensures k < l
  {
    var p, q := Plan(made, tables, blocks, size), Plan(made2, tables2, blocks2, size);
    SortInOrder(MissingAll(made, tables, Unique(Numbers(blocks, size))));
    SortInOrder(MissingAll(made2, tables2, Unique(Numbers(blocks2, size))));
    OrderAt(p, i, j);
    PrecedesIsTotal(p[i], p[j]);
    if l < k { OrderAt(q, l, k); }
  }

  // ----- after a commit --------------------------------------------------------------------------

  /** What a process remembers, and the partitions it has reported finished. */
  datatype Memory = Memory(made: set<Part>, lastSeen: map<string, nat>, reported: seq<Part>)

  function NewMemory(): Memory {
    Memory({}, map[], [])
  }

  /** The made partitions of a table numbered in [from, to). */
  function MadeBetween(made: set<Part>, table: string, from: nat, to: nat): seq<Part> {
    if to <= from then []
    else MadeBetween(made, table, from, to - 1) + if Part(table, to - 1) in made then [Part(table, to - 1)] else []
  }

  function Finish(mem: Memory, table: string, m: nat): Memory {
    if table !in mem.lastSeen then mem.(lastSeen := mem.lastSeen[table := m])
    else
      var last := mem.lastSeen[table];
      if m <= last then mem
      else mem.(lastSeen := mem.lastSeen[table := m], reported := mem.reported + MadeBetween(mem.made, table, last, m))
  }

  function FinishAll(mem: Memory, tables: seq<string>, m: nat): Memory {
    if tables == [] then mem else Finish(FinishAll(mem, tables[..|tables| - 1], m), tables[|tables| - 1], m)
  }

  function Newest(ns: seq<nat>): (m: nat)
    requires ns != []
    ensures m in ns && forall n :: n in ns ==> n <= m
  {
    if |ns| == 1 then ns[0]
    else
      var before := Newest(ns[..|ns| - 1]);
      assert ns == ns[..|ns| - 1] + [ns[|ns| - 1]];
      Max(before, ns[|ns| - 1])
  }

  /** `committed`. */
  function Committed(mem: Memory, tables: seq<string>, blocks: seq<nat>, planned: seq<Part>, size: nat): Memory
    requires size > 0
  {
    var known := mem.(made := mem.made + (set p | p in planned));
    if blocks == [] then known else FinishAll(known, tables, Newest(Numbers(blocks, size)))
  }

  // ----- batches ---------------------------------------------------------------------------------

  /** `ever` is every partition any process has reported finished. */
  datatype Db = Db(existing: set<Part>, rows: set<Row>, cursor: int, ever: set<Part>)

  datatype State = State(db: Db, mem: Memory)

  datatype Ending = Done | RolledBack | ReplyLost

  datatype Event = Restarted | Tried(rows: seq<Row>, newCursor: int, ending: Ending)

  /** The blocks table, and each table with rows. */
  function Tables(rows: seq<Row>): seq<string> {
    if rows == [] then [] else ["_blocks"] + Unique(seq(|rows|, i requires 0 <= i < |rows| => rows[i].table))
  }

  function Blocks(rows: seq<Row>): seq<nat> {
    var all: seq<nat> := seq(|rows|, i requires 0 <= i < |rows| => rows[i].block);
    Unique(all)
  }

  /** The rows written: the batch's, and one of the blocks table for each block. */
  function Written(rows: seq<Row>): set<Row> {
    (set r | r in rows) + (set r | r in rows :: Row("_blocks", r.block))
  }

  function Step(size: nat, s: State, e: Event): State
    requires size > 0
  {
    match e
    case Restarted => State(s.db, NewMemory())
    case Tried(rows, newCursor, ending) =>
      var planned := Plan(s.mem.made, Tables(rows), Blocks(rows), size);
      var db := Db(s.db.existing + (set p | p in planned), s.db.rows + Written(rows), newCursor, s.db.ever);
      match ending
      case RolledBack => s
      case ReplyLost => State(db, s.mem)
      case Done =>
        var mem := Committed(s.mem, Tables(rows), Blocks(rows), planned, size);
        State(db.(ever := db.ever + (set p | p in mem.reported)), mem)
  }

  /** A batch holds only rows past the cursor, up to the next. */
  ghost predicate Legal(s: State, e: Event) {
    e.Tried? ==> s.db.cursor <= e.newCursor && forall r :: r in e.rows ==> s.db.cursor < r.block <= e.newCursor
  }

  ghost predicate Once(parts: seq<Part>) {
    forall i, j :: 0 <= i < j < |parts| ==> parts[i] != parts[j]
  }

  /** What was reported is made, and behind the newest partition its table was seen in. */
  ghost predicate Reported(mem: Memory) {
    Once(mem.reported) &&
    forall p :: p in mem.reported ==> p in mem.made && p.table in mem.lastSeen && p.n < mem.lastSeen[p.table]
  }

  ghost predicate SeenTo(mem: Memory, size: nat, cursor: int) {
    forall t :: t in mem.lastSeen ==> mem.lastSeen[t] * size <= cursor
  }

  ghost predicate Sound(size: nat, s: State)
    requires size > 0
  {
    && s.mem.made <= s.db.existing
    && (forall r :: r in s.db.rows ==> Part(r.table, PartitionOf(r.block, size)) in s.db.existing)
    && Reported(s.mem) && SeenTo(s.mem, size, s.db.cursor)
    && (forall p :: p in s.db.ever ==> (p.n + 1) * size <= s.db.cursor)
  }

  lemma {:induction false} MadeBetweenMembers(made: set<Part>, table: string, from: nat, to: nat)
    ensures forall p :: p in MadeBetween(made, table, from, to) <==> p in made && p.table == table && from <= p.n < to
    ensures Once(MadeBetween(made, table, from, to))
  {
    if from < to { MadeBetweenMembers(made, table, from, to - 1); }
  }

  lemma OnceJoins(a: seq<Part>, b: seq<Part>)
    requires Once(a) && Once(b) && forall p :: p in a ==> p !in b
    ensures Once(a + b)
  {
    forall i, j | 0 <= i < j < |a + b|
      ensures (a + b)[i] != (a + b)[j]
    {
      if i < |a| <= j { assert a[i] in a && b[j - |a|] in b; }
    }
  }

  lemma FinishReported(mem: Memory, table: string, m: nat)
    requires Reported(mem)
    ensures Reported(Finish(mem, table, m))
  {
    if table in mem.lastSeen && m > mem.lastSeen[table] {
      MadeBetweenMembers(mem.made, table, mem.lastSeen[table], m);
      OnceJoins(mem.reported, MadeBetween(mem.made, table, mem.lastSeen[table], m));
    }
  }

  lemma {:induction false} FinishAllReported(mem: Memory, tables: seq<string>, m: nat, size: nat, cursor: int)
    requires Reported(mem) && SeenTo(mem, size, cursor) && m * size <= cursor
    ensures Reported(FinishAll(mem, tables, m)) && SeenTo(FinishAll(mem, tables, m), size, cursor)
    ensures FinishAll(mem, tables, m).made == mem.made
  {
    if tables != [] {
      FinishAllReported(mem, tables[..|tables| - 1], m, size, cursor);
      FinishReported(FinishAll(mem, tables[..|tables| - 1], m), tables[|tables| - 1], m);
    }
  }

  lemma CommittedReported(mem: Memory, rows: seq<Row>, planned: seq<Part>, size: nat, cursor: int)
    requires size > 0 && Reported(mem) && SeenTo(mem, size, cursor) && forall r :: r in rows ==> r.block <= cursor
    ensures var mem' := Committed(mem, Tables(rows), Blocks(rows), planned, size);
            Reported(mem') && SeenTo(mem', size, cursor) && mem'.made == mem.made + (set p | p in planned)
  {
    var known := mem.(made := mem.made + (set p | p in planned));
    var blocks := Blocks(rows);
    if blocks != [] {
      var m := Newest(Numbers(blocks, size));
      NumbersMembers(blocks, size);
      var b :| b in blocks && m == PartitionOf(b, size);
      BlockIsOfRow(rows, b);
      PartitionIsUnique(b, size, m);
      FinishAllReported(known, Tables(rows), m, size, cursor);
    }
  }

  lemma BlockIsOfRow(rows: seq<Row>, b: nat)
    ensures b in Blocks(rows) <==> exists r :: r in rows && r.block == b
  {
    var all: seq<nat> := seq(|rows|, i requires 0 <= i < |rows| => rows[i].block);
    UniqueMembers(all);
    if r :| r in rows && r.block == b {
      var i :| 0 <= i < |rows| && rows[i] == r;
      assert all[i] == b;
    }
    if b in all {
      var i :| 0 <= i < |all| && all[i] == b;
      assert rows[i] in rows;
    }
  }

  lemma TableIsWritten(rows: seq<Row>, r: Row)
    requires r in Written(rows)
    ensures r.table in Tables(rows) && r.block in Blocks(rows)
  {
    var all := seq(|rows|, i requires 0 <= i < |rows| => rows[i].table);
    UniqueMembers(all);
    BlockIsOfRow(rows, r.block);
    if r in rows {
      var i :| 0 <= i < |rows| && rows[i] == r;
      assert all[i] == r.table;
    }
  }

  /** Every row a batch writes falls in a partition that exists once the batch's transaction commits. */
  lemma RowsFall(made: set<Part>, existing: set<Part>, rows: seq<Row>, size: nat, r: Row)
    requires size > 0 && made <= existing && r in Written(rows)
    ensures Part(r.table, PartitionOf(r.block, size)) in existing + (set p | p in Plan(made, Tables(rows), Blocks(rows), size))
  {
    TableIsWritten(rows, r);
    PlanIsWhatIsMissing(made, Tables(rows), Blocks(rows), size);
  }

  lemma ReportedBehind(mem: Memory, size: nat, cursor: int)
    requires Reported(mem) && SeenTo(mem, size, cursor)
    ensures forall p :: p in mem.reported ==> (p.n + 1) * size <= cursor
  {
    forall p | p in mem.reported
      ensures (p.n + 1) * size <= cursor
    {
      Grows(p.n + 1, mem.lastSeen[p.table], size);
    }
  }

  lemma StepSound(size: nat, s: State, e: Event)
    requires size > 0 && Sound(size, s) && Legal(s, e)
    ensures Sound(size, Step(size, s, e))
  {
    if e.Tried? && !e.ending.RolledBack? {
      forall r | r in Written(e.rows)
        ensures Part(r.table, PartitionOf(r.block, size)) in Step(size, s, e).db.existing
      {
        RowsFall(s.mem.made, s.db.existing, e.rows, size, r);
      }
      if e.ending.Done? {
        CommittedReported(s.mem, e.rows, Plan(s.mem.made, Tables(e.rows), Blocks(e.rows), size), size, e.newCursor);
        ReportedBehind(Step(size, s, e).mem, size, e.newCursor);
      }
    }
  }

  function Run(size: nat, s: State, es: seq<Event>): State
    requires size > 0
    decreases |es|
  {
    if es == [] then s else Run(size, Step(size, s, es[0]), es[1..])
  }

  ghost predicate LegalRun(size: nat, s: State, es: seq<Event>)
    requires size > 0
    decreases |es|
  {
    es == [] || (Legal(s, es[0]) && LegalRun(size, Step(size, s, es[0]), es[1..]))
  }

  lemma {:induction false} SoundRun(size: nat, s: State, es: seq<Event>)
    requires size > 0 && Sound(size, s) && LegalRun(size, s, es)
    ensures Sound(size, Run(size, s, es))
    decreases |es|
  {
    if es != [] {
      StepSound(size, s, es[0]);
      SoundRun(size, Step(size, s, es[0]), es[1..]);
    }
  }

  function Fresh(cursor: int): State {
    State(Db({}, {}, cursor, {}), NewMemory())
  }

  lemma RowsLieInOne(size: nat, s: State, r: Row, n: nat)
    requires size > 0 && Sound(size, s) && r in s.db.rows && Holds(n, size, r.block)
    ensures Part(r.table, n) in s.db.existing
  {
    PartitionIsUnique(r.block, size, n);
  }

  lemma WritesPastFinished(size: nat, s: State, rows: seq<Row>, r: Row)
    requires size > 0 && Sound(size, s) && (forall x :: x in rows ==> s.db.cursor < x.block) && r in Written(rows)
    ensures Part(r.table, PartitionOf(r.block, size)) !in s.db.ever
  {
    PartitionIsUnique(r.block, size, PartitionOf(r.block, size));
  }

  /**
   Over any batches, rollbacks, lost replies and restarts: every row lies in a partition that exists, and
   only in that one; no process reports a partition finished twice; and no later batch writes into a
   partition that any process reported.
   */
  lemma FinishedStaysFinished(size: nat, cursor: int, es: seq<Event>, s: State, rows: seq<Row>)
    requires size > 0 && LegalRun(size, Fresh(cursor), es) && s == Run(size, Fresh(cursor), es)
    ensures forall r, n: nat :: r in s.db.rows && Holds(n, size, r.block) ==> Part(r.table, n) in s.db.existing
    ensures Once(s.mem.reported)
    ensures (forall x :: x in rows ==> s.db.cursor < x.block) ==>
              forall r :: r in Written(rows) ==> Part(r.table, PartitionOf(r.block, size)) !in s.db.ever
  {
    SoundRun(size, Fresh(cursor), es);
    forall r, n: nat | r in s.db.rows && Holds(n, size, r.block)
      ensures Part(r.table, n) in s.db.existing
    {
      RowsLieInOne(size, s, r, n);
    }
    if forall x :: x in rows ==> s.db.cursor < x.block {
      forall r | r in Written(rows)
        ensures Part(r.table, PartitionOf(r.block, size)) !in s.db.ever
      {
        WritesPastFinished(size, s, rows, r);
      }
    }
  }

  // ----- what is reported ------------------------------------------------------------------------

  /** For each table a process has committed to: the newest partition of its first such batch, and of them all. */
  type Seen = map<string, (nat, nat)>

  function Noted(seen: Seen, tables: seq<string>, m: nat): Seen {
    map t | t in seen.Keys + (set t | t in tables) ::
      if t !in seen then (m, m) else if t in tables && m > seen[t].1 then (seen[t].0, m) else seen[t]
  }

  /** What the process running last has seen; it knows of a batch only when its commit is answered. */
  function SeenIn(size: nat, seen: Seen, es: seq<Event>): Seen
    requires size > 0
    decreases |es|
  {
    if es == [] then seen
    else
      var next :=
        match es[0]
        case Restarted => map[]
        case Tried(rows, _, ending) =>
          if ending.Done? && Blocks(rows) != [] then Noted(seen, Tables(rows), Newest(Numbers(Blocks(rows), size))) else seen;
      SeenIn(size, next, es[1..])
  }

  /** Reported is exactly what is made and was left behind, from the first partition seen on. */
  ghost predicate ReportedExactly(mem: Memory, seen: Seen) {
    && mem.lastSeen.Keys == seen.Keys
    && (forall t :: t in seen ==> seen[t].0 <= seen[t].1 == mem.lastSeen[t])
    && forall p :: p in mem.reported <==> p in mem.made && p.table in seen && seen[p.table].0 <= p.n < seen[p.table].1
  }

  lemma FinishExactly(mem: Memory, seen: Seen, table: string, m: nat, one: seq<string>)
    requires ReportedExactly(mem, seen) && one == [table]
    ensures ReportedExactly(Finish(mem, table, m), Noted(seen, one, m))
  {
    if table in mem.lastSeen && m > mem.lastSeen[table] {
      MadeBetweenMembers(mem.made, table, mem.lastSeen[table], m);
    }
  }

  lemma NotedTwice(seen: Seen, tables: seq<string>, init: seq<string>, one: seq<string>, m: nat)
    requires tables == init + one
    ensures Noted(Noted(seen, init, m), one, m) == Noted(seen, tables, m)
  {
  }

  lemma {:induction false} FinishAllExactly(mem: Memory, seen: Seen, tables: seq<string>, m: nat)
    requires ReportedExactly(mem, seen)
    ensures ReportedExactly(FinishAll(mem, tables, m), Noted(seen, tables, m))
  {
    if tables == [] {
      assert Noted(seen, tables, m) == seen;
    } else {
      var init, last := tables[..|tables| - 1], tables[|tables| - 1];
      FinishAllExactly(mem, seen, init, m);
      FinishExactly(FinishAll(mem, init, m), Noted(seen, init, m), last, m, [last]);
      NotedTwice(seen, tables, init, [last], m);
    }
  }

  /** What a batch past the cursor makes, no table has left behind. */
  lemma PlannedAhead(size: nat, s: State, seen: Seen, rows: seq<Row>, planned: seq<Part>)
    requires size > 0 && ReportedExactly(s.mem, seen) && SeenTo(s.mem, size, s.db.cursor)
    requires (forall r :: r in rows ==> s.db.cursor < r.block) && planned == Plan(s.mem.made, Tables(rows), Blocks(rows), size)
    ensures ReportedExactly(s.mem.(made := s.mem.made + (set p | p in planned)), seen)
  {
    PlanIsWhatIsMissing(s.mem.made, Tables(rows), Blocks(rows), size);
    forall p | p in planned && p.table in seen
      ensures p.n >= seen[p.table].1
    {
      var b :| b in Blocks(rows) && p.n == PartitionOf(b, size);
      BlockIsOfRow(rows, b);
      NotBehind(size, s.mem.lastSeen[p.table], b);
    }
  }

  lemma NotBehind(size: nat, last: nat, block: nat)
    requires size > 0 && last * size <= block
    ensures PartitionOf(block, size) >= last
  {
    var n := PartitionOf(block, size);
    PartitionIsUnique(block, size, n);
    if n < last { Grows(n + 1, last, size); }
  }

  lemma ReportStep(size: nat, s: State, seen: Seen, e: Event)
    requires size > 0 && Sound(size, s) && Legal(s, e) && ReportedExactly(s.mem, seen)
    ensures ReportedExactly(Step(size, s, e).mem, SeenIn(size, seen, [e]))
  {
    assert [e][1..] == [];
    if e.Tried? && e.ending.Done? {
      var planned := Plan(s.mem.made, Tables(e.rows), Blocks(e.rows), size);
      PlannedAhead(size, s, seen, e.rows, planned);
      if Blocks(e.rows) != [] {
        FinishAllExactly(s.mem.(made := s.mem.made + (set p | p in planned)), seen, Tables(e.rows),
                         Newest(Numbers(Blocks(e.rows), size)));
      }
    }
  }

  lemma SeenMore(size: nat, seen: Seen, es: seq<Event>)
    requires size > 0 && es != []
    ensures SeenIn(size, seen, es) == SeenIn(size, SeenIn(size, seen, [es[0]]), es[1..])
  {
    assert [es[0]][1..] == [];
  }

  lemma {:induction false} ReportRun(size: nat, s: State, seen: Seen, es: seq<Event>)
    requires size > 0 && Sound(size, s) && LegalRun(size, s, es) && ReportedExactly(s.mem, seen)
    ensures ReportedExactly(Run(size, s, es).mem, SeenIn(size, seen, es))
    decreases |es|
  {
    if es != [] {
      StepSound(size, s, es[0]);
      ReportStep(size, s, seen, es[0]);
      SeenMore(size, seen, es);
      ReportRun(size, Step(size, s, es[0]), SeenIn(size, seen, [es[0]]), es[1..]);
    }
  }

  /**
   Over any batches, rollbacks, lost replies and restarts: a process has reported exactly the partitions it
   knows made that its batches to the table have left behind, from the newest of its first batch on.
   */
  lemma LeftBehindIsReported(size: nat, cursor: int, es: seq<Event>)
    requires size > 0 && LegalRun(size, Fresh(cursor), es)
    ensures ReportedExactly(Run(size, Fresh(cursor), es).mem, SeenIn(size, map[], es))
  {
    ReportRun(size, Fresh(cursor), map[], es);
  }

  // ----- what a batch does, written out ----------------------------------------------------------

  ghost predicate HasTable(rows: seq<Row>, table: string) {
    (rows != [] && table == "_blocks") || exists r :: r in rows && r.table == table
  }

  ghost predicate HasBlock(rows: seq<Row>, block: nat) {
    exists r :: r in rows && r.block == block
  }

  /** The partition is of one of the batch's tables, and one of its blocks falls in it. */
  ghost predicate FallsIn(size: nat, rows: seq<Row>, p: Part) {
    HasTable(rows, p.table) && exists r :: r in rows && Holds(p.n, size, r.block)
  }

  lemma TablesAreItsOwn(rows: seq<Row>, table: string)
    ensures table in Tables(rows) <==> HasTable(rows, table)
  {
    var all := seq(|rows|, i requires 0 <= i < |rows| => rows[i].table);
    UniqueMembers(all);
    if r :| r in rows && r.table == table {
      var i :| 0 <= i < |rows| && rows[i] == r;
      assert all[i] == table;
    }
    if table in all {
      var i :| 0 <= i < |all| && all[i] == table;
      assert rows[i] in rows;
    }
  }

  lemma PlannedFalls(size: nat, made: set<Part>, rows: seq<Row>, p: Part)
    requires size > 0
    ensures p in Plan(made, Tables(rows), Blocks(rows), size) <==> p !in made && FallsIn(size, rows, p)
  {
    PlanIsWhatIsMissing(made, Tables(rows), Blocks(rows), size);
    TablesAreItsOwn(rows, p.table);
    if b :| b in Blocks(rows) && p.n == PartitionOf(b, size) {
      BlockIsOfRow(rows, b);
      PartitionIsUnique(b, size, p.n);
    }
    if r :| r in rows && Holds(p.n, size, r.block) {
      BlockIsOfRow(rows, r.block);
      PartitionIsUnique(r.block, size, p.n);
    }
  }

  lemma {:induction false} FinishAllMakesNone(mem: Memory, tables: seq<string>, m: nat)
    ensures FinishAll(mem, tables, m).made == mem.made
  {
    if tables != [] { FinishAllMakesNone(mem, tables[..|tables| - 1], m); }
  }

  lemma WrittenRows(rows: seq<Row>, r: Row)
    ensures r in Written(rows) <==> r in rows || (r.table == "_blocks" && HasBlock(rows, r.block))
  {
  }

  /**
   A batch that commits adds its rows, a row of the blocks table for each of their blocks, and the missing
   partitions of its tables that its blocks fall in; the process knows them only if the reply arrives. Rolled
   back it adds nothing, and a restart only forgets.
   */
  lemma BatchWrittenOut(size: nat, s: State, e: Event, s': State)
    requires size > 0 && s' == Step(size, s, e)
    ensures e.Restarted? ==> s'.db == s.db && s'.mem == Memory({}, map[], [])
    ensures e.Tried? && e.ending.RolledBack? ==> s' == s
    ensures e.Tried? && !e.ending.RolledBack? ==>
              && s'.db.cursor == e.newCursor
              && (forall r :: r in s'.db.rows <==> r in s.db.rows || r in e.rows || (r.table == "_blocks" && HasBlock(e.rows, r.block)))
              && (forall p :: p in s'.db.existing <==> p in s.db.existing || (p !in s.mem.made && FallsIn(size, e.rows, p)))
              && (e.ending.ReplyLost? ==> s'.mem == s.mem)
              && (e.ending.Done? ==> forall p :: p in s'.mem.made <==> p in s.mem.made || FallsIn(size, e.rows, p))
  {
    if e.Tried? && !e.ending.RolledBack? {
      var planned := Plan(s.mem.made, Tables(e.rows), Blocks(e.rows), size);
      forall p
        ensures p in planned <==> p !in s.mem.made && FallsIn(size, e.rows, p)
      {
        PlannedFalls(size, s.mem.made, e.rows, p);
      }
      forall r
        ensures r in Written(e.rows) <==> r in e.rows || (r.table == "_blocks" && HasBlock(e.rows, r.block))
      {
        WrittenRows(e.rows, r);
      }
      if Blocks(e.rows) != [] {
        FinishAllMakesNone(s.mem.(made := s.mem.made + (set p | p in planned)), Tables(e.rows), Newest(Numbers(Blocks(e.rows), size)));
      }
    }
  }

  // ----- what every process reported -------------------------------------------------------------

  lemma {:induction false} RunEnds(size: nat, s: State, es: seq<Event>, e: Event)
    requires size > 0
    ensures Run(size, s, es + [e]) == Step(size, Run(size, s, es), e)
    decreases |es|
  {
    if es == [] {
      assert [e][1..] == [];
      assert [] + [e] == [e];
    } else {
      assert (es + [e])[1..] == es[1..] + [e];
      RunEnds(size, Step(size, s, es[0]), es[1..], e);
    }
  }

  /** At some point of the run, `p` was among what the process running then had reported. */
  ghost predicate ReportedIn(size: nat, s: State, es: seq<Event>, p: Part)
    requires size > 0
    decreases |es|
  {
    p in Run(size, s, es).mem.reported || (es != [] && ReportedIn(size, s, es[..|es| - 1], p))
  }

  lemma EverStep(size: nat, s: State, e: Event, p: Part)
    requires size > 0 && (p in s.mem.reported ==> p in s.db.ever)
    ensures p in Step(size, s, e).db.ever <==> p in s.db.ever || p in Step(size, s, e).mem.reported
  {
  }

  /** `ever` holds exactly what some process of the run had reported. */
  lemma {:induction false} EverIsReported(size: nat, s: State, es: seq<Event>, p: Part)
    requires size > 0 && (p in s.mem.reported <==> p in s.db.ever)
    ensures p in Run(size, s, es).mem.reported ==> p in Run(size, s, es).db.ever
    ensures p in Run(size, s, es).db.ever <==> ReportedIn(size, s, es, p)
    decreases |es|
  {
    if es != [] {
      var init, e := es[..|es| - 1], es[|es| - 1];
      assert es == init + [e];
      EverIsReported(size, s, init, p);
      RunEnds(size, s, init, e);
      EverStep(size, Run(size, s, init), e, p);
    }
  }
}
