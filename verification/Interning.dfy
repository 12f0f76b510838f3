/**
 The dictionaries: addresses (packages/worker/src/db.ts, resolveAddresses), sentences and labels
 (packages/worker/src/insightsdb.ts), and the views that read rows back through them
 (packages/core/src/ddl.ts).

 A dictionary table is its unique index: from entry to id, with the next identity value. A transaction
 that rolls back takes its entries back but not the identity values it consumed.
 */
module Interning {

  datatype Table<K> = Table(ids: map<K, nat>, next: nat)

  ghost predicate Valid<K(!new)>(t: Table<K>) {
    && (forall k :: k in t.ids ==> t.ids[k] < t.next)
    && (forall k, l :: k in t.ids && l in t.ids && t.ids[k] == t.ids[l] ==> k == l)
  }

  /** Reading id `i` through a join finds `k`. */
  predicate Holds<K(==)>(t: Table<K>, i: nat, k: K) {
    k in t.ids && t.ids[k] == i
  }

  function InsertNew<K(==)>(t: Table<K>, k: K): Table<K> {
    if k in t.ids then t else Table(t.ids[k := t.next], t.next + 1)
  }

  /** INSERT ... WHERE NOT EXISTS ... ON CONFLICT DO NOTHING. */
  function InsertAll<K(==)>(t: Table<K>, ks: seq<K>): Table<K> {
    if ks == [] then t else InsertNew(InsertAll(t, ks[..|ks| - 1]), ks[|ks| - 1])
  }

  lemma InsertNewKeeps<K(!new)>(t: Table<K>, k: K)
    requires Valid(t)
    ensures var t' := InsertNew(t, k);
            && Valid(t') && k in t'.ids && t'.next - t.next == |t'.ids| - |t.ids|
            && (forall l :: l in t.ids ==> l in t'.ids && t'.ids[l] == t.ids[l])
            && (forall l :: l in t'.ids ==> l in t.ids || l == k)
  {
  }

  /** Entries are only added, each id is given once, and as many ids are taken as entries are new. */
  lemma {:induction false} InsertAllKeeps<K(!new)>(t: Table<K>, ks: seq<K>)
    requires Valid(t)
    ensures var t' := InsertAll(t, ks);
            && Valid(t') && t.next <= t'.next && t'.next - t.next == |t'.ids| - |t.ids|
            && (forall l :: l in t.ids ==> l in t'.ids && t'.ids[l] == t.ids[l])
            && (forall l :: l in t'.ids ==> l in t.ids || l in ks)
    ensures forall i :: 0 <= i < |ks| ==> ks[i] in InsertAll(t, ks).ids
  {
    if ks != [] {
      var init := ks[..|ks| - 1];
      InsertAllKeeps(t, init);
      InsertNewKeeps(InsertAll(t, init), ks[|ks| - 1]);
      forall i | 0 <= i < |ks|
        ensures ks[i] in InsertAll(t, ks).ids
      {
        if i < |ks| - 1 { assert init[i] == ks[i]; }
      }
    }
  }

  /** Known entries take no id: nothing at all changes exactly when nothing is new. */
  lemma {:induction false} KnownTakeNoId<K(!new)>(t: Table<K>, ks: seq<K>)
    requires Valid(t)
    ensures InsertAll(t, ks) == t <==> forall i :: 0 <= i < |ks| ==> ks[i] in t.ids
  {
    InsertAllKeeps(t, ks);
    if ks != [] {
      var init := ks[..|ks| - 1];
      InsertAllKeeps(t, init);
      KnownTakeNoId(t, init);
      assert forall i :: 0 <= i < |init| ==> init[i] == ks[i];
      if ks[|ks| - 1] in t.ids && InsertAll(t, init) == t {
        assert InsertAll(t, ks) == t;
      }
    }
  }

  // ----- any sequence of batches -----------------------------------------------------------------

  datatype Batch<K> = Batch(entries: seq<K>, committed: bool)

  function Apply<K(==)>(t: Table<K>, b: Batch<K>): Table<K> {
    var t' := InsertAll(t, b.entries);
    if b.committed then t' else Table(t.ids, t'.next)
  }

  function Run<K(==)>(t: Table<K>, bs: seq<Batch<K>>): Table<K>
    decreases |bs|
  {
    if bs == [] then t else Run(Apply(t, bs[0]), bs[1..])
  }

  /** A batch adds its new entries, or rolled back none, but either way each of them takes an identity value. */
  lemma BatchesAct<K(!new)>(t: Table<K>, bs: seq<Batch<K>>, b: Batch<K>)
    requires Valid(t)
    ensures Run(t, []) == t && Run(t, bs + [b]) == Apply(Run(t, bs), b)
    ensures !b.committed ==> Apply(t, b).ids == t.ids
    ensures b.committed ==> forall k :: k in Apply(t, b).ids <==> k in t.ids || k in b.entries
    ensures Apply(t, b).next == t.next + |InsertAll(t, b.entries).ids| - |t.ids|
  {
    InsertAllKeeps(t, b.entries);
    RunEnds(t, bs, b);
    forall k | k in b.entries
      ensures k in InsertAll(t, b.entries).ids
    {
      var i :| 0 <= i < |b.entries| && b.entries[i] == k;
    }
  }

  lemma {:induction false} RunEnds<K(!new)>(t: Table<K>, bs: seq<Batch<K>>, b: Batch<K>)
    ensures Run(t, bs + [b]) == Apply(Run(t, bs), b)
    decreases |bs|
  {
    if bs == [] {
      assert [b][1..] == [];
      assert [] + [b] == [b];
    } else {
      assert (bs + [b])[1..] == bs[1..] + [b];
      RunEnds(Apply(t, bs[0]), bs[1..], b);
    }
  }

  /** Ids are never re-pointed, whatever batches commit or roll back. */
  lemma {:induction false} NeverRepointed<K(!new)>(t: Table<K>, bs: seq<Batch<K>>)
    requires Valid(t)
    ensures Valid(Run(t, bs)) && t.next <= Run(t, bs).next
    ensures forall k :: k in t.ids ==> k in Run(t, bs).ids && Run(t, bs).ids[k] == t.ids[k]
    ensures forall i, k :: Holds(t, i, k) ==> Holds(Run(t, bs), i, k)
    decreases |bs|
  {
    if bs != [] {
      InsertAllKeeps(t, bs[0].entries);
      NeverRepointed(Apply(t, bs[0]), bs[1..]);
    }
  }

  /** With nothing rolled back, ids are taken one for one: as many as there are entries. */
  lemma {:induction false} NoIdIsBurned<K(!new)>(t: Table<K>, bs: seq<Batch<K>>)
    requires Valid(t) && t.next == |t.ids| && forall i :: 0 <= i < |bs| ==> bs[i].committed
    ensures Run(t, bs).next == |Run(t, bs).ids|
    decreases |bs|
  {
    if bs != [] {
      InsertAllKeeps(t, bs[0].entries);
      NoIdIsBurned(Apply(t, bs[0]), bs[1..]);
    }
  }

  // ----- addresses -------------------------------------------------------------------------------

  type Bytes = seq<bv8>

  /** A column's value: bytes as decoded, an id as stored, anything else, or null. */
  datatype Cell = Raw(bytes: Bytes) | Id(id: nat) | Other(text: string) | Null

  type Columns = map<string, Cell>

  /** The distinct addresses of one row, by its table's address columns. */
  function Wanted(columns: Columns, address: seq<string>): seq<Bytes> {
    if address == [] then []
    else
      var c := address[|address| - 1];
      Wanted(columns, address[..|address| - 1]) + if c in columns && columns[c].Raw? then [columns[c].bytes] else []
  }

  function WantedAll(rows: seq<Columns>, address: seq<string>): seq<Bytes> {
    if rows == [] then [] else WantedAll(rows[..|rows| - 1], address) + Wanted(rows[|rows| - 1], address)
  }

  /** The row as stored: addresses replaced by their ids. */
  function Stored(columns: Columns, address: seq<string>, ids: map<Bytes, nat>): Columns {
    map c | c in columns ::
      if c in address && columns[c].Raw? && columns[c].bytes in ids then Id(ids[columns[c].bytes]) else columns[c]
  }

  /** The row as the hex view shows it: ids replaced by the addresses they join, null where none does. */
  ghost predicate Shows(t: Table<Bytes>, stored: Columns, address: seq<string>, shown: Columns) {
    shown.Keys == stored.Keys &&
    forall c :: c in stored ==>
      if c in address && stored[c].Id? then
        (shown[c].Raw? && Holds(t, stored[c].id, shown[c].bytes)) || (shown[c].Null? && forall k :: !Holds(t, stored[c].id, k))
      else shown[c] == stored[c]
  }

  /** A decoded row carries no ids. */
  predicate Decoded(columns: Columns) {
    forall c :: c in columns ==> !columns[c].Id?
  }

  lemma {:induction false} WantedHas(columns: Columns, address: seq<string>, c: string)
    requires c in address && c in columns && columns[c].Raw?
    ensures columns[c].bytes in Wanted(columns, address)
  {
    var init, last := address[..|address| - 1], address[|address| - 1];
    if c != last {
      assert address == init + [last];
      WantedHas(columns, init, c);
    }
  }

  lemma {:induction false} WantedAllHas(rows: seq<Columns>, address: seq<string>, i: nat, k: Bytes)
    requires i < |rows| && k in Wanted(rows[i], address)
    ensures k in WantedAll(rows, address)
  {
    if i < |rows| - 1 { WantedAllHas(rows[..|rows| - 1], address, i, k); }
  }

  /** Every address of a batch has its id once the batch's addresses are inserted: the row holds no address in the clear. */
  lemma AllResolved(t: Table<Bytes>, rows: seq<Columns>, address: seq<string>, i: nat, c: string)
    requires Valid(t) && i < |rows| && c in address && c in rows[i] && rows[i][c].Raw?
    ensures var t' := InsertAll(t, WantedAll(rows, address));
            rows[i][c].bytes in t'.ids && Stored(rows[i], address, t'.ids)[c] == Id(t'.ids[rows[i][c].bytes])
  {
    WantedHas(rows[i], address, c);
    WantedAllHas(rows, address, i, rows[i][c].bytes);
    InsertAllKeeps(t, WantedAll(rows, address));
    var ks := WantedAll(rows, address);
    var j :| 0 <= j < |ks| && ks[j] == rows[i][c].bytes;
  }

  lemma ColumnRoundTrips(t: Table<Bytes>, rows: seq<Columns>, address: seq<string>, i: nat, later: seq<Batch<Bytes>>, shown: Columns, c: string)
    requires Valid(t) && i < |rows| && Decoded(rows[i]) && c in rows[i]
    requires var t' := InsertAll(t, WantedAll(rows, address));
             Shows(Run(t', later), Stored(rows[i], address, t'.ids), address, shown)
    ensures c in shown && shown[c] == rows[i][c]
  {
    var t' := InsertAll(t, WantedAll(rows, address));
    if c in address && rows[i][c].Raw? {
      InsertAllKeeps(t, WantedAll(rows, address));
      NeverRepointed(t', later);
      AllResolved(t, rows, address, i, c);
      assert Holds(t', t'.ids[rows[i][c].bytes], rows[i][c].bytes);
    }
  }

  /** Reading a stored row back through the view, now or after any later batches, gives the decoded row. */
  lemma AddressesRoundTrip(t: Table<Bytes>, rows: seq<Columns>, address: seq<string>, i: nat, later: seq<Batch<Bytes>>, shown: Columns)
    requires Valid(t) && i < |rows| && Decoded(rows[i])
    requires var t' := InsertAll(t, WantedAll(rows, address));
             Shows(Run(t', later), Stored(rows[i], address, t'.ids), address, shown)
    ensures shown == rows[i]
  {
    forall c | c in rows[i]
      ensures c in shown && shown[c] == rows[i][c]
    {
      ColumnRoundTrips(t, rows, address, i, later, shown, c);
    }
  }
}
