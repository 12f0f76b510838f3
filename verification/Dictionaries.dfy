/**
 The dictionary statements as the worker runs them, on tables updated in place: `resolveAddresses`,
 `sentenceIds` and `labelIds`, with their Maps.
 */
module Dictionaries {
  import I = Interning
  import L = Labels

  lemma {:induction false} InsertedIsKnown<K(!new)>(t: I.Table<K>, ks: seq<K>, i: nat)
    requires i < |ks|
    ensures ks[i] in I.InsertAll(t, ks).ids
  {
    if i < |ks| - 1 { InsertedIsKnown(t, ks[..|ks| - 1], i); }
  }

  /** A Map's keys insert what the list with its repetitions would. */
  lemma InsertOnce<K(!new)>(t: I.Table<K>, unique: seq<K>, ks: seq<K>, k: K)
    requires I.InsertAll(t, unique) == I.InsertAll(t, ks)
    ensures k in unique ==> I.InsertAll(t, unique) == I.InsertAll(t, ks + [k])
    ensures I.InsertAll(t, unique + [k]) == I.InsertAll(t, ks + [k])
  {
    assert (ks + [k])[..|ks|] == ks && (unique + [k])[..|unique|] == unique;
    if i :| 0 <= i < |unique| && unique[i] == k { InsertedIsKnown(t, unique, i); }
  }

  /** The distinct keys, in order of first appearance. */
  method Unique<K(==,!new)>(ghost t: I.Table<K>, ks: seq<K>) returns (unique: seq<K>)
    ensures I.InsertAll(t, unique) == I.InsertAll(t, ks)
    ensures forall k :: k in unique <==> k in ks
  {
    unique := [];
    for i := 0 to |ks|
      invariant I.InsertAll(t, unique) == I.InsertAll(t, ks[..i])
      invariant forall k :: k in unique <==> k in ks[..i]
    {
      InsertOnce(t, unique, ks[..i], ks[i]);
      assert ks[..i + 1] == ks[..i] + [ks[i]];
      if ks[i] !in unique { unique := unique + [ks[i]]; }
    }
    assert ks[..|ks|] == ks;
  }

  lemma StoredStep(columns: I.Columns, address: seq<string>, j: nat, ids: map<I.Bytes, nat>)
    requires j < |address|
    ensures var c, before := address[j], I.Stored(columns, address[..j], ids);
            I.Stored(columns, address[..j + 1], ids) ==
            if c in before && before[c].Raw? && before[c].bytes in ids then before[c := I.Id(ids[before[c].bytes])] else before
  {
    assert address[..j + 1] == address[..j] + [address[j]];
  }

  class AddressStore {
    var addresses: I.Table<I.Bytes>

    constructor ()
      ensures addresses == I.Table(map[], 0)
    {
      addresses := I.Table(map[], 0);
    }

    /** The distinct addresses of the rows' address columns. */
    method Collect(rows: array<I.Columns>, address: seq<string>) returns (wanted: seq<I.Bytes>)
      ensures I.InsertAll(addresses, wanted) == I.InsertAll(addresses, I.WantedAll(rows[..], address))
    {
      wanted := [];
      for i := 0 to rows.Length
        invariant I.InsertAll(addresses, wanted) == I.InsertAll(addresses, I.WantedAll(rows[..i], address))
      {
        ghost var before := I.WantedAll(rows[..i], address);
        assert before + I.Wanted(rows[i], address[..0]) == before;
        for j := 0 to |address|
          invariant I.InsertAll(addresses, wanted) == I.InsertAll(addresses, before + I.Wanted(rows[i], address[..j]))
        {
          var c := address[j];
          ghost var sofar := before + I.Wanted(rows[i], address[..j]);
          assert address[..j + 1][..j] == address[..j];
          if c in rows[i] && rows[i][c].Raw? {
            var k := rows[i][c].bytes;
            InsertOnce(addresses, wanted, sofar, k);
            assert before + I.Wanted(rows[i], address[..j + 1]) == sofar + [k];
            if k !in wanted { wanted := wanted + [k]; }
          } else {
            assert before + I.Wanted(rows[i], address[..j + 1]) == sofar;
          }
        }
        assert address[..|address|] == address && rows[..i + 1][..i] == rows[..i];
      }
      assert rows[..rows.Length] == rows[..];
    }

    method Rewrite(columns: I.Columns, address: seq<string>, ids: map<I.Bytes, nat>) returns (row: I.Columns)
      ensures row == I.Stored(columns, address, ids)
    {
      row := columns;
      for j := 0 to |address|
        invariant row == I.Stored(columns, address[..j], ids)
      {
        var c := address[j];
        StoredStep(columns, address, j, ids);
        if c in row && row[c].Raw? && row[c].bytes in ids { row := row[c := I.Id(ids[row[c].bytes])]; }
      }
      assert address[..|address|] == address;
    }

    /** `resolveAddresses`: the rows are rewritten in place. */
    method Resolve(rows: array<I.Columns>, address: seq<string>)
      modifies this, rows
      ensures addresses == I.InsertAll(old(addresses), I.WantedAll(old(rows[..]), address))
      ensures forall i :: 0 <= i < rows.Length ==> rows[i] == I.Stored(old(rows[i]), address, addresses.ids)
    {
      var wanted := Collect(rows, address);
      addresses := I.InsertAll(addresses, wanted);
      var ids := addresses.ids;
      for i := 0 to rows.Length
        invariant forall k :: 0 <= k < i ==> rows[k] == I.Stored(old(rows[k]), address, ids)
        invariant forall k :: i <= k < rows.Length ==> rows[k] == old(rows[k])
        modifies rows
      {
        var row := Rewrite(rows[i], address, ids);
        rows[i] := row;
      }
    }
  }

  function SidIn(sids: map<string, nat>, r: L.Row): nat {
    var key := L.SentenceKey(L.PairOf(r));
    if key in sids then sids[key] else 0
  }

  class InsightStore {
    const fl: L.Float
    var sentences: I.Table<L.Pair>
    var labels: I.Table<L.Label>

    constructor (fl: L.Float)
      ensures sentences == I.Table(map[], 0) && labels == I.Table(map[], 0) && this.fl == fl
    {
      this.fl := fl;
      sentences, labels := I.Table(map[], 0), I.Table(map[], 0);
    }

    /** `sentenceIds`: each sentence's id, by its Map key. */
    method SentenceIds(rows: seq<L.Row>) returns (ids: map<string, nat>)
      requires forall i :: 0 <= i < |rows| ==> L.NUL !in L.PairOf(rows[i]).model
      modifies this`sentences
      ensures sentences == I.InsertAll(old(sentences), L.Pairs(rows))
      ensures forall i :: 0 <= i < |rows| ==> Names(ids, L.PairOf(rows[i]))
    {
      var pairs := L.Pairs(rows);
      var unique := Unique(sentences, pairs);
      ghost var before := sentences;
      sentences := I.InsertAll(sentences, unique);
      ids := SelectSentences(pairs, before);
      assert forall i :: 0 <= i < |rows| ==> pairs[i] == L.PairOf(rows[i]);
    }

    /** The map gives the pair's key its id. */
    ghost predicate Names(ids: map<string, nat>, k: L.Pair)
      reads this`sentences
    {
      L.SentenceKey(k) in ids && I.Holds(sentences, ids[L.SentenceKey(k)], k)
    }

    method SelectSentences(pairs: seq<L.Pair>, ghost before: I.Table<L.Pair>) returns (ids: map<string, nat>)
      requires forall i :: 0 <= i < |pairs| ==> L.NUL !in pairs[i].model
      requires sentences == I.InsertAll(before, pairs)
      ensures forall i :: 0 <= i < |pairs| ==> Names(ids, pairs[i])
    {
      ids := map[];
      for i := 0 to |pairs|
        invariant forall j :: 0 <= j < i ==> Names(ids, pairs[j])
      {
        var k := pairs[i];
        InsertedIsKnown(before, pairs, i);
        forall j | 0 <= j < i && L.SentenceKey(pairs[j]) == L.SentenceKey(k)
          ensures pairs[j] == k
        {
          L.SentenceKeyTells(pairs[j], k);
        }
        ids := ids[L.SentenceKey(k) := sentences.ids[k]];
      }
    }

    /** `labelIds`: each row's label id. */
    method LabelIds(rows: seq<L.Row>, sids: map<string, nat>) returns (ids: seq<nat>)
      requires L.ValidFloat(fl) && forall i :: 0 <= i < |rows| ==> Names(sids, L.PairOf(rows[i]))
      modifies this`labels
      ensures labels == I.InsertAll(old(labels), L.LabelsOf(fl, sentences, rows))
      ensures |ids| == |rows| && forall i :: 0 <= i < |rows| ==> I.Holds(labels, ids[i], L.LabelsOf(fl, sentences, rows)[i])
    {
      var sent := SentLabels(rows, sids);
      var unique := Unique(labels, sent);
      ghost var before := labels;
      labels := I.InsertAll(labels, unique);
      var read := SelectLabels(unique, before);
      ids := FindLabels(rows, sids, sent, read);
    }

    method SentLabels(rows: seq<L.Row>, sids: map<string, nat>) returns (sent: seq<L.Label>)
      requires L.ValidFloat(fl) && forall i :: 0 <= i < |rows| ==> Names(sids, L.PairOf(rows[i]))
      ensures sent == L.LabelsOf(fl, sentences, rows) && forall l :: l in sent ==> L.Written(fl, l)
      ensures forall i :: 0 <= i < |rows| ==> sent[i] == L.LabelOf(fl, rows[i], SidIn(sids, rows[i]))
    {
      sent := [];
      for i := 0 to |rows|
        invariant |sent| == i && forall l :: l in sent ==> L.Written(fl, l)
        invariant forall j :: 0 <= j < i ==> sent[j] == L.LabelOf(fl, rows[j], SidIn(sids, rows[j]))
      {
        var sid := SidIn(sids, rows[i]);
        L.SentIsWritten(fl, rows[i], sid);
        sent := sent + [L.LabelOf(fl, rows[i], sid)];
      }
    }

    /** Every row's id, looked up under the key it was sent with. */
    method FindLabels(rows: seq<L.Row>, sids: map<string, nat>, ghost sent: seq<L.Label>, read: map<L.Key, nat>) returns (ids: seq<nat>)
      requires L.ValidFloat(fl) && |sent| == |rows| && forall i :: 0 <= i < |rows| ==> Names(sids, L.PairOf(rows[i]))
      requires forall i :: 0 <= i < |rows| ==> sent[i] == L.LabelOf(fl, rows[i], SidIn(sids, rows[i]))
      requires forall l :: l in sent ==> L.ReadKey(fl, l) in read && I.Holds(labels, read[L.ReadKey(fl, l)], l)
      ensures |ids| == |rows| && forall i :: 0 <= i < |rows| ==> I.Holds(labels, ids[i], sent[i])
    {
      ids := [];
      for i := 0 to |rows|
        invariant |ids| == i && forall j :: 0 <= j < i ==> I.Holds(labels, ids[j], sent[j])
      {
        var sid := SidIn(sids, rows[i]);
        assert sent[i] in sent;
        L.SentIsRead(fl, rows[i], sid);
        ids := ids + [read[L.SentKey(fl, rows[i], sid)]];
      }
    }

    /** The select: every label of the round, under the key of the value read back. */
    method SelectLabels(unique: seq<L.Label>, ghost before: I.Table<L.Label>) returns (read: map<L.Key, nat>)
      requires labels == I.InsertAll(before, unique) && forall l :: l in unique ==> L.Written(fl, l)
      ensures forall l :: l in unique ==> L.ReadKey(fl, l) in read && I.Holds(labels, read[L.ReadKey(fl, l)], l)
    {
      read := map[];
      for k := 0 to |unique|
        invariant forall l :: l in unique[..k] ==> L.ReadKey(fl, l) in read && I.Holds(labels, read[L.ReadKey(fl, l)], l)
      {
        InsertedIsKnown(before, unique, k);
        forall l | l in unique[..k] && L.ReadKey(fl, l) == L.ReadKey(fl, unique[k])
          ensures l == unique[k]
        {
          L.ReadKeyTells(fl, l, unique[k]);
        }
        assert unique[..k + 1] == unique[..k] + [unique[k]];
        read := read[L.ReadKey(fl, unique[k]) := labels.ids[unique[k]]];
      }
      assert unique[..|unique|] == unique;
    }
  }
}
