/** The Partitions class: what it has made and where it last was, updated in place. */
module PartitionBooks {
  import opened Common
  import P = Partitions

  class PartitionBook {
    const size: nat
    var made: set<P.Part>
    var lastSeen: map<string, nat>
    ghost var reported: seq<P.Part>

    constructor (size: nat)
      requires size > 0
      ensures View() == P.NewMemory() && this.size == size
    {
      this.size := size;
      made, lastSeen, reported := {}, map[], [];
    }

    ghost function View(): P.Memory
      reads this
    {
      P.Memory(made, lastSeen, reported)
    }

    method Plan(tables: seq<string>, blocks: seq<nat>) returns (planned: seq<P.Part>)
      requires size > 0
      ensures planned == P.Plan(made, tables, blocks, size)
    {
      var ns := Numbers(blocks);
      var out: seq<P.Part> := [];
      for i := 0 to |tables|
        invariant out == P.MissingAll(made, tables[..i], ns)
      {
        assert tables[..i + 1][..i] == tables[..i];
        ghost var before := out;
        for j := 0 to |ns|
          invariant out == before + P.Missing(made, tables[i], ns[..j])
        {
          assert ns[..j + 1][..j] == ns[..j];
          var p := P.Part(tables[i], ns[j]);
          if p !in made { out := out + [p]; }
        }
        assert ns[..|ns|] == ns;
      }
      assert tables[..|tables|] == tables;
      planned := P.Sort(out);
    }

    /** The distinct partition numbers of the blocks, in order of first appearance. */
    method Numbers(blocks: seq<nat>) returns (ns: seq<nat>)
      requires size > 0
      ensures ns == Unique(P.Numbers(blocks, size))
    {
      ghost var all := P.Numbers(blocks, size);
      ns := [];
      for i := 0 to |blocks|
        invariant ns == Unique(all[..i])
      {
        assert all[..i + 1][..i] == all[..i];
        var n := P.PartitionOf(blocks[i], size);
        if n !in ns { ns := ns + [n]; }
      }
      assert all[..|blocks|] == all;
    }

    /** After COMMIT: remembers what was made, and reports what the batch moved past. */
    method Committed(tables: seq<string>, blocks: seq<nat>, planned: seq<P.Part>)
      requires size > 0
      modifies this
      ensures View() == P.Committed(old(View()), tables, blocks, planned, size)
    {
      for i := 0 to |planned|
        invariant made == old(made) + (set p | p in planned[..i])
        invariant lastSeen == old(lastSeen) && reported == old(reported)
      {
        assert planned[..i + 1] == planned[..i] + [planned[i]];
        made := made + {planned[i]};
      }
      assert planned[..|planned|] == planned;
      if blocks == [] { return; }
      var m := Newest(blocks);
      ghost var known := View();
      for i := 0 to |tables|
        invariant View() == P.FinishAll(known, tables[..i], m)
      {
        assert tables[..i + 1][..i] == tables[..i];
        Finish(tables[i], m);
      }
      assert tables[..|tables|] == tables;
    }

    method Newest(blocks: seq<nat>) returns (m: nat)
      requires size > 0 && blocks != []
      ensures m == P.Newest(P.Numbers(blocks, size))
    {
      ghost var all := P.Numbers(blocks, size);
      m := P.PartitionOf(blocks[0], size);
      for i := 1 to |blocks|
        invariant m == P.Newest(all[..i])
      {
        assert all[..i + 1][..i] == all[..i];
        var n := P.PartitionOf(blocks[i], size);
        if n > m { m := n; }
      }
      assert all[..|blocks|] == all;
    }

    method Finish(table: string, m: nat)
      modifies this`lastSeen, this`reported
      ensures View() == P.Finish(old(View()), table, m)
    {
      if table !in lastSeen {
        lastSeen := lastSeen[table := m];
        return;
      }
      var last := lastSeen[table];
      if m <= last { return; }
      lastSeen := lastSeen[table := m];
      for k := last to m
        invariant reported == old(reported) + P.MadeBetween(made, table, last, k)
      {
        if P.Part(table, k) in made { reported := reported + [P.Part(table, k)]; }
      }
    }
  }
}
