/**
 An address's history (packages/explorer/lib/address.ts): a page is the newest rows of two limited scans,
 one by sender and one by receiver, merged; each page links to the next by its last row's block and log.

 The transfers table is its rows in block and log order; later rows are appended. "Descending" lists are
 newest first, as the queries return them.
 */
module History {
  import opened Common
  import opened Digits

  datatype At = At(block: nat, li: nat)

  datatype Transfer = Transfer(at: At, tx: string, from: nat, to: nat, value: nat)

  predicate Less(a: At, b: At) {
    a.block < b.block || (a.block == b.block && a.li < b.li)
  }

  /** Rows in key order. */
  predicate Ascending(rows: seq<Transfer>) {
    rows == [] ||
    (Ascending(rows[..|rows| - 1]) && forall i :: 0 <= i < |rows| - 1 ==> Less(rows[i].at, rows[|rows| - 1].at))
  }

  datatype Side = Sender | Receiver | Either

  predicate Matches(t: Transfer, id: nat, side: Side) {
    match side
    case Sender => t.from == id
    case Receiver => t.to == id
    case Either => t.from == id || t.to == id
  }

  /** One index scan: the newest `limit` rows before a position. */
  function Scan(rows: seq<Transfer>, id: nat, side: Side, before: At, limit: nat): seq<Transfer> {
    if rows == [] || limit == 0 then []
    else
      var r, rest := rows[|rows| - 1], rows[..|rows| - 1];
      if Matches(r, id, side) && Less(r.at, before) then [r] + Scan(rest, id, side, before, limit - 1)
      else Scan(rest, id, side, before, limit)
  }

  /** UNION of two descending scans, in descending order. */
  function Merge(a: seq<Transfer>, b: seq<Transfer>): seq<Transfer>
    decreases |a| + |b|
  {
    if a == [] then b
    else if b == [] then a
    else if a[0] == b[0] then [a[0]] + Merge(a[1..], b[1..])
    else if Less(b[0].at, a[0].at) then [a[0]] + Merge(a[1..], b)
    else [b[0]] + Merge(a, b[1..])
  }

  function Take<T>(s: seq<T>, n: nat): seq<T> {
    if n < |s| then s[..n] else s
  }

  /** `latestSql`. */
  function Latest(rows: seq<Transfer>, id: nat, before: At, limit: nat): seq<Transfer> {
    Take(Merge(Scan(rows, id, Sender, before, limit), Scan(rows, id, Receiver, before, limit)), limit)
  }

  /** Everything an address took part in before a position, newest first, each transfer once. */
  function All(rows: seq<Transfer>, id: nat, before: At): seq<Transfer> {
    if rows == [] then []
    else
      var r := rows[|rows| - 1];
      (if Matches(r, id, Either) && Less(r.at, before) then [r] else []) + All(rows[..|rows| - 1], id, before)
  }

  // ----- the link --------------------------------------------------------------------------------

  function Link(at: At): string {
    Print(at.block) + "-" + Print(at.li)
  }

  function Dash(s: string): (i: Option<nat>)
    ensures i.Some? ==> i.value < |s| && s[i.value] == '-' && forall k :: 0 <= k < i.value ==> s[k] != '-'
    ensures i.None? ==> forall k :: 0 <= k < |s| ==> s[k] != '-'
  {
    if s == "" then None
    else
      var first := Dash(s[..|s| - 1]);
      if first.Some? then first else if s[|s| - 1] == '-' then Some(|s| - 1) else None
  }

  /** `parseBefore`: 1 to 15 digits, a dash, 1 to 9 digits. */
  function ParseBefore(s: string): Option<At> {
    var dash := Dash(s);
    if dash.None? then None
    else
      var block, li := s[..dash.value], s[dash.value + 1..];
      if 1 <= |block| <= 15 && AllDigits(block) && 1 <= |li| <= 9 && AllDigits(li) then Some(At(Value(block), Value(li))) else None
  }

  lemma DashOfLink(b: string, l: string)
    requires AllDigits(b)
    ensures var s := b + "-" + l; Dash(s) == Some(|b|) && s[..|b|] == b && s[|b| + 1..] == l
  {
    var s := b + "-" + l;
    assert s[|b|] == '-';
    assert forall k :: 0 <= k < |b| ==> s[k] == b[k] && s[k] != '-';
    assert Dash(s).Some? && Dash(s).value == |b|;
  }

  /** A link is read back as the position it was printed from exactly when both numbers fit the pattern. */
  lemma LinkRoundTrips(at: At)
    ensures ParseBefore(Link(at)) == Some(at) <==> at.block < Pow10(15) && at.li < Pow10(9)
  {
    DashOfLink(Print(at.block), Print(at.li));
    ValueOfPrint(at.block);
    ValueOfPrint(at.li);
    PrintLength(at.block, 15);
    PrintLength(at.li, 9);
  }

  // ----- a page ----------------------------------------------------------------------------------

  const MAX := At(9223372036854775807, 2147483647)

  function From(before: Option<At>, max: At): At {
    if before.Some? then before.value else max
  }

  datatype Page = Page(rows: seq<Transfer>, older: Option<string>)

  /** `history`; the first page is read from before `max`. */
  function PageOf(rows: seq<Transfer>, id: nat, before: Option<At>, size: nat, max: At): Page {
    var found := Latest(rows, id, From(before, max), size + 1);
    var shown := Take(found, size);
    Page(shown, if |found| > size && shown != [] then Some(Link(shown[|shown| - 1].at)) else None)
  }

  /** A row's part in the history of an address. */
  datatype Dir = In | Out | Self

  function DirOf(t: Transfer, id: nat): Dir {
    if t.from == t.to then Self else if t.to == id then In else Out
  }

  function Counterparty(t: Transfer, id: nat): nat {
    if DirOf(t, id) == In then t.from else t.to
  }

  /** The counterparty is the other end, and the address itself only of a self-transfer. */
  lemma CounterpartyIsOther(t: Transfer, id: nat)
    requires Matches(t, id, Either)
    ensures {id, Counterparty(t, id)} == {t.from, t.to}
    ensures Counterparty(t, id) == id <==> DirOf(t, id) == Self
  {
  }

  lemma InOrder(rows: seq<Transfer>, i: nat, j: nat)
    requires Ascending(rows) && i < j < |rows|
    ensures Less(rows[i].at, rows[j].at)
  {
    if j < |rows| - 1 { InOrder(rows[..|rows| - 1], i, j); }
  }

  /** All of a list comes before a position. */
  ghost predicate Below(list: seq<Transfer>, at: At) {
    forall i :: 0 <= i < |list| ==> Less(list[i].at, at)
  }

  lemma {:induction false} ScanBelow(rows: seq<Transfer>, id: nat, side: Side, before: At, limit: nat, at: At)
    requires Below(rows, at)
    ensures Below(Scan(rows, id, side, before, limit), at)
  {
    if rows != [] && limit > 0 {
      var rest := rows[..|rows| - 1];
      ScanBelow(rest, id, side, before, limit - 1, at);
      ScanBelow(rest, id, side, before, limit, at);
    }
  }

  /** The newest row heads the merge, and is dropped from whichever scans found it. */
  lemma MergeHead(a: seq<Transfer>, b: seq<Transfer>, r: Transfer)
    requires Below(a, r.at) && Below(b, r.at)
    ensures Merge([r] + a, [r] + b) == [r] + Merge(a, b)
    ensures Merge([r] + a, b) == [r] + Merge(a, b)
    ensures Merge(a, [r] + b) == [r] + Merge(a, b)
  {
    assert ([r] + a)[1..] == a && ([r] + b)[1..] == b;
    if b == [] { MergeNothing(a); }
    if a == [] { MergeNothing(b); }
  }

  lemma MergeNothing(a: seq<Transfer>)
    ensures Merge(a, []) == a && Merge([], a) == a
  {
  }

  lemma TakeHead(r: Transfer, list: seq<Transfer>, n: nat)
    requires n > 0
    ensures Take([r] + list, n) == [r] + Take(list, n - 1)
  {
  }

  function Less1(n: nat, one: bool): nat
    requires one ==> n > 0
  {
    if one then n - 1 else n
  }

  lemma ScanHead(rows: seq<Transfer>, id: nat, side: Side, before: At, limit: nat)
    requires rows != [] && limit > 0
    ensures var r, rest := rows[|rows| - 1], rows[..|rows| - 1];
            Scan(rows, id, side, before, limit) ==
            (if Matches(r, id, side) && Less(r.at, before) then [r] + Scan(rest, id, side, before, limit - 1)
             else Scan(rest, id, side, before, limit))
  {
  }

  /** The newest row heads the merge of the scans that find it. */
  lemma MergedHead(rows: seq<Transfer>, id: nat, before: At, a: nat, b: nat)
    requires Ascending(rows) && rows != [] && a > 0 && b > 0
    requires Matches(rows[|rows| - 1], id, Either) && Less(rows[|rows| - 1].at, before)
    ensures var r, rest := rows[|rows| - 1], rows[..|rows| - 1];
            Merge(Scan(rows, id, Sender, before, a), Scan(rows, id, Receiver, before, b)) ==
            [r] + Merge(Scan(rest, id, Sender, before, Less1(a, r.from == id)), Scan(rest, id, Receiver, before, Less1(b, r.to == id)))
  {
    var r, rest := rows[|rows| - 1], rows[..|rows| - 1];
    var a', b' := Less1(a, r.from == id), Less1(b, r.to == id);
    ScanHead(rows, id, Sender, before, a);
    ScanHead(rows, id, Receiver, before, b);
    ScanBelow(rest, id, Sender, before, a', r.at);
    ScanBelow(rest, id, Receiver, before, b', r.at);
    MergeHead(Scan(rest, id, Sender, before, a'), Scan(rest, id, Receiver, before, b'), r);
  }

  /** The merge of two scans, each of at least `n`, agrees with the whole history in its first `n`. */
  lemma {:induction false} MergedScans(rows: seq<Transfer>, id: nat, before: At, a: nat, b: nat, n: nat)
    requires Ascending(rows) && n <= a && n <= b
    ensures Take(Merge(Scan(rows, id, Sender, before, a), Scan(rows, id, Receiver, before, b)), n) == Take(All(rows, id, before), n)
    decreases |rows|
  {
    if rows != [] && n > 0 {
      var r, rest := rows[|rows| - 1], rows[..|rows| - 1];
      if Less(r.at, before) && Matches(r, id, Either) {
        var a', b' := Less1(a, r.from == id), Less1(b, r.to == id);
        MergedScans(rest, id, before, a', b', n - 1);
        MergedHead(rows, id, before, a, b);
        TakeHead(r, Merge(Scan(rest, id, Sender, before, a'), Scan(rest, id, Receiver, before, b')), n);
        TakeHead(r, All(rest, id, before), n);
      } else {
        MergedScans(rest, id, before, a, b, n);
        ScanHead(rows, id, Sender, before, a);
        ScanHead(rows, id, Receiver, before, b);
        assert [] + All(rest, id, before) == All(rest, id, before);
      }
    }
  }

  /** Two limited scans merged and cut again are the top of the full history, a self-transfer once. */
  lemma LatestIsTop(rows: seq<Transfer>, id: nat, before: At, limit: nat)
    requires Ascending(rows)
    ensures Latest(rows, id, before, limit) == Take(All(rows, id, before), limit)
  {
    MergedScans(rows, id, before, limit, limit, limit);
  }

  // ----- following the links ---------------------------------------------------------------------

  /** The full history of a position's own: exactly the address's transfers before it, newest first. */
  lemma {:induction false} AllIsExact(rows: seq<Transfer>, id: nat, before: At)
    requires Ascending(rows)
    ensures forall t :: t in All(rows, id, before) <==>
              t in rows && (t.from == id || t.to == id) && (t.at.block < before.block || (t.at.block == before.block && t.at.li < before.li))
    ensures forall i, j :: 0 <= i < j < |All(rows, id, before)| ==>
              var newer, older := All(rows, id, before)[i].at, All(rows, id, before)[j].at;
              newer.block > older.block || (newer.block == older.block && newer.li > older.li)
  {
    if rows != [] {
      var r, rest := rows[|rows| - 1], rows[..|rows| - 1];
      AllIsExact(rest, id, before);
      assert rows == rest + [r];
      var all := All(rest, id, before);
      forall j | 0 <= j < |all|
        ensures Less(all[j].at, r.at)
      {
        assert all[j] in rest;
      }
    }
  }

  /** Rows appended later are past every position in the table. */
  lemma {:induction false} AllIgnoresNewer(rows: seq<Transfer>, newer: seq<Transfer>, id: nat, before: At)
    requires forall i :: 0 <= i < |newer| ==> !Less(newer[i].at, before)
    ensures All(rows + newer, id, before) == All(rows, id, before)
    decreases |newer|
  {
    if newer == [] {
      assert rows + newer == rows;
    } else {
      assert (rows + newer)[..|rows + newer| - 1] == rows + newer[..|newer| - 1];
      AllIgnoresNewer(rows, newer[..|newer| - 1], id, before);
    }
  }

  lemma {:induction false} AllBelow(rows: seq<Transfer>, id: nat, before: At, at: At)
    requires Below(rows, at)
    ensures Below(All(rows, id, before), at)
  {
    if rows != [] { AllBelow(rows[..|rows| - 1], id, before, at); }
  }

  /** The history after its `k` newest rows is the history before the last of them. */
  lemma {:induction false} AllContinues(rows: seq<Transfer>, id: nat, before: At, k: nat)
    requires Ascending(rows) && 0 < k <= |All(rows, id, before)|
    ensures All(rows, id, before)[k..] == All(rows, id, All(rows, id, before)[k - 1].at)
    decreases |rows|
  {
    var r, rest := rows[|rows| - 1], rows[..|rows| - 1];
    var all := All(rest, id, before);
    AllBelow(rest, id, before, r.at);
    if Matches(r, id, Either) && Less(r.at, before) {
      assert All(rows, id, before) == [r] + all && ([r] + all)[k..] == all[k - 1..];
      if k == 1 {
        AllUpTo(rest, id, before, r.at);
      } else {
        AllContinues(rest, id, before, k - 1);
        assert Less(all[k - 2].at, r.at);
      }
    } else {
      AllContinues(rest, id, before, k);
      assert Less(all[k - 1].at, r.at);
    }
  }

  lemma {:induction false} AllUpTo(rows: seq<Transfer>, id: nat, before: At, at: At)
    requires Below(rows, at) && Less(at, before)
    ensures All(rows, id, at) == All(rows, id, before)
  {
    if rows != [] { AllUpTo(rows[..|rows| - 1], id, before, at); }
  }

  /** The rows a reader collects by following `older` from page to page, each read from the table as it then is. */
  function Follow(tables: seq<seq<Transfer>>, id: nat, before: Option<At>, size: nat, max: At): seq<Transfer>
    decreases |tables|
  {
    if tables == [] then []
    else
      var page := PageOf(tables[0], id, before, size, max);
      page.rows + if page.older.Some? then Follow(tables[1..], id, ParseBefore(page.older.value), size, max) else []
  }

  /** Positions fit a link. */
  predicate Fits(rows: seq<Transfer>) {
    forall i :: 0 <= i < |rows| ==> rows[i].at.block < Pow10(15) && rows[i].at.li < Pow10(9)
  }

  /** Each table is the one before it with newer rows appended; its positions fit a link. */
  ghost predicate Growing(tables: seq<seq<Transfer>>)
    decreases |tables|
  {
    tables == [] ||
    (Ascending(tables[0]) && Fits(tables[0])
     && (|tables| > 1 ==> tables[0] <= tables[1]) && Growing(tables[1..]))
  }

  /** The page is the top of the history, and links on exactly when there is more. */
  lemma PageIsTop(rows: seq<Transfer>, id: nat, before: Option<At>, size: nat, max: At)
    requires Ascending(rows) && size > 0
    ensures var page, all := PageOf(rows, id, before, size, max), All(rows, id, From(before, max));
            && page.rows == Take(all, size)
            && page.older == (if |all| > size then Some(Link(all[size - 1].at)) else None)
  {
    var all := All(rows, id, From(before, max));
    LatestIsTop(rows, id, From(before, max), size + 1);
    TakeTwice(all, size);
  }

  lemma TakeTwice<T>(all: seq<T>, size: nat)
    ensures Take(Take(all, size + 1), size) == Take(all, size)
    ensures |Take(all, size + 1)| > size <==> |all| > size
    ensures size > 0 && |all| > size ==> |Take(all, size)| == size && Take(all, size)[size - 1] == all[size - 1]
  {
  }

  /** The history past a page's last row, in a table that has grown since. */
  lemma NextPage(rows: seq<Transfer>, later: seq<Transfer>, id: nat, before: At, k: nat)
    requires Ascending(rows) && Ascending(later) && rows <= later && 0 < k <= |All(rows, id, before)|
    ensures All(later, id, All(rows, id, before)[k - 1].at) == All(rows, id, before)[k..]
  {
    var last := All(rows, id, before)[k - 1];
    AllIsExact(rows, id, before);
    assert last in rows;
    var m :| 0 <= m < |rows| && rows[m] == last;
    var newer := later[|rows|..];
    assert later == rows + newer;
    forall i | 0 <= i < |newer|
      ensures !Less(newer[i].at, last.at)
    {
      InOrder(later, m, |rows| + i);
      assert later[m] == last;
    }
    AllIgnoresNewer(rows, newer, id, last.at);
    AllContinues(rows, id, before, k);
  }

  lemma LinkFits(rows: seq<Transfer>, id: nat, before: At, k: nat)
    requires Ascending(rows) && Fits(rows) && k < |All(rows, id, before)|
    ensures ParseBefore(Link(All(rows, id, before)[k].at)) == Some(All(rows, id, before)[k].at)
  {
    AllIsExact(rows, id, before);
    assert All(rows, id, before)[k] in rows;
    LinkRoundTrips(All(rows, id, before)[k].at);
  }

  lemma TakeJoins<T>(all: seq<T>, a: nat, b: nat)
    requires a < |all|
    ensures Take(all, a) + Take(all[a..], b) == Take(all, a + b)
  {
  }

  /** What `pages` pages hold at most. */
  function Room(pages: nat, size: nat): nat {
    if pages == 0 then 0 else size + Room(pages - 1, size)
  }

  lemma FollowStep(tables: seq<seq<Transfer>>, id: nat, before: Option<At>, size: nat, max: At, all: seq<Transfer>)
    requires Growing(tables) && tables != [] && size > 0 && all == All(tables[0], id, From(before, max))
    ensures |all| <= size ==> Follow(tables, id, before, size, max) == all
    ensures |all| > size ==> Follow(tables, id, before, size, max) == all[..size] + Follow(tables[1..], id, Some(all[size - 1].at), size, max)
  {
    PageIsTop(tables[0], id, before, size, max);
    if |all| > size {
      LinkFits(tables[0], id, From(before, max), size - 1);
    } else {
      assert all + [] == all;
    }
  }

  /**
   Following the links reads the history as it was at the first page, page after page: no row missed, none
   repeated, whatever is appended meanwhile; with pages enough, all of it.
   */
  lemma {:induction false} FollowingIsWhole(tables: seq<seq<Transfer>>, id: nat, before: Option<At>, size: nat, max: At)
    requires Growing(tables) && tables != [] && size > 0
    ensures Follow(tables, id, before, size, max) == Take(All(tables[0], id, From(before, max)), Room(|tables|, size))
    decreases |tables|
  {
    var all := All(tables[0], id, From(before, max));
    FollowStep(tables, id, before, size, max, all);
    if |all| > size {
      if |tables| > 1 {
        NextPage(tables[0], tables[1], id, From(before, max), size);
        FollowingIsWhole(tables[1..], id, Some(all[size - 1].at), size, max);
      } else {
        assert Follow(tables[1..], id, Some(all[size - 1].at), size, max) == [];
        assert all[size..][..0] == [];
      }
      TakeJoins(all, size, Room(|tables| - 1, size));
    }
  }

  /** The first page leaves nothing out: every position a link can hold is before `MAX`. */
  lemma FirstPageIsWhole(rows: seq<Transfer>, id: nat, t: Transfer)
    requires Ascending(rows) && t.at.block < Pow10(15)
    ensures t in All(rows, id, MAX) <==> t in rows && (t.from == id || t.to == id)
  {
    AllIsExact(rows, id, MAX);
    assert Pow10(15) == 1000000000000000;
  }
}
