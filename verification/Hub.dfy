/**
 The live tape's fan-out (packages/explorer/lib/hub.ts): a bounded buffer of blocks, and viewers who
 connect, fall silent and come back with the last event id they saw (section 9.2.4 of the WHATWG HTML
 Standard).

 `history` is every block since the last seed, never trimmed; `floor` is what that seed set as trimmed;
 `epoch` counts seeds. Only proofs look at them, and at a viewer's `epoch`, `from` and `tape`: the seed
 its tape belongs to, where in that seed's history it starts, and the blocks received since.
 */
module Hub {
  import opened Common
  import opened Tape

  datatype Frame =
    | Retry
    | Heartbeat
    | HelloFrame(hello: seq<Block>, stats: Option<Stats>, id: Option<nat>)
    | BlockFrame(block: Block)
    | StatsFrame(stat: Stats)

  datatype Viewer = Viewer(open: bool, last: Option<nat>, epoch: int, from: nat, tape: seq<Block>)

  datatype Config = Config(maxStreams: nat, bufferMoves: nat)

  datatype Hub = Hub(blocks: seq<Block>, stats: Option<Stats>, trimmedThrough: int, viewers: map<nat, Viewer>,
                     history: seq<Block>, floor: int, epoch: int)

  function NewHub(): Hub {
    Hub([], None, -1, map[], [], -1, 0)
  }

  // ----- the buffer ------------------------------------------------------------------------------

  function Count(blocks: seq<Block>): nat {
    if blocks == [] then 0 else |blocks[0].moves| + Count(blocks[1..])
  }

  /** `#trim`: whole blocks go, oldest first, while the rest still hold `size` movements. */
  function Trim(blocks: seq<Block>, through: int, size: nat): (seq<Block>, int) {
    if |blocks| > 1 && Count(blocks[1..]) >= size then Trim(blocks[1..], Max(through, blocks[0].n), size)
    else (blocks, through)
  }

  /** `hello`: the latest `left` movements, in their blocks. */
  function Latest(blocks: seq<Block>, left: nat): seq<Block> {
    if blocks == [] || left == 0 then []
    else
      var b := blocks[|blocks| - 1];
      var k := Min(left, |b.moves|);
      Latest(blocks[..|blocks| - 1], left - k) + [b.(moves := b.moves[|b.moves| - k..])]
  }

  function Newest(blocks: seq<Block>): Option<nat> {
    if blocks == [] then None else Some(blocks[|blocks| - 1].n)
  }

  function Hello(cfg: Config, h: Hub): Frame {
    HelloFrame(Latest(h.blocks, cfg.bufferMoves), h.stats, Newest(h.blocks))
  }

  // ----- viewers ---------------------------------------------------------------------------------

  /** A frame arrives. A hello starts a tape at the end of the history, of which there are `at` blocks. */
  function Receive(v: Viewer, f: Frame, epoch: int, at: nat): Viewer {
    match f
    case HelloFrame(_, _, id) => v.(last := if id.Some? then id else v.last, epoch := epoch, from := at, tape := [])
    case BlockFrame(b) => v.(last := Some(b.n), tape := v.tape + [b])
    case _ => v
  }

  function ReceiveAll(v: Viewer, fs: seq<Frame>, epoch: int, at: nat): Viewer {
    if fs == [] then v else Receive(ReceiveAll(v, fs[..|fs| - 1], epoch, at), fs[|fs| - 1], epoch, at)
  }

  function BlockFrames(blocks: seq<Block>): seq<Frame> {
    seq(|blocks|, i requires 0 <= i < |blocks| => BlockFrame(blocks[i]))
  }

  function Open(h: Hub): set<nat> {
    set s | s in h.viewers && h.viewers[s].open
  }

  /** `#broadcast`: one chunk to every open stream; one that does not take it is dropped. */
  function Broadcast(h: Hub, chunk: seq<Frame>, refusing: set<nat>): Hub {
    h.(viewers := map s | s in h.viewers :: Told(h.viewers[s], chunk, h.epoch, |h.history|, s in refusing))
  }

  function Told(v: Viewer, chunk: seq<Frame>, epoch: int, at: nat, refuses: bool): Viewer {
    if !v.open then v else if refuses then v.(open := false) else ReceiveAll(v, chunk, epoch, at)
  }

  // ----- the hub's methods -----------------------------------------------------------------------

  function Seed(cfg: Config, h: Hub, blocks: seq<Block>, releasedTo: int): Hub {
    var floor := if blocks == [] then releasedTo else blocks[0].n;
    var trimmed := Trim(blocks, floor, cfg.bufferMoves);
    h.(blocks := trimmed.0, trimmedThrough := trimmed.1, history := blocks, floor := floor, epoch := h.epoch + 1)
  }

  function Reseed(cfg: Config, h: Hub, blocks: seq<Block>, releasedTo: int, refusing: set<nat>): Hub {
    var seeded := Seed(cfg, h, blocks, releasedTo);
    Broadcast(seeded, [Hello(cfg, seeded)], refusing)
  }

  function PublishBlocks(cfg: Config, h: Hub, blocks: seq<Block>, refusing: set<nat>): Hub {
    if blocks == [] then h
    else
      var trimmed := Trim(h.blocks + blocks, h.trimmedThrough, cfg.bufferMoves);
      Broadcast(h.(blocks := trimmed.0, trimmedThrough := trimmed.1, history := h.history + blocks), BlockFrames(blocks), refusing)
  }

  function PublishStats(h: Hub, stats: Stats, refusing: set<nat>): Hub {
    Broadcast(h.(stats := Some(stats)), [StatsFrame(stats)], refusing)
  }

  /** Whether a viewer who saw `last` is resumed rather than greeted. */
  predicate Resumes(h: Hub, last: Option<nat>) {
    last.Some? && h.blocks != [] && h.trimmedThrough <= last.value <= h.blocks[|h.blocks| - 1].n
  }

  /** What a new stream is sent, after the retry interval. */
  function Greeting(cfg: Config, h: Hub, last: Option<nat>): seq<Frame> {
    if Resumes(h, last) then
      BlockFrames(After(h.blocks, last.value)) + if h.stats.Some? then [StatsFrame(h.stats.value)] else []
    else [Hello(cfg, h)]
  }

  /** A resumed tape goes on where it ended, or starts anew after the id the viewer gave. */
  function Rebased(h: Hub, v: Viewer): Viewer {
    if Resumes(h, v.last) && !(v.epoch == h.epoch && v.from + |v.tape| == Pos(h.history, v.last.value)) then
      v.(epoch := h.epoch, from := Pos(h.history, v.last.value), tape := [])
    else v
  }

  /** What a viewer who comes with `v.last` holds once its stream took `budget` chunks, or all there are. */
  function Met(cfg: Config, h: Hub, v: Viewer, budget: nat): Viewer {
    var chunks := [Retry] + Greeting(cfg, h, v.last);
    var met := ReceiveAll(if budget > 0 then Rebased(h, v) else v, chunks[..Min(budget, |chunks|)], h.epoch, |h.history|);
    met.(open := budget >= |chunks|)
  }

  /** The frames a viewer's stream took are what it holds. */
  lemma MetOfTaken(cfg: Config, h: Hub, v: Viewer, budget: nat, taken: seq<Frame>, ok: bool)
    requires var chunks := [Retry] + Greeting(cfg, h, v.last);
             taken == chunks[..Min(budget, |chunks|)] && (ok <==> budget >= |chunks|)
    ensures ReceiveAll(if budget > 0 then Rebased(h, v) else v, taken, h.epoch, |h.history|).(open := ok) == Met(cfg, h, v, budget)
  {
  }

  /** One stream more, or no longer, among the open ones. */
  lemma OpenWith(h: Hub, sink: nat, v: Viewer)
    ensures Open(h.(viewers := h.viewers[sink := v])) == if v.open then Open(h) + {sink} else Open(h) - {sink}
  {
  }

  /** `subscribe`. Refused or failed at once: no stream is open. */
  function Subscribe(cfg: Config, h: Hub, sink: nat, v: Viewer, budget: nat): Hub {
    if |Open(h)| >= cfg.maxStreams then h else h.(viewers := h.viewers[sink := Met(cfg, h, v, budget)])
  }

  function Unsubscribe(h: Hub, sink: nat): Hub {
    if sink in h.viewers then h.(viewers := h.viewers[sink := h.viewers[sink].(open := false)]) else h
  }

  function CloseAll(h: Hub): Hub {
    h.(viewers := map s | s in h.viewers :: h.viewers[s].(open := false))
  }

  // ----- what trimming leaves --------------------------------------------------------------------

  /** The buffer is the end of the history, and the shortest such end with `size` movements, or everything. */
  ghost predicate Shortest(history: seq<Block>, blocks: seq<Block>, size: nat) {
    && |blocks| <= |history| && history[|history| - |blocks|..] == blocks
    && (blocks != [] || history == [])
    && (|blocks| == |history| || Count(blocks) >= size)
    && (|blocks| > 1 ==> Count(blocks[1..]) < size)
  }

  /** What was trimmed is numbered up to `trimmedThrough`, and nothing else decides it but the seed. */
  ghost predicate TrimmedTo(history: seq<Block>, blocks: seq<Block>, floor: int, through: int)
    requires |blocks| <= |history|
  {
    var gone := |history| - |blocks|;
    through == if gone == 0 then floor else Max(floor, history[gone - 1].n)
  }

  lemma {:induction false} CountConcat(a: seq<Block>, b: seq<Block>)
    ensures Count(a + b) == Count(a) + Count(b)
  {
    if a == [] {
      assert a + b == b;
    } else {
      assert (a + b)[1..] == a[1..] + b;
      CountConcat(a[1..], b);
    }
  }

  lemma {:induction false} TrimIsShortest(history: seq<Block>, blocks: seq<Block>, floor: int, through: int, size: nat)
    requires Increasing(history) && |blocks| <= |history| && history[|history| - |blocks|..] == blocks
    requires blocks != [] || history == []
    requires |blocks| == |history| || Count(blocks) >= size
    requires TrimmedTo(history, blocks, floor, through)
    ensures var t := Trim(blocks, through, size);
            Shortest(history, t.0, size) && TrimmedTo(history, t.0, floor, t.1)
    decreases |blocks|
  {
    if |blocks| > 1 && Count(blocks[1..]) >= size {
      var gone := |history| - |blocks|;
      if gone > 0 { InOrder(history, gone - 1, gone); }
      TrimIsShortest(history, blocks[1..], floor, Max(through, blocks[0].n), size);
    }
  }

  /** The shortest end is the latest start: every whole-block end with `size` movements starts no later. */
  lemma ShortestIsLatest(history: seq<Block>, blocks: seq<Block>, size: nat, k: nat)
    requires Shortest(history, blocks, size) && k < |history| && Count(history[k..]) >= size
    ensures k <= |history| - |blocks|
  {
    var start := |history| - |blocks|;
    if k > start {
      assert blocks[1..][..k - start - 1] + history[k..] == blocks[1..];
      CountConcat(blocks[1..][..k - start - 1], history[k..]);
    }
  }

  // ----- hello -----------------------------------------------------------------------------------

  lemma LatestStep(blocks: seq<Block>, init: seq<Block>, b: Block, left: nat, k: nat)
    requires blocks == init + [b] && left > 0 && k == Min(left, |b.moves|)
    ensures Latest(blocks, left) == Latest(init, left - k) + [b.(moves := b.moves[|b.moves| - k..])]
  {
    assert blocks[..|blocks| - 1] == init;
  }

  /** A block's movements, each with its block. */
  function Moved(b: Block): seq<(nat, Move)> {
    seq(|b.moves|, i requires 0 <= i < |b.moves| => (b.n, b.moves[i]))
  }

  function Flat(blocks: seq<Block>): seq<(nat, Move)> {
    if blocks == [] then [] else Flat(blocks[..|blocks| - 1]) + Moved(blocks[|blocks| - 1])
  }

  lemma FlatStep(blocks: seq<Block>, init: seq<Block>, b: Block)
    requires blocks == init + [b]
    ensures Flat(blocks) == Flat(init) + Moved(b)
  {
    assert blocks[..|blocks| - 1] == init;
  }

  function End<T>(all: seq<T>, left: nat): seq<T> {
    all[|all| - Min(left, |all|)..]
  }

  lemma EndOfBoth<T>(a: seq<T>, b: seq<T>, left: nat, k: nat)
    requires k == Min(left, |b|)
    ensures End(a + b, left) == End(a, left - k) + b[|b| - k..]
  {
  }

  /** `hello` shows exactly the last `left` movements, in order, or all of them. */
  lemma {:induction false} LatestMovements(blocks: seq<Block>, left: nat)
    ensures Flat(Latest(blocks, left)) == End(Flat(blocks), left)
  {
    if blocks != [] && left > 0 {
      var init, b := blocks[..|blocks| - 1], blocks[|blocks| - 1];
      var k := Min(left, |b.moves|);
      var cut := b.(moves := b.moves[|b.moves| - k..]);
      LatestMovements(init, left - k);
      LatestStep(blocks, init, b, left, k);
      FlatStep(blocks, init, b);
      FlatStep(Latest(blocks, left), Latest(init, left - k), cut);
      EndOfBoth(Flat(init), Moved(b), left, k);
      assert Moved(cut) == Moved(b)[|b.moves| - k..];
    }
  }

  lemma CountLast(blocks: seq<Block>)
    requires blocks != []
    ensures Count(blocks) == Count(blocks[..|blocks| - 1]) + |blocks[|blocks| - 1].moves|
  {
    var init, last := blocks[..|blocks| - 1], [blocks[|blocks| - 1]];
    assert blocks == init + last && last[1..] == [];
    CountConcat(init, last);
  }

  /** Blocks before enough movements do not show. */
  lemma {:induction false} LatestOfEnd(before: seq<Block>, blocks: seq<Block>, left: nat)
    requires Count(blocks) >= left
    ensures Latest(before + blocks, left) == Latest(blocks, left)
    decreases |blocks|
  {
    if left > 0 {
      var init, b := blocks[..|blocks| - 1], blocks[|blocks| - 1];
      var k := Min(left, |b.moves|);
      CountLast(blocks);
      LatestOfEnd(before, init, left - k);
      assert before + blocks == before + init + [b];
      LatestStep(before + blocks, before + init, b, left, k);
      LatestStep(blocks, init, b, left, k);
    }
  }

  /** The end of the history shows what the whole history does. */
  lemma LatestOfShortest(history: seq<Block>, blocks: seq<Block>, size: nat)
    requires Shortest(history, blocks, size)
    ensures Latest(blocks, size) == Latest(history, size) && Newest(blocks) == Newest(history)
  {
    var start := |history| - |blocks|;
    assert history == history[..start] + blocks;
    if start > 0 {
      LatestOfEnd(history[..start], blocks, size);
    }
  }

  /** Trimming never changes `hello`: it is that of the whole history. */
  lemma HelloIsOfHistory(cfg: Config, h: Hub)
    requires Shortest(h.history, h.blocks, cfg.bufferMoves)
    ensures Hello(cfg, h).hello == Latest(h.history, cfg.bufferMoves) && Hello(cfg, h).id == Newest(h.history)
  {
    LatestOfShortest(h.history, h.blocks, cfg.bufferMoves);
  }

  // ----- tapes -----------------------------------------------------------------------------------

  /** `last` is the number of the history's block `k - 1`, or lies between it and the next. */
  ghost predicate EndsAt(history: seq<Block>, last: Option<nat>, k: nat) {
    && last.Some? && history != [] && last.value <= history[|history| - 1].n && k <= |history|
    && (k == 0 || history[k - 1].n <= last.value)
    && (k == |history| || history[k].n > last.value)
  }

  /** A tape is a stretch of its seed's history: whole blocks, in order, none missing and none repeated. */
  ghost predicate TapeOk(history: seq<Block>, v: Viewer) {
    var k := v.from + |v.tape|;
    && Stretch(history, v.from, v.tape)
    && (k == 0 || EndsAt(history, v.last, k))
  }

  /** `blocks` is the stretch of the history that starts at `from`. */
  ghost predicate Stretch(history: seq<Block>, from: nat, blocks: seq<Block>) {
    from + |blocks| <= |history| && forall i :: 0 <= i < |blocks| ==> blocks[i] == history[from + i]
  }

  /** An open stream is up to date. */
  ghost predicate ViewerOk(history: seq<Block>, epoch: int, v: Viewer) {
    && v.epoch <= epoch
    && (v.epoch == epoch ==> TapeOk(history, v))
    && (v.open ==> v.epoch == epoch && v.from + |v.tape| == |history|)
  }

  ghost predicate Buffered(cfg: Config, h: Hub) {
    && Increasing(h.history) && Shortest(h.history, h.blocks, cfg.bufferMoves)
    && TrimmedTo(h.history, h.blocks, h.floor, h.trimmedThrough)
  }

  ghost predicate Sound(cfg: Config, h: Hub) {
    && Buffered(cfg, h) && |Open(h)| <= cfg.maxStreams
    && forall s :: s in h.viewers ==> ViewerOk(h.history, h.epoch, h.viewers[s])
  }

  lemma {:induction false} ReceiveConcat(v: Viewer, a: seq<Frame>, b: seq<Frame>, epoch: int, at: nat)
    ensures ReceiveAll(v, a + b, epoch, at) == ReceiveAll(ReceiveAll(v, a, epoch, at), b, epoch, at)
    decreases |b|
  {
    if b == [] {
      assert a + b == a;
    } else {
      assert (a + b)[..|a + b| - 1] == a + b[..|b| - 1];
      ReceiveConcat(v, a, b[..|b| - 1], epoch, at);
    }
  }

  lemma ReceiveOne(v: Viewer, fs: seq<Frame>, f: Frame, epoch: int, at: nat)
    requires fs == [f]
    ensures ReceiveAll(v, fs, epoch, at) == Receive(v, f, epoch, at)
  {
    assert fs[..0] == [];
  }

  lemma {:induction false} ReceiveBlocks(v: Viewer, blocks: seq<Block>, epoch: int, at: nat)
    ensures ReceiveAll(v, BlockFrames(blocks), epoch, at) == Appended(v, blocks)
  {
    if blocks != [] {
      var init := blocks[..|blocks| - 1];
      ReceiveBlocks(v, init, epoch, at);
      assert BlockFrames(blocks)[..|blocks| - 1] == BlockFrames(init);
      assert v.tape + blocks == v.tape + init + [blocks[|blocks| - 1]];
    }
  }

  function Appended(v: Viewer, blocks: seq<Block>): Viewer {
    if blocks == [] then v else v.(tape := v.tape + blocks, last := Some(blocks[|blocks| - 1].n))
  }

  /** The next blocks of the history keep a tape whole. */
  lemma AppendedOk(history: seq<Block>, v: Viewer, blocks: seq<Block>)
    requires Increasing(history) && TapeOk(history, v) && Stretch(history, v.from + |v.tape|, blocks)
    ensures TapeOk(history, Appended(v, blocks))
  {
    var k := v.from + |v.tape| + |blocks|;
    if blocks != [] && k < |history| {
      InOrder(history, k - 1, k);
      InOrder(history, k - 1, |history| - 1);
    }
  }

  /** Later blocks do not change what is on a tape. */
  lemma TapeOkGrows(history: seq<Block>, blocks: seq<Block>, v: Viewer)
    requires Increasing(history + blocks) && TapeOk(history, v)
    ensures Increasing(history) && TapeOk(history + blocks, v)
  {
    var all := history + blocks;
    assert all[..|history|] == history;
    PrefixIncreases(all, |history|);
    if blocks != [] && history != [] {
      InOrder(all, |history| - 1, |history|);
      InOrder(all, |history| - 1, |all| - 1);
    }
  }

  // ----- every run -------------------------------------------------------------------------------

  datatype Event =
    | Reseeded(blocks: seq<Block>, releasedTo: int, refusing: set<nat>)
    | Subscribed(sink: nat, viewer: Viewer, budget: nat)
    | Published(blocks: seq<Block>, refusing: set<nat>)
    | StatsSent(stats: Stats, refusing: set<nat>)
    | Beat(refusing: set<nat>)
    | Left(sink: nat)
    | AllClosed

  function Step(cfg: Config, h: Hub, e: Event): Hub {
    match e
    case Reseeded(blocks, releasedTo, refusing) => Reseed(cfg, h, blocks, releasedTo, refusing)
    case Subscribed(sink, viewer, budget) => Subscribe(cfg, h, sink, viewer, budget)
    case Published(blocks, refusing) => PublishBlocks(cfg, h, blocks, refusing)
    case StatsSent(stats, refusing) => PublishStats(h, stats, refusing)
    case Beat(refusing) => Broadcast(h, [Heartbeat], refusing)
    case Left(sink) => Unsubscribe(h, sink)
    case AllClosed => CloseAll(h)
  }

  /** Any viewer: of an earlier seed, or with any whole tape of this one, up to date or not. */
  ghost predicate Arrives(h: Hub, v: Viewer) {
    v.epoch <= h.epoch && (v.epoch == h.epoch ==> TapeOk(h.history, v))
  }

  /**
   The tailer's block numbers only go up between seeds. A stream is new; its viewer brings whatever id it
   has from another server or an earlier seed, or a tape of this seed, of which it may have lost the end.
   */
  ghost predicate Legal(h: Hub, e: Event) {
    match e
    case Reseeded(blocks, _, _) => Increasing(blocks)
    case Published(blocks, _) => Increasing(h.history + blocks)
    case Subscribed(sink, viewer, _) => sink !in h.viewers && Arrives(h, viewer)
    case _ => true
  }

  lemma SeedBuffered(cfg: Config, h: Hub, blocks: seq<Block>, releasedTo: int)
    requires Increasing(blocks)
    ensures Buffered(cfg, Seed(cfg, h, blocks, releasedTo))
  {
    TrimIsShortest(blocks, blocks, if blocks == [] then releasedTo else blocks[0].n,
                   if blocks == [] then releasedTo else blocks[0].n, cfg.bufferMoves);
  }

  lemma PublishBuffered(cfg: Config, h: Hub, blocks: seq<Block>)
    requires Buffered(cfg, h) && Increasing(h.history + blocks)
    ensures var t := Trim(h.blocks + blocks, h.trimmedThrough, cfg.bufferMoves);
            Buffered(cfg, h.(blocks := t.0, trimmedThrough := t.1, history := h.history + blocks))
  {
    CountConcat(h.blocks, blocks);
    EndGrows(h.history, h.blocks, blocks);
    TrimIsShortest(h.history + blocks, h.blocks + blocks, h.floor, h.trimmedThrough, cfg.bufferMoves);
  }

  lemma EndGrows(history: seq<Block>, buffer: seq<Block>, blocks: seq<Block>)
    requires |buffer| <= |history| && history[|history| - |buffer|..] == buffer
    ensures (history + blocks)[|history + blocks| - |buffer + blocks|..] == buffer + blocks
    ensures |history + blocks| - |buffer + blocks| == |history| - |buffer|
  {
    assert history == history[..|history| - |buffer|] + buffer;
  }

  function ToldBlocks(v: Viewer, blocks: seq<Block>, refuses: bool): Viewer {
    if !v.open then v else if refuses then v.(open := false) else Appended(v, blocks)
  }

  /** A tape up to date stays so with every new block. */
  lemma UpToDateGoesOn(history: seq<Block>, blocks: seq<Block>, v: Viewer)
    requires TapeOk(history, v) && v.from + |v.tape| == |history|
    ensures var v' := Appended(v, blocks);
            TapeOk(history + blocks, v') && v'.from + |v'.tape| == |history + blocks|
  {
    assert blocks == [] ==> history + blocks == history;
  }

  /** A chunk that is the next of the history keeps every tape whole and every open stream up to date. */
  lemma ToldBlocksOk(history: seq<Block>, blocks: seq<Block>, epoch: int, v: Viewer, refuses: bool)
    requires Increasing(history + blocks) && ViewerOk(history, epoch, v)
    ensures ViewerOk(history + blocks, epoch, ToldBlocks(v, blocks, refuses))
  {
    if v.open && !refuses {
      UpToDateGoesOn(history, blocks, v);
    } else if v.epoch == epoch {
      TapeOkGrows(history, blocks, v);
    }
  }

  lemma ToldOk(history: seq<Block>, blocks: seq<Block>, epoch: int, v: Viewer, refuses: bool)
    requires Increasing(history + blocks) && ViewerOk(history, epoch, v)
    ensures ViewerOk(history + blocks, epoch, Told(v, BlockFrames(blocks), epoch, |history + blocks|, refuses))
  {
    ToldBlocksOk(history, blocks, epoch, v, refuses);
    ReceiveBlocks(v, blocks, epoch, |history + blocks|);
  }

  lemma OpenShrinks(h: Hub, chunk: seq<Frame>, refusing: set<nat>)
    ensures Open(Broadcast(h, chunk, refusing)) <= Open(h)
    ensures |Open(Broadcast(h, chunk, refusing))| <= |Open(h)|
  {
    forall s | s in Open(Broadcast(h, chunk, refusing))
      ensures s in Open(h)
    {
    }
    SubsetIsSmaller(Open(Broadcast(h, chunk, refusing)), Open(h));
  }

  lemma {:induction false} SubsetIsSmaller(a: set<nat>, b: set<nat>)
    requires a <= b
    ensures |a| <= |b|
  {
    if x :| x in a {
      SubsetIsSmaller(a - {x}, b - {x});
    }
  }

  lemma HelloStarts(history: seq<Block>, v: Viewer, f: Frame, epoch: int)
    requires f.HelloFrame? && f.id == Newest(history)
    ensures var v' := Receive(v, f, epoch, |history|);
            v'.epoch == epoch && v'.from + |v'.tape| == |history| && TapeOk(history, v')
  {
  }

  /** A hello starts every open tape anew, at the end of the history. */
  lemma GreetedOk(cfg: Config, h: Hub, v: Viewer, refuses: bool)
    requires Buffered(cfg, h) && v.epoch < h.epoch
    ensures ViewerOk(h.history, h.epoch, Told(v, [Hello(cfg, h)], h.epoch, |h.history|, refuses))
  {
    var f := Hello(cfg, h);
    ReceiveOne(v, [f], f, h.epoch, |h.history|);
    HelloStarts(h.history, v, f, h.epoch);
  }

  lemma ReseedSound(cfg: Config, h: Hub, blocks: seq<Block>, releasedTo: int, refusing: set<nat>)
    requires Sound(cfg, h) && Increasing(blocks)
    ensures Sound(cfg, Reseed(cfg, h, blocks, releasedTo, refusing))
  {
    var seeded := Seed(cfg, h, blocks, releasedTo);
    SeedBuffered(cfg, h, blocks, releasedTo);
    OpenShrinks(seeded, [Hello(cfg, seeded)], refusing);
    var h' := Reseed(cfg, h, blocks, releasedTo, refusing);
    forall s | s in h'.viewers
      ensures ViewerOk(h'.history, h'.epoch, h'.viewers[s])
    {
      GreetedOk(cfg, seeded, seeded.viewers[s], s in refusing);
    }
    assert Open(seeded) == Open(h);
  }

  lemma HistoryGrows(cfg: Config, h: Hub, blocks: seq<Block>, refusing: set<nat>)
    ensures PublishBlocks(cfg, h, blocks, refusing).history == h.history + blocks
  {
    assert h.history + [] == h.history;
  }

  lemma HistoryRestarts(cfg: Config, h: Hub, blocks: seq<Block>, releasedTo: int, refusing: set<nat>)
    ensures Reseed(cfg, h, blocks, releasedTo, refusing).history == blocks
  {
  }

  lemma PublishSound(cfg: Config, h: Hub, blocks: seq<Block>, refusing: set<nat>)
    requires Sound(cfg, h) && Increasing(h.history + blocks)
    ensures Sound(cfg, PublishBlocks(cfg, h, blocks, refusing))
  {
    if blocks != [] {
      var h' := PublishBlocks(cfg, h, blocks, refusing);
      PublishBuffered(cfg, h, blocks);
      var trimmed := Trim(h.blocks + blocks, h.trimmedThrough, cfg.bufferMoves);
      var h1 := h.(blocks := trimmed.0, trimmedThrough := trimmed.1, history := h.history + blocks);
      OpenShrinks(h1, BlockFrames(blocks), refusing);
      assert Open(h1) == Open(h);
      forall s | s in h'.viewers
        ensures ViewerOk(h'.history, h'.epoch, h'.viewers[s])
      {
        ToldOk(h.history, blocks, h.epoch, h.viewers[s], s in refusing);
      }
    }
  }

  /** Stats and heartbeats touch no tape. */
  lemma BesidesSound(cfg: Config, h: Hub, f: Frame, refusing: set<nat>)
    requires Sound(cfg, h) && (f.StatsFrame? || f.Heartbeat?)
    ensures Sound(cfg, Broadcast(h, [f], refusing))
  {
    OpenShrinks(h, [f], refusing);
    forall s | s in h.viewers
      ensures Told(h.viewers[s], [f], h.epoch, |h.history|, s in refusing)
           == if h.viewers[s].open && s in refusing then h.viewers[s].(open := false) else h.viewers[s]
    {
      ReceiveOne(h.viewers[s], [f], f, h.epoch, |h.history|);
    }
  }

  lemma ClosedSound(cfg: Config, h: Hub, sinks: set<nat>, h': Hub)
    requires Sound(cfg, h)
    requires h' == h.(viewers := map s | s in h.viewers :: if s in sinks then h.viewers[s].(open := false) else h.viewers[s])
    ensures Sound(cfg, h')
  {
    assert Open(h') <= Open(h);
    SubsetIsSmaller(Open(h'), Open(h));
  }

  // ----- a viewer arrives ------------------------------------------------------------------------

  lemma {:induction false} AfterConcat(a: seq<Block>, b: seq<Block>, n: int)
    ensures After(a + b, n) == After(a, n) + After(b, n)
    decreases |b|
  {
    if b == [] {
      assert a + b == a;
    } else {
      assert (a + b)[..|a + b| - 1] == a + b[..|b| - 1];
      AfterConcat(a, b[..|b| - 1], n);
    }
  }

  lemma {:induction false} AfterNone(a: seq<Block>, n: int)
    requires forall i :: 0 <= i < |a| ==> a[i].n <= n
    ensures After(a, n) == []
  {
    if a != [] { AfterNone(a[..|a| - 1], n); }
  }

  lemma ResumedIsUntrimmed(cfg: Config, h: Hub, last: nat)
    requires Buffered(cfg, h) && h.history != []
    ensures last >= h.trimmedThrough <==> last >= h.floor && |h.history| - |h.blocks| <= Pos(h.history, last)
  {
    PosSplits(h.history, last);
    var gone := |h.history| - |h.blocks|;
    if 0 < gone && Pos(h.history, last) < gone - 1 { InOrder(h.history, Pos(h.history, last), gone - 1); }
  }

  /** Resuming sends, from the buffer, exactly the history's blocks past the viewer's id. */
  lemma ResumeIsOfHistory(cfg: Config, h: Hub, last: nat)
    requires Buffered(cfg, h) && last >= h.trimmedThrough
    ensures After(h.blocks, last) == After(h.history, last)
  {
    var gone := h.history[..|h.history| - |h.blocks|];
    assert h.history == gone + h.blocks;
    AfterConcat(gone, h.blocks, last);
    forall i | 0 <= i < |gone|
      ensures gone[i].n <= last
    {
      if i < |gone| - 1 { InOrder(h.history, i, |gone| - 1); }
    }
    AfterNone(gone, last);
  }

  lemma ResumedEndsAt(cfg: Config, h: Hub, last: Option<nat>)
    requires Buffered(cfg, h) && Resumes(h, last)
    ensures EndsAt(h.history, last, Pos(h.history, last.value))
  {
    PosSplits(h.history, last.value);
    assert h.blocks[|h.blocks| - 1] == h.history[|h.history| - 1];
  }

  /** Where the id falls is where the tape goes on. */
  lemma RebasedOk(h: Hub, v: Viewer, k: nat)
    requires Arrives(h, v) && Resumes(h, v.last) && k == Pos(h.history, v.last.value) && EndsAt(h.history, v.last, k)
    ensures var v' := Rebased(h, v);
            v'.epoch == h.epoch && v'.last == v.last && TapeOk(h.history, v') && v'.from + |v'.tape| == k
  {
  }

  /** What a resumed viewer holds after `taken` chunks. */
  lemma TakenBlocks(v: Viewer, blocks: seq<Block>, stats: Option<Stats>, taken: nat, epoch: int, at: nat)
    requires 1 <= taken <= 1 + |blocks| + if stats.Some? then 1 else 0
    ensures var chunks := [Retry] + (BlockFrames(blocks) + if stats.Some? then [StatsFrame(stats.value)] else []);
            ReceiveAll(v, chunks[..taken], epoch, at) == Appended(v, blocks[..Min(taken - 1, |blocks|)])
  {
    var m := Min(taken - 1, |blocks|);
    var chunks := [Retry] + (BlockFrames(blocks) + if stats.Some? then [StatsFrame(stats.value)] else []);
    ReceiveOne(v, [Retry], Retry, epoch, at);
    ReceiveConcat(v, [Retry], BlockFrames(blocks[..m]), epoch, at);
    ReceiveBlocks(v, blocks[..m], epoch, at);
    if taken == m + 1 {
      assert chunks[..taken] == [Retry] + BlockFrames(blocks[..m]);
    } else {
      assert chunks[..taken][..taken - 1] == [Retry] + BlockFrames(blocks[..m]);
      assert chunks[..taken][taken - 1].StatsFrame?;
    }
  }

  /** A resumed viewer has been sent so many of the blocks past its id; all of them, if its stream stays open. */
  lemma ResumedMet(cfg: Config, h: Hub, v: Viewer, budget: nat) returns (m: nat)
    requires Resumes(h, v.last) && budget > 0
    ensures var rest, met := After(h.blocks, v.last.value), Met(cfg, h, v, budget);
            && m <= |rest| && (met.open ==> m == |rest|)
            && met == Appended(Rebased(h, v), rest[..m]).(open := met.open)
  {
    var rest, chunks := After(h.blocks, v.last.value), [Retry] + Greeting(cfg, h, v.last);
    var taken := Min(budget, |chunks|);
    TakenBlocks(Rebased(h, v), rest, h.stats, taken, h.epoch, |h.history|);
    m := Min(taken - 1, |rest|);
  }

  /** The same of the history: the next blocks, from where the viewer's id falls. */
  lemma ResumedOnHistory(cfg: Config, h: Hub, v: Viewer, budget: nat) returns (next: seq<Block>)
    requires Buffered(cfg, h) && Resumes(h, v.last) && budget > 0
    ensures var k, met := Pos(h.history, v.last.value), Met(cfg, h, v, budget);
            && Stretch(h.history, k, next) && (met.open ==> k + |next| == |h.history|)
            && met == Appended(Rebased(h, v), next).(open := met.open)
  {
    var m := ResumedMet(cfg, h, v, budget);
    ResumeIsOfHistory(cfg, h, v.last.value);
    NextOnHistory(h.history, v.last.value, m);
    next := After(h.history, v.last.value)[..m];
  }

  lemma NextOnHistory(history: seq<Block>, n: int, m: nat)
    requires Increasing(history) && m <= |After(history, n)|
    ensures Stretch(history, Pos(history, n), After(history, n)[..m])
    ensures m == |After(history, n)| ==> Pos(history, n) + m == |history|
  {
    AfterIsSlice(history, n);
  }

  lemma MetOk(history: seq<Block>, epoch: int, v: Viewer, next: seq<Block>, met: Viewer)
    requires Increasing(history) && TapeOk(history, v) && v.epoch == epoch && Stretch(history, v.from + |v.tape|, next)
    requires met == Appended(v, next).(open := met.open) && (met.open ==> v.from + |v.tape| + |next| == |history|)
    ensures ViewerOk(history, epoch, met)
  {
    AppendedOk(history, v, next);
  }

  lemma ResumedOk(cfg: Config, h: Hub, v: Viewer, budget: nat)
    requires Buffered(cfg, h) && Arrives(h, v) && Resumes(h, v.last)
    ensures ViewerOk(h.history, h.epoch, Met(cfg, h, v, budget))
  {
    if budget > 0 {
      var next := ResumedOnHistory(cfg, h, v, budget);
      ResumedEndsAt(cfg, h, v.last);
      RebasedOk(h, v, Pos(h.history, v.last.value));
      MetOk(h.history, h.epoch, Rebased(h, v), next, Met(cfg, h, v, budget));
    }
  }

  lemma HelloedMet(cfg: Config, h: Hub, v: Viewer, budget: nat)
    requires !Resumes(h, v.last)
    ensures Met(cfg, h, v, budget)
         == if budget < 2 then v.(open := false) else Receive(v, Hello(cfg, h), h.epoch, |h.history|).(open := true)
  {
    var retry, hello := [Retry], [Hello(cfg, h)];
    assert (retry + hello)[..1] == retry && (retry + hello)[..2] == retry + hello && (retry + hello)[..0] == [];
    ReceiveOne(v, retry, Retry, h.epoch, |h.history|);
    ReceiveOne(v, hello, Hello(cfg, h), h.epoch, |h.history|);
    ReceiveConcat(v, retry, hello, h.epoch, |h.history|);
  }

  lemma HelloedOk(cfg: Config, h: Hub, v: Viewer, budget: nat)
    requires Buffered(cfg, h) && Arrives(h, v) && !Resumes(h, v.last)
    ensures ViewerOk(h.history, h.epoch, Met(cfg, h, v, budget))
  {
    HelloedMet(cfg, h, v, budget);
    HelloStarts(h.history, v, Hello(cfg, h), h.epoch);
  }

  lemma SubscribeSound(cfg: Config, h: Hub, sink: nat, v: Viewer, budget: nat)
    requires Sound(cfg, h) && Legal(h, Subscribed(sink, v, budget))
    ensures Sound(cfg, Subscribe(cfg, h, sink, v, budget))
  {
    if |Open(h)| < cfg.maxStreams {
      var h' := Subscribe(cfg, h, sink, v, budget);
      if Resumes(h, v.last) {
        ResumedOk(cfg, h, v, budget);
      } else {
        HelloedOk(cfg, h, v, budget);
      }
      assert Open(h') <= Open(h) + {sink};
      SubsetIsSmaller(Open(h'), Open(h) + {sink});
    }
  }

  lemma StepSound(cfg: Config, h: Hub, e: Event)
    requires Sound(cfg, h) && Legal(h, e)
    ensures Sound(cfg, Step(cfg, h, e))
  {
    match e {
      case Reseeded(blocks, releasedTo, refusing) => ReseedSound(cfg, h, blocks, releasedTo, refusing);
      case Subscribed(sink, viewer, budget) => SubscribeSound(cfg, h, sink, viewer, budget);
      case Published(blocks, refusing) => PublishSound(cfg, h, blocks, refusing);
      case StatsSent(stats, refusing) => BesidesSound(cfg, h.(stats := Some(stats)), StatsFrame(stats), refusing);
      case Beat(refusing) => BesidesSound(cfg, h, Heartbeat, refusing);
      case Left(sink) => ClosedSound(cfg, h, {sink}, Unsubscribe(h, sink));
      case AllClosed => ClosedSound(cfg, h, h.viewers.Keys, CloseAll(h));
    }
  }

  ghost predicate LegalRun(cfg: Config, h: Hub, es: seq<Event>)
    decreases |es|
  {
    es == [] || (Legal(h, es[0]) && LegalRun(cfg, Step(cfg, h, es[0]), es[1..]))
  }

  function Run(cfg: Config, h: Hub, es: seq<Event>): Hub
    decreases |es|
  {
    if es == [] then h else Run(cfg, Step(cfg, h, es[0]), es[1..])
  }

  lemma {:induction false} SoundRun(cfg: Config, h: Hub, es: seq<Event>)
    requires Sound(cfg, h) && LegalRun(cfg, h, es)
    ensures Sound(cfg, Run(cfg, h, es))
    decreases |es|
  {
    if es != [] {
      StepSound(cfg, h, es[0]);
      SoundRun(cfg, Step(cfg, h, es[0]), es[1..]);
    }
  }

  /** Some run of the hub from its start ends in `h`. */
  ghost predicate Reached(cfg: Config, es: seq<Event>, h: Hub) {
    LegalRun(cfg, NewHub(), es) && h == Run(cfg, NewHub(), es)
  }

  lemma NewSound(cfg: Config, h: Hub)
    requires h == NewHub()
    ensures Sound(cfg, h)
  {
    assert Open(h) == {};
  }

  lemma ReachedSound(cfg: Config, es: seq<Event>, h: Hub)
    requires Reached(cfg, es, h)
    ensures Sound(cfg, h)
  {
    NewSound(cfg, NewHub());
    SoundRun(cfg, NewHub(), es);
  }

  /** Whatever happened, the buffer is the shortest whole-block end of the history, and `hello` does not show it. */
  lemma TrimmingDoesNotShow(cfg: Config, es: seq<Event>, h: Hub)
    requires Reached(cfg, es, h)
    ensures Shortest(h.history, h.blocks, cfg.bufferMoves)
    ensures Hello(cfg, h).hello == Latest(h.history, cfg.bufferMoves) && Hello(cfg, h).id == Newest(h.history)
    ensures Flat(Hello(cfg, h).hello) == End(Flat(h.history), cfg.bufferMoves)
  {
    ReachedSound(cfg, es, h);
    HelloIsOfHistory(cfg, h);
    LatestMovements(h.history, cfg.bufferMoves);
  }

  /**
   Over any run of seeds, publishes, refusals, drops and reconnects: every tape of the present seed is a
   stretch of its history, and every open stream's reaches the newest block; the streams stay within
   their limit.
   */
  lemma TapesAreWhole(cfg: Config, es: seq<Event>, h: Hub, sink: nat)
    requires Reached(cfg, es, h) && sink in h.viewers
    ensures |Open(h)| <= cfg.maxStreams
    ensures var v := h.viewers[sink];
            && (v.epoch == h.epoch ==> Stretch(h.history, v.from, v.tape))
            && (v.open ==> v.epoch == h.epoch && v.tape == h.history[v.from..])
  {
    ReachedSound(cfg, es, h);
  }

  lemma ResumesExactly(cfg: Config, h: Hub, last: Option<nat>)
    requires Buffered(cfg, h)
    ensures Resumes(h, last) <==>
              last.Some? && h.history != [] && h.floor <= last.value <= h.history[|h.history| - 1].n &&
              |After(h.history, last.value)| <= |h.blocks|
  {
    if last.Some? && h.history != [] {
      assert h.blocks[|h.blocks| - 1] == h.history[|h.history| - 1];
      AfterIsSlice(h.history, last.value);
      ResumedIsUntrimmed(cfg, h, last.value);
    }
  }

  /**
   Whoever arrives, with whatever id, is sent exactly the blocks past it, whole and in order, if the
   buffer still holds them all; else a hello of the whole history. It is resumed exactly when its id is
   from the seed's first block on, not past the newest, and no block after it has been trimmed.
   */
  lemma ResumeOrHello(cfg: Config, es: seq<Event>, h: Hub, last: Option<nat>)
    requires Reached(cfg, es, h)
    ensures Resumes(h, last) <==>
              last.Some? && h.history != [] && h.floor <= last.value <= h.history[|h.history| - 1].n &&
              |After(h.history, last.value)| <= |h.blocks|
    ensures Greeting(cfg, h, last) ==
              if Resumes(h, last) then
                BlockFrames(After(h.history, last.value)) + (if h.stats.Some? then [StatsFrame(h.stats.value)] else [])
              else [HelloFrame(Latest(h.history, cfg.bufferMoves), h.stats, Newest(h.history))]
  {
    ReachedSound(cfg, es, h);
    ResumesExactly(cfg, h, last);
    HelloIsOfHistory(cfg, h);
    if Resumes(h, last) { ResumeIsOfHistory(cfg, h, last.value); }
  }

  lemma ContinuesAt(cfg: Config, h: Hub, v: Viewer, budget: nat) returns (next: seq<Block>)
    requires Buffered(cfg, h) && v.epoch == h.epoch && TapeOk(h.history, v) && v.from + |v.tape| > 0
    requires Resumes(h, v.last) && Met(cfg, h, v, budget).open
    ensures Stretch(h.history, v.from + |v.tape|, next) && v.from + |v.tape| + |next| == |h.history|
    ensures Met(cfg, h, v, budget) == Appended(v, next).(open := true)
  {
    PosIs(h.history, v.last.value, v.from + |v.tape|);
    assert Rebased(h, v) == v;
    next := ResumedOnHistory(cfg, h, v, budget);
  }

  lemma StretchesJoin(history: seq<Block>, from: nat, tape: seq<Block>, next: seq<Block>)
    requires Stretch(history, from, tape) && Stretch(history, from + |tape|, next) && from + |tape| + |next| == |history|
    ensures tape + next == history[from..] && next == history[from + |tape|..]
  {
  }

  lemma ContinuedTape(cfg: Config, h: Hub, v: Viewer, budget: nat)
    requires Buffered(cfg, h) && v.epoch == h.epoch && TapeOk(h.history, v) && v.from + |v.tape| > 0
    requires Resumes(h, v.last) && Met(cfg, h, v, budget).open
    ensures var met := Met(cfg, h, v, budget);
            && met.from == v.from && met.tape == h.history[v.from..]
            && met.tape == v.tape + h.history[v.from + |v.tape|..]
  {
    var next := ContinuesAt(cfg, h, v, budget);
    StretchesJoin(h.history, v.from, v.tape, next);
  }

  /** A viewer of this seed who comes back, and is resumed in full, goes on where its tape ended: none missing, none repeated. */
  lemma ReconnectContinues(cfg: Config, es: seq<Event>, h: Hub, v: Viewer, budget: nat, met: Viewer)
    requires Reached(cfg, es, h)
    requires Arrives(h, v) && v.epoch == h.epoch && v.from + |v.tape| > 0
    requires Resumes(h, v.last) && met == Met(cfg, h, v, budget) && met.open
    ensures v.from + |v.tape| <= |h.history| && met.from == v.from
    ensures met.tape == h.history[v.from..] && met.tape == v.tape + h.history[v.from + |v.tape|..]
  {
    ReachedSound(cfg, es, h);
    ContinuedTape(cfg, h, v, budget);
  }

  // ----- what each event does to whom ------------------------------------------------------------

  /** What a broadcast leaves of a viewer: with its stream open, what it then holds, or a closed stream if it does not take it. */
  function Reaches(v: Viewer, after: Viewer, refuses: bool): Viewer {
    if !v.open then v else if refuses then v.(open := false) else after
  }

  /** New blocks reach every open stream that takes them, and close the others. */
  lemma PublishReaches(cfg: Config, h: Hub, blocks: seq<Block>, refusing: set<nat>, s: nat)
    requires blocks != [] && s in h.viewers
    ensures var h', v := Step(cfg, h, Published(blocks, refusing)), h.viewers[s];
            && h'.history == h.history + blocks && h'.epoch == h.epoch && h'.stats == h.stats
            && h'.viewers.Keys == h.viewers.Keys
            && h'.viewers[s] == Reaches(v, v.(tape := v.tape + blocks, last := Some(blocks[|blocks| - 1].n)), s in refusing)
  {
    ReceiveBlocks(h.viewers[s], blocks, h.epoch, |h.history + blocks|);
  }

  /** What a viewer greeted holds. */
  function Greeted(v: Viewer, epoch: int, history: seq<Block>, newest: Option<nat>): Viewer {
    v.(epoch := epoch, from := |history|, tape := [], last := if newest.None? then v.last else newest)
  }

  lemma ToldHello(cfg: Config, h: Hub, v: Viewer, refuses: bool)
    ensures Told(v, [Hello(cfg, h)], h.epoch, |h.history|, refuses) == Reaches(v, Greeted(v, h.epoch, h.history, Newest(h.blocks)), refuses)
  {
    ReceiveOne(v, [Hello(cfg, h)], Hello(cfg, h), h.epoch, |h.history|);
  }

  lemma SeededNewest(cfg: Config, h: Hub, blocks: seq<Block>, releasedTo: int)
    requires Increasing(blocks)
    ensures Newest(Seed(cfg, h, blocks, releasedTo).blocks) == if blocks == [] then None else Some(blocks[|blocks| - 1].n)
  {
    SeedBuffered(cfg, h, blocks, releasedTo);
    LatestOfShortest(blocks, Seed(cfg, h, blocks, releasedTo).blocks, cfg.bufferMoves);
  }

  /** A reload greets every open stream that takes it: its tape begins anew, at the end of the new history, under a new seed. */
  lemma ReseedReaches(cfg: Config, h: Hub, blocks: seq<Block>, releasedTo: int, refusing: set<nat>, s: nat)
    requires s in h.viewers && Increasing(blocks)
    ensures var h', v := Step(cfg, h, Reseeded(blocks, releasedTo, refusing)), h.viewers[s];
            && h'.history == blocks && h'.epoch == h.epoch + 1 && h'.stats == h.stats && h'.viewers.Keys == h.viewers.Keys
            && h'.floor == (if blocks == [] then releasedTo else blocks[0].n)
            && h'.viewers[s]
               == Reaches(v, Greeted(v, h.epoch + 1, blocks, if blocks == [] then None else Some(blocks[|blocks| - 1].n)), s in refusing)
  {
    SeededNewest(cfg, h, blocks, releasedTo);
    ToldHello(cfg, Seed(cfg, h, blocks, releasedTo), h.viewers[s], s in refusing);
  }

  /** Stats and heartbeats change no tape, and close the streams that do not take them. */
  lemma BesidesReach(cfg: Config, h: Hub, stats: Stats, refusing: set<nat>, s: nat)
    requires s in h.viewers
    ensures var h', v := Step(cfg, h, StatsSent(stats, refusing)), h.viewers[s];
            h'.viewers.Keys == h.viewers.Keys && h' == h.(stats := Some(stats), viewers := h'.viewers)
            && h'.viewers[s] == Reaches(v, v, s in refusing)
    ensures var h', v := Step(cfg, h, Beat(refusing)), h.viewers[s];
            h'.viewers.Keys == h.viewers.Keys && h' == h.(viewers := h'.viewers) && h'.viewers[s] == Reaches(v, v, s in refusing)
  {
    ReceiveOne(h.viewers[s], [StatsFrame(stats)], StatsFrame(stats), h.epoch, |h.history|);
    ReceiveOne(h.viewers[s], [Heartbeat], Heartbeat, h.epoch, |h.history|);
  }

  /** Who leaves is closed, and nobody else; a shutdown closes everyone. */
  lemma LeavingReaches(cfg: Config, h: Hub, sink: nat, s: nat)
    requires s in h.viewers
    ensures var h' := Step(cfg, h, Left(sink));
            h'.viewers.Keys == h.viewers.Keys && h' == h.(viewers := h'.viewers)
            && h'.viewers[s] == if s == sink then h.viewers[s].(open := false) else h.viewers[s]
    ensures var h' := Step(cfg, h, AllClosed);
            h'.viewers.Keys == h.viewers.Keys && h' == h.(viewers := h'.viewers) && h'.viewers[s] == h.viewers[s].(open := false)
  {
  }

  /**
   A new stream is open exactly where there was room for it and it took the retry interval and all of its
   greeting; refused, it leaves no trace. Nobody else notices.
   */
  lemma SubscribeOpens(cfg: Config, h: Hub, sink: nat, v: Viewer, budget: nat)
    requires sink !in h.viewers
    ensures var h' := Step(cfg, h, Subscribed(sink, v, budget));
            && (sink in h'.viewers <==> |Open(h)| < cfg.maxStreams)
            && (sink in h'.viewers && h'.viewers[sink].open <==> |Open(h)| < cfg.maxStreams && budget > |Greeting(cfg, h, v.last)|)
            && h' == h.(viewers := h'.viewers) && (forall s :: s in h'.viewers <==> s in h.viewers || (s == sink && sink in h'.viewers))
            && (forall s :: s in h.viewers ==> h'.viewers[s] == h.viewers[s])
  {
  }

  /** A stream that took the whole of a hello holds nothing yet, from the newest block on. */
  lemma HelloBegins(cfg: Config, h: Hub, v: Viewer, budget: nat)
    requires !Resumes(h, v.last) && budget >= 2
    ensures Met(cfg, h, v, budget) == Greeted(v, h.epoch, h.history, Newest(h.blocks)).(open := true)
  {
    HelloedMet(cfg, h, v, budget);
  }
}
