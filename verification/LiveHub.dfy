/**
 The Hub class: its buffer, its open streams and its cached hello, updated in place, each method proved
 to be the function of module Hub. What a stream does with a chunk is the caller's: `refusing` names the
 streams that do not take a broadcast, `budget` is how many chunks a new stream takes.
 */
module LiveHubs {
  import opened Common
  import opened Tape
  import H = Hub

  class LiveHub {
    const cfg: H.Config
    var blocks: seq<Block>
    var stats: Option<Stats>
    var sinks: set<nat>
    var trimmedThrough: int
    var hello: Option<H.Frame>
    ghost var viewers: map<nat, H.Viewer>
    ghost var history: seq<Block>
    ghost var floor: int
    ghost var epoch: int

    constructor (cfg: H.Config)
      ensures Valid() && View() == H.NewHub() && this.cfg == cfg
    {
      this.cfg := cfg;
      blocks, stats, sinks, trimmedThrough, hello := [], None, {}, -1, None;
      viewers, history, floor, epoch := map[], [], -1, 0;
    }

    ghost function View(): H.Hub
      reads this
    {
      H.Hub(blocks, stats, trimmedThrough, viewers, history, floor, epoch)
    }

    ghost predicate Valid()
      reads this
    {
      sinks == H.Open(View()) && (hello.Some? ==> hello.value == H.Hello(cfg, View()))
    }

    /** The latest movements, oldest block first. */
    method Hello() returns (out: seq<Block>)
      ensures out == H.Latest(blocks, cfg.bufferMoves)
    {
      out := [];
      var left: nat := cfg.bufferMoves;
      var i := |blocks|;
      assert blocks[..i] == blocks && H.Latest(blocks, left) + [] == H.Latest(blocks, left);
      while i > 0 && left > 0
        invariant 0 <= i <= |blocks|
        invariant H.Latest(blocks, cfg.bufferMoves) == H.Latest(blocks[..i], left) + out
      {
        i := i - 1;
        var b := blocks[i];
        var moves := b.moves[Max(0, |b.moves| - left)..];
        ghost var rest := H.Latest(blocks[..i], left - Min(left, |b.moves|));
        H.LatestStep(blocks[..i + 1], blocks[..i], b, left, Min(left, |b.moves|));
        assert rest + [b.(moves := moves)] + out == rest + ([b.(moves := moves)] + out);
        left := left - |moves|;
        out := [b.(moves := moves)] + out;
      }
    }

    method HelloFrame() returns (f: H.Frame)
      requires hello.Some? ==> hello.value == H.Hello(cfg, View())
      modifies this`hello
      ensures f == H.Hello(cfg, View()) && hello == Some(f)
    {
      if hello.None? {
        var latest := Hello();
        hello := Some(H.HelloFrame(latest, stats, H.Newest(blocks)));
      }
      f := hello.value;
    }

    /** `#trim`. */
    method Trim()
      modifies this`blocks, this`trimmedThrough
      ensures (blocks, trimmedThrough) == H.Trim(old(blocks), old(trimmedThrough), cfg.bufferMoves)
    {
      var moves, i := 0, |blocks|;
      while i > 0
        invariant 0 <= i <= |blocks| && moves == H.Count(blocks[i..])
      {
        i := i - 1;
        moves := moves + |blocks[i].moves|;
        assert blocks[i..][1..] == blocks[i + 1..];
      }
      assert blocks[0..] == blocks;
      while |blocks| > 1 && moves - |blocks[0].moves| >= cfg.bufferMoves
        invariant moves == H.Count(blocks)
        invariant H.Trim(blocks, trimmedThrough, cfg.bufferMoves) == H.Trim(old(blocks), old(trimmedThrough), cfg.bufferMoves)
        decreases |blocks|
      {
        var b := blocks[0];
        blocks := blocks[1..];
        moves := moves - |b.moves|;
        trimmedThrough := Max(trimmedThrough, b.n);
      }
    }

    /** `#broadcast`: a stream that does not take the chunk is dropped. */
    method Broadcast(chunk: seq<H.Frame>, refusing: set<nat>)
      requires Valid()
      modifies this`sinks, this`viewers
      ensures Valid() && View() == H.Broadcast(old(View()), chunk, refusing)
    {
      var todo := sinks;
      while todo != {}
        invariant todo <= old(sinks) && viewers.Keys == old(viewers.Keys)
        invariant forall s :: s in viewers ==>
                    viewers[s] == if s in todo then old(viewers[s])
                                  else H.Told(old(viewers[s]), chunk, epoch, |history|, s in refusing)
        invariant sinks == set s | s in old(sinks) && (s in todo || s !in refusing)
        decreases |todo|
      {
        var s :| s in todo;
        todo := todo - {s};
        if s in refusing {
          sinks := sinks - {s};
          viewers := viewers[s := viewers[s].(open := false)];
        } else {
          viewers := viewers[s := H.ReceiveAll(viewers[s], chunk, epoch, |history|)];
        }
      }
      StaysOpen(chunk, refusing);
      assert viewers == H.Broadcast(old(View()), chunk, refusing).viewers;
    }

    /** No frame closes a stream. */
    lemma StaysOpen(chunk: seq<H.Frame>, refusing: set<nat>)
      ensures forall v: H.Viewer :: H.ReceiveAll(v, chunk, epoch, |history|).open == v.open
    {
      forall v: H.Viewer
        ensures H.ReceiveAll(v, chunk, epoch, |history|).open == v.open
      {
        KeepsOpen(v, chunk);
      }
    }

    lemma {:induction false} KeepsOpen(v: H.Viewer, chunk: seq<H.Frame>)
      ensures H.ReceiveAll(v, chunk, epoch, |history|).open == v.open
    {
      if chunk != [] { KeepsOpen(v, chunk[..|chunk| - 1]); }
    }

    method Seed(blocks: seq<Block>, releasedTo: int)
      requires Valid()
      modifies this
      ensures Valid() && View() == H.Seed(cfg, old(View()), blocks, releasedTo)
    {
      this.blocks := blocks;
      trimmedThrough := if blocks == [] then releasedTo else blocks[0].n;
      history, floor, epoch := blocks, trimmedThrough, epoch + 1;
      Trim();
      hello := None;
    }

    method Reseed(blocks: seq<Block>, releasedTo: int, refusing: set<nat>)
      requires Valid()
      modifies this
      ensures Valid() && View() == H.Reseed(cfg, old(View()), blocks, releasedTo, refusing)
    {
      Seed(blocks, releasedTo);
      var f := HelloFrame();
      Broadcast([f], refusing);
    }

    method PublishBlocks(blocks: seq<Block>, refusing: set<nat>)
      requires Valid()
      modifies this
      ensures Valid() && View() == H.PublishBlocks(cfg, old(View()), blocks, refusing)
    {
      if blocks == [] { return; }
      this.blocks := this.blocks + blocks;
      history := history + blocks;
      Trim();
      hello := None;
      Broadcast(H.BlockFrames(blocks), refusing);
    }

    method PublishStats(s: Stats, refusing: set<nat>)
      requires Valid()
      modifies this
      ensures Valid() && View() == H.PublishStats(old(View()), s, refusing)
    {
      stats, hello := Some(s), None;
      Broadcast([H.StatsFrame(s)], refusing);
    }

    method Heartbeat(refusing: set<nat>)
      requires Valid()
      modifies this
      ensures Valid() && View() == H.Broadcast(old(View()), [H.Heartbeat], refusing)
    {
      Broadcast([H.Heartbeat], refusing);
    }

    method Unsubscribe(sink: nat)
      requires Valid()
      modifies this`sinks, this`viewers
      ensures Valid() && View() == H.Unsubscribe(old(View()), sink)
    {
      sinks := sinks - {sink};
      if sink in viewers { viewers := viewers[sink := viewers[sink].(open := false)]; }
    }

    method CloseAll()
      requires Valid()
      modifies this`sinks, this`viewers
      ensures Valid() && View() == H.CloseAll(old(View())) && sinks == {}
    {
      var todo := sinks;
      while todo != {}
        invariant todo == sinks <= old(sinks) && viewers.Keys == old(viewers.Keys)
        invariant forall s :: s in viewers ==>
                    viewers[s] == if s in todo then old(viewers[s]) else old(viewers[s]).(open := false)
        decreases |todo|
      {
        var s :| s in todo;
        todo := todo - {s};
        sinks := sinks - {s};
        viewers := viewers[s := viewers[s].(open := false)];
      }
      assert viewers == H.CloseAll(old(View())).viewers;
    }

    /** `subscribe`: null, here false, when refused or when the stream failed at once. `taken` is what the stream took. */
    method Subscribe(sink: nat, ghost v: H.Viewer, last: Option<nat>, budget: nat) returns (ok: bool, ghost taken: seq<H.Frame>)
      requires Valid() && sink !in viewers && last == v.last
      modifies this
      ensures Valid() && View() == H.Subscribe(cfg, old(View()), sink, v, budget)
      ensures ok <==> sink in sinks
      ensures taken == if |H.Open(old(View()))| >= cfg.maxStreams then []
                       else End([H.Retry] + H.Greeting(cfg, old(View()), last), budget)
    {
      if |sinks| >= cfg.maxStreams { return false, []; }
      ok, taken := Admit(sink, v, last, budget);
    }

    /** A new stream, added before it is greeted and dropped at the first chunk it does not take. */
    method Admit(sink: nat, ghost v: H.Viewer, last: Option<nat>, budget: nat) returns (ok: bool, ghost taken: seq<H.Frame>)
      requires Valid() && sink !in viewers && last == v.last
      modifies this
      ensures Valid() && View() == old(View()).(viewers := old(viewers)[sink := H.Met(cfg, old(View()), v, budget)])
      ensures ok <==> sink in sinks
      ensures taken == End([H.Retry] + H.Greeting(cfg, old(View()), last), budget)
    {
      sinks := sinks + {sink};
      ok, taken := Greet(last, budget);
      if !ok { sinks := sinks - {sink}; }
      ghost var met := H.ReceiveAll(if budget > 0 then H.Rebased(View(), v) else v, taken, epoch, |history|).(open := ok);
      H.MetOfTaken(cfg, View(), v, budget, taken, ok);
      H.OpenWith(View(), sink, met);
      viewers := viewers[sink := met];
    }

    /** What a new stream is sent, one chunk after the other, until it does not take one. */
    method Greet(last: Option<nat>, budget: nat) returns (ok: bool, ghost taken: seq<H.Frame>)
      requires hello.Some? ==> hello.value == H.Hello(cfg, View())
      modifies this`hello
      ensures hello.Some? ==> hello.value == H.Hello(cfg, View())
      ensures var chunks := [H.Retry] + H.Greeting(cfg, View(), last);
              taken == End(chunks, budget) && (ok <==> budget >= |chunks|)
    {
      if budget == 0 { return false, []; }
      if last.Some? && blocks != [] && last.value >= trimmedThrough && last.value <= blocks[|blocks| - 1].n {
        ok, taken := Resume(last.value, budget);
      } else {
        var f := HelloFrame();
        ok := 1 < budget;
        taken := if ok then [H.Retry, f] else [H.Retry];
      }
    }

    /** The first `budget` chunks, or all there are. */
    ghost function End(chunks: seq<H.Frame>, budget: nat): seq<H.Frame> {
      chunks[..Min(budget, |chunks|)]
    }

    /** The blocks past `last`, then the stats: whether the stream took them all. */
    method Resume(last: nat, budget: nat) returns (ok: bool, ghost taken: seq<H.Frame>)
      requires budget > 0
      ensures var chunks := [H.Retry] + (H.BlockFrames(After(blocks, last)) + if stats.Some? then [H.StatsFrame(stats.value)] else []);
              taken == End(chunks, budget) && (ok <==> budget >= |chunks|)
    {
      var sent := 1;
      ok, taken := true, [H.Retry];
      for i := 0 to |blocks|
        invariant sent == |taken| <= budget
        invariant taken == End([H.Retry] + H.BlockFrames(After(blocks[..i], last)), budget)
        invariant ok <==> budget >= 1 + |After(blocks[..i], last)|
      {
        assert blocks[..i + 1][..i] == blocks[..i];
        if ok && blocks[i].n > last {
          ok := sent < budget;
          if ok {
            sent, taken := sent + 1, taken + [H.BlockFrame(blocks[i])];
          }
        }
      }
      assert blocks[..|blocks|] == blocks;
      if ok && stats.Some? {
        ok := sent < budget;
        if ok { taken := taken + [H.StatsFrame(stats.value)]; }
      }
    }
  }
}
