/**
 The Tailer class: its last released block and rolling window, updated in place, and the hub it feeds;
 each cycle proved to be the function of module Tailer.
 */
module LiveTailers {
  import opened Common
  import opened Tape
  import opened Release
  import H = Hub
  import W = Window
  import T = Tailer
  import opened LiveHubs
  import opened RollingWindows

  const SPAN_SEC := 60

  class LiveTailer {
    const hub: LiveHub
    const limits: T.Limits
    const spanSec: int
    var lastReleased: Option<int>
    var window: RollingWindow
    ghost var added: seq<Block>
    ghost var base: int
    ghost var tape: seq<Block>
    ghost var whole: bool

    constructor (hub: LiveHub, limits: T.Limits)
      requires hub.Valid() && hub.history == []
      ensures Valid() && View() == T.START && this.hub == hub && this.limits == limits && spanSec == SPAN_SEC && fresh(window)
    {
      this.hub, this.limits, spanSec := hub, limits, SPAN_SEC;
      lastReleased, added, base, tape, whole := None, [], 0, [], true;
      window := new RollingWindow(SPAN_SEC);
    }

    ghost function View(): T.Tailer
      reads this
    {
      T.Tailer(lastReleased, added, base, tape, whole)
    }

    /** The window has been given exactly the blocks counted, and the hub those of the tape. */
    ghost predicate Valid()
      reads this, hub, window
    {
      hub.Valid() && hub.history == tape && window.View() == W.AddAll(W.NewWindow(spanSec), added)
    }

    method Group(rows: seq<T.Row>) returns (blocks: seq<Block>)
      ensures blocks == T.Group(rows)
    {
      blocks := [];
      for i := 0 to |rows|
        invariant blocks == T.Group(rows[..i])
      {
        var r := rows[i];
        assert rows[..i + 1][..i] == rows[..i];
        if blocks == [] || blocks[|blocks| - 1].n != r.n {
          blocks := blocks + [Block(r.n, r.t, [r.move])];
        } else {
          var b := blocks[|blocks| - 1];
          blocks := blocks[|blocks| - 1 := b.(moves := b.moves + [r.move])];
        }
      }
      assert rows[..|rows|] == rows;
    }

    /** The blocks folded into the rolling minute, in order. */
    method Count(blocks: seq<Block>)
      requires window.View() == W.AddAll(W.NewWindow(spanSec), added)
      modifies window, this`added
      ensures window.View() == W.AddAll(W.NewWindow(spanSec), added) && added == old(added) + blocks
    {
      ghost var start := W.NewWindow(spanSec);
      for i := 0 to |blocks|
        invariant window.View() == W.AddAll(start, added) && added == old(added) + blocks[..i]
      {
        window.Add(blocks[i]);
        W.AddAllStep(start, added + [blocks[i]], added, blocks[i]);
        assert blocks[..i + 1] == blocks[..i] + [blocks[i]];
        added := added + [blocks[i]];
      }
    }

    /** `#reseed`; where its query throws, nothing has changed. */
    method Reseed(to: int, rows: Option<seq<T.Row>>, refusing: set<nat>) returns (ghost sent: T.Sent)
      requires Valid()
      modifies this, window, hub
      ensures Valid() && window == old(window)
      ensures (View(), sent) == T.Reseed(limits, old(View()), to, rows)
      ensures hub.View() == T.Feed(hub.cfg, old(hub.View()), sent, refusing)
    {
      if rows.None? { return T.Quiet; }
      var blocks := Group(rows.value);
      Count(blocks);
      H.HistoryRestarts(hub.cfg, hub.View(), blocks, to, refusing);
      hub.Reseed(blocks, to, refusing);
      assert hub.history == hub.View().history;
      lastReleased := Some(to);
      base, tape, whole, sent := to - T.CATCHUP, blocks, |rows.value| < limits.maxRows, T.Reseeded(blocks, to);
    }

    method Init(target: Option<Input>, rows: Option<seq<T.Row>>, refusing: set<nat>) returns (ghost sent: T.Sent)
      requires Valid()
      modifies this, window, hub
      ensures Valid() && window == old(window)
      ensures (View(), sent) == T.Init(limits, old(View()), target, rows)
      ensures hub.View() == T.Feed(hub.cfg, old(hub.View()), sent, refusing)
    {
      if target.None? { return T.Quiet; }
      var to := ReleaseTo(target.value);
      if to.None? || to.value < 0 { return T.Quiet; }
      sent := Reseed(to.value, rows, refusing);
    }

    method Publish(to: int, rows: Option<seq<T.Row>>, refusing: set<nat>) returns (ghost sent: T.Sent)
      requires Valid()
      modifies this, window, hub
      ensures Valid() && window == old(window)
      ensures (View(), sent) == T.Publish(limits, old(View()), to, rows)
      ensures hub.View() == T.Feed(hub.cfg, old(hub.View()), sent, refusing)
    {
      if rows.None? { return T.Quiet; }
      var blocks := Group(rows.value);
      Count(blocks);
      H.HistoryGrows(hub.cfg, hub.View(), blocks, refusing);
      hub.PublishBlocks(blocks, refusing);
      assert hub.history == hub.View().history;
      lastReleased := Some(to);
      tape, whole, sent := tape + blocks, whole && |rows.value| < limits.maxRows, T.Published(blocks);
    }

    /** The reload of a rewound tape: a new rolling minute, as at boot. */
    method Restart(again: Option<Input>, rows: Option<seq<T.Row>>, refusing: set<nat>) returns (ghost sent: T.Sent)
      requires Valid()
      modifies this, window, hub
      ensures Valid() && fresh(window)
      ensures (View(), sent) == T.Init(limits, old(View()).(window := [], lastReleased := None), again, rows)
      ensures hub.View() == T.Feed(hub.cfg, old(hub.View()), sent, refusing)
    {
      window := new RollingWindow(spanSec);
      lastReleased, added := None, [];
      sent := Init(again, rows, refusing);
    }

    method Cycle(r: T.Reading, refusing: set<nat>) returns (ghost sent: T.Sent)
      requires Valid()
      modifies this, window, hub
      ensures Valid() && (window == old(window) || fresh(window))
      ensures (View(), sent) == T.Cycle(limits, old(View()), r)
      ensures hub.View() == T.Feed(hub.cfg, old(hub.View()), sent, refusing)
    {
      if lastReleased.None? {
        sent := Init(r.target, r.rows, refusing);
        return;
      }
      if r.target.None? { return T.Quiet; }
      var to, cursor := ReleaseTo(r.target.value), r.target.value.cursor;
      if to.None? { return T.Quiet; }
      if cursor.Some? && cursor.value < lastReleased.value - limits.maxGap {
        sent := Restart(r.again, r.rows, refusing);
      } else if to.value <= lastReleased.value {
        sent := T.Quiet;
      } else if to.value - lastReleased.value > limits.maxGap {
        sent := Reseed(to.value, r.rows, refusing);
      } else {
        sent := Publish(to.value, r.rows, refusing);
      }
    }
  }
}
