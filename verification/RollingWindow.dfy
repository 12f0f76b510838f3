/** The RollingWindow class: its movements and times, updated in place, each method a function of module Window. */
module RollingWindows {
  import opened Common
  import opened Tape
  import W = Window

  class RollingWindow {
    const spanSec: int
    var moves: seq<W.Held>
    var newest: int
    var first: Option<int>
    var head: Option<int>

    constructor (spanSec: int)
      ensures View() == W.NewWindow(spanSec) && this.spanSec == spanSec
    {
      this.spanSec := spanSec;
      moves, newest, first, head := [], 0, None, None;
    }

    function View(): W.Window
      reads this
    {
      W.Window(spanSec, moves, newest, first, head)
    }

    method Add(b: Block)
      modifies this
      ensures View() == W.Add(old(View()), b)
    {
      for i := 0 to |b.moves|
        invariant moves == old(moves) + W.Tagged(b)[..i]
        invariant newest == old(newest) && first == old(first) && head == old(head)
      {
        moves := moves + [W.Held(b.moves[i], b.n, b.t)];
      }
      newest := Max(newest, b.t);
      if b.moves != [] { head := Some(Max(if head.Some? then head.value else 0, b.t)); }
      if first.None? { first := Some(b.t); }
      var floor := newest - spanSec;
      var drop := 0;
      assert moves == old(moves) + W.Tagged(b) && moves[0..] == moves;
      while drop < |moves| && moves[drop].t <= floor
        invariant 0 <= drop <= |moves| && W.DropOld(moves, floor) == W.DropOld(moves[drop..], floor)
      {
        assert moves[drop..][1..] == moves[drop + 1..];
        drop := drop + 1;
      }
      moves := moves[drop..];
    }

    /** One pass over the movements: the sum, the lanes and each transaction's biggest. */
    method Tallied() returns (sum: nat, lanes: map<string, nat>, perTx: seq<W.Held>)
      ensures sum == W.Sum(moves) && lanes == W.Lanes(moves) && perTx == W.PerTx(moves)
    {
      sum, lanes, perTx := 0, map[], [];
      for i := 0 to |moves|
        invariant sum == W.Sum(moves[..i]) && lanes == W.Lanes(moves[..i]) && perTx == W.PerTx(moves[..i])
      {
        var m := moves[i];
        W.Turn(moves, i);
        sum := sum + m.move.value;
        if W.HasLane(m) {
          var lane := m.move.lane.value;
          lanes := lanes[lane := (if lane in lanes then lanes[lane] else 0) + 1];
        }
        var best := W.IndexOf(perTx, m.move.tx);
        if best.None? {
          perTx := perTx + [m];
        } else if m.move.value > perTx[best.value].move.value {
          perTx := perTx[best.value := m];
        }
      }
      assert moves[..|moves|] == moves;
    }

    /** Only reads. */
    method Stats(now: int) returns (stats: Stats)
      ensures stats == W.StatsOf(View(), now)
    {
      var sum, lanes, perTx := Tallied();
      var largest := W.Listed(W.Top(W.Sorted(perTx)));
      var seen := if first.None? then 1 else newest - first.value;
      var span := Max(1, Min(spanSec, seen));
      W.StatsFrom(View(), now, sum, lanes, perTx, span);
      stats := Tape.Stats(|moves|, sum, W.Rate(|moves|, span), lanes, largest, head, now);
    }
  }
}
