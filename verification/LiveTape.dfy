/**
 The tailer (packages/explorer/lib/tailer.ts) and the hub (packages/explorer/lib/hub.ts) on one run: between
 cycles, which feed the hub, viewers come, fall silent, are dropped and come back.
 */
module LiveTape {
  import opened Common
  import opened Tape
  import H = Hub
  import T = Tailer

  datatype State = State(tailer: T.Tailer, hub: H.Hub)

  datatype Event = Cycled(reading: T.Reading, refusing: set<nat>) | OfHub(event: H.Event)

  /** The hub is fed by cycles alone; the rest is viewers, stats and heartbeats. */
  ghost predicate Possible(l: T.Limits, chain: seq<Block>, s: State, e: Event) {
    match e
    case Cycled(reading, _) => T.Honest(l, chain, s.tailer, reading)
    case OfHub(event) => !event.Reseeded? && !event.Published? && H.Legal(s.hub, event)
  }

  function Step(l: T.Limits, cfg: H.Config, s: State, e: Event): State {
    match e
    case Cycled(reading, refusing) =>
      var (tailer, sent) := T.Cycle(l, s.tailer, reading);
      State(tailer, T.Feed(cfg, s.hub, sent, refusing))
    case OfHub(event) => s.(hub := H.Step(cfg, s.hub, event))
  }

  ghost predicate Legal(l: T.Limits, cfg: H.Config, chain: seq<Block>, s: State, es: seq<Event>)
    decreases |es|
  {
    es == [] || (Possible(l, chain, s, es[0]) && Legal(l, cfg, chain, Step(l, cfg, s, es[0]), es[1..]))
  }

  function Run(l: T.Limits, cfg: H.Config, s: State, es: seq<Event>): State
    decreases |es|
  {
    if es == [] then s else Run(l, cfg, Step(l, cfg, s, es[0]), es[1..])
  }

  ghost predicate Sound(cfg: H.Config, chain: seq<Block>, s: State) {
    T.Sound(chain, s.tailer) && H.Sound(cfg, s.hub) && s.hub.history == s.tailer.tape
  }

  /** Viewers, stats and heartbeats leave the history alone. */
  lemma HistoryStays(cfg: H.Config, h: H.Hub, e: H.Event)
    requires !e.Reseeded? && !e.Published?
    ensures H.Step(cfg, h, e).history == h.history
  {
  }

  lemma StepSound(l: T.Limits, cfg: H.Config, chain: seq<Block>, s: State, e: Event)
    requires T.ValidLimits(l) && T.ValidChain(chain) && Sound(cfg, chain, s) && Possible(l, chain, s, e)
    ensures Sound(cfg, chain, Step(l, cfg, s, e))
  {
    match e {
      case Cycled(reading, refusing) =>
        T.CycleSound(l, chain, s.tailer, reading);
        T.HubIsFed(l, chain, s.tailer, reading, cfg, s.hub, refusing);
      case OfHub(event) =>
        H.StepSound(cfg, s.hub, event);
        HistoryStays(cfg, s.hub, event);
    }
  }

  lemma {:induction false} SoundRun(l: T.Limits, cfg: H.Config, chain: seq<Block>, s: State, es: seq<Event>)
    requires T.ValidLimits(l) && T.ValidChain(chain) && Sound(cfg, chain, s) && Legal(l, cfg, chain, s, es)
    ensures Sound(cfg, chain, Run(l, cfg, s, es))
    decreases |es|
  {
    if es != [] {
      StepSound(l, cfg, chain, s, es[0]);
      SoundRun(l, cfg, chain, Step(l, cfg, s, es[0]), es[1..]);
    }
  }

  function Start(): State {
    State(T.START, H.NewHub())
  }

  lemma StartSound(cfg: H.Config, chain: seq<Block>, s: State)
    requires s == Start()
    ensures Sound(cfg, chain, s)
  {
    H.NewSound(cfg, s.hub);
  }

  /** A cycle is the tailer's and what the hub does of what it sent; anything else is the hub's alone. */
  lemma {:induction false} EventsAct(l: T.Limits, cfg: H.Config, s: State, es: seq<Event>, e: Event)
    ensures var was, now := Run(l, cfg, s, es), Run(l, cfg, s, es + [e]);
            && (e.Cycled? ==>
                  && now.tailer == T.Cycle(l, was.tailer, e.reading).0
                  && now.hub == T.Feed(cfg, was.hub, T.Cycle(l, was.tailer, e.reading).1, e.refusing))
            && (e.OfHub? ==> now.tailer == was.tailer && now.hub == H.Step(cfg, was.hub, e.event))
    decreases |es|
  {
    if es == [] {
      assert [e][1..] == [];
      assert [] + [e] == [e];
    } else {
      assert (es + [e])[1..] == es[1..] + [e];
      EventsAct(l, cfg, Step(l, cfg, s, es[0]), es[1..], e);
    }
  }

  // ----- what a viewer has of the chain ----------------------------------------------------------

  /** The number after which the blocks from position `from` on come. */
  function After(tape: seq<Block>, base: int, from: nat): int
    requires from <= |tape|
  {
    if from == 0 then base else tape[from - 1].n
  }

  lemma {:induction false} BetweenNothing(chain: seq<Block>, at: int)
    ensures T.Between(chain, at, at) == []
  {
    if chain != [] { BetweenNothing(chain[..|chain| - 1], at); }
  }

  lemma AtJoin(before: seq<Block>, rest: seq<Block>, i: nat)
    requires i < |before + rest|
    ensures i < |before| ==> (before + rest)[i] in before
    ensures i >= |before| ==> (before + rest)[i] in rest
  {
    if i < |before| { assert before[i] in before; } else { assert rest[i - |before|] in rest; }
  }

  /** Two lists that join to one, in order, are cut where their numbers say. */
  lemma CutAt(all: seq<Block>, before: seq<Block>, rest: seq<Block>, k: nat)
    requires Increasing(all) && before + rest == all && 0 < k <= |all|
    requires forall b :: b in before ==> b.n <= all[k - 1].n
    requires forall b :: b in rest ==> b.n > all[k - 1].n
    ensures before == all[..k] && rest == all[k..]
  {
    AtJoin(before, rest, k - 1);
    if k < |all| {
      AtJoin(before, rest, k);
      InOrder(all, k - 1, k);
    }
  }

  /** A range of the chain, cut at one of its blocks. */
  lemma BetweenCut(chain: seq<Block>, base: int, last: int, all: seq<Block>, k: nat)
    requires Increasing(chain) && base <= last && all == T.Between(chain, base, last) && k <= |all|
    ensures base <= After(all, base, k) <= last
    ensures T.Between(chain, base, After(all, base, k)) == all[..k]
    ensures T.Between(chain, After(all, base, k), last) == all[k..]
  {
    T.BetweenMembers(chain, base, last);
    if k == 0 {
      BetweenNothing(chain, base);
    } else {
      var mid := After(all, base, k);
      assert all[k - 1] in all;
      T.BetweenIncreases(chain, base, last);
      T.BetweenJoins(chain, base, mid, last);
      T.BetweenMembers(chain, base, mid);
      T.BetweenMembers(chain, mid, last);
      CutAt(all, T.Between(chain, base, mid), T.Between(chain, mid, last), k);
    }
  }

  lemma AfterPrefix(all: seq<Block>, base: int, i: nat, j: nat)
    requires i <= j <= |all|
    ensures After(all[..j], base, i) == After(all, base, i) && all[..j][i..] == all[i..j]
  {
  }

  /** A stretch of the range is the chain between its ends. */
  lemma BetweenStretch(chain: seq<Block>, base: int, last: int, all: seq<Block>, i: nat, j: nat, lo: int, hi: int)
    requires Increasing(chain) && base <= last && all == T.Between(chain, base, last) && i <= j <= |all|
    requires lo == After(all, base, i) && hi == After(all, base, j)
    ensures T.Between(chain, lo, hi) == all[i..j]
  {
    BetweenCut(chain, base, last, all, j);
    AfterPrefix(all, base, i, j);
    BetweenCut(chain, base, hi, all[..j], i);
  }

  /** Lanes do not number blocks. */
  lemma BareAfter(tape: seq<Block>, base: int, from: nat)
    requires from <= |tape|
    ensures After(T.BareBlocks(tape), base, from) == After(tape, base, from)
  {
  }

  lemma StretchIsChain(chain: seq<Block>, t: T.Tailer, v: H.Viewer)
    requires Increasing(chain) && T.Sound(chain, t) && t.lastReleased.Some? && t.whole && H.Stretch(t.tape, v.from, v.tape)
    ensures T.BareBlocks(v.tape)
         == T.Between(chain, After(t.tape, t.base, v.from), After(t.tape, t.base, v.from + |v.tape|))
  {
    var last, k := t.lastReleased.value, v.from + |v.tape|;
    BareAfter(t.tape, t.base, v.from);
    BareAfter(t.tape, t.base, k);
    BetweenStretch(chain, t.base, last, T.BareBlocks(t.tape), v.from, k, After(t.tape, t.base, v.from), After(t.tape, t.base, k));
    assert T.BareBlocks(v.tape) == T.BareBlocks(t.tape)[v.from..k];
  }

  lemma RestIsChain(chain: seq<Block>, t: T.Tailer, v: H.Viewer)
    requires Increasing(chain) && T.Sound(chain, t) && t.lastReleased.Some? && t.whole
    requires v.from <= |t.tape| && v.tape == t.tape[v.from..]
    ensures T.BareBlocks(v.tape) == T.Between(chain, After(t.tape, t.base, v.from), t.lastReleased.value)
  {
    BetweenCut(chain, t.base, t.lastReleased.value, T.BareBlocks(t.tape), v.from);
    BareAfter(t.tape, t.base, v.from);
    assert T.BareBlocks(v.tape) == T.BareBlocks(t.tape)[v.from..];
  }

  /**
   A viewer's tape is what the tailer published, from where it began, and an open one's goes on to the
   newest block; below the row limit, and lanes aside, it is the chain's blocks between its ends, an open
   one's up to the last released.
   */
  ghost predicate HasTheChain(chain: seq<Block>, t: T.Tailer, v: H.Viewer) {
    && H.Stretch(t.tape, v.from, v.tape) && (v.open ==> v.tape == t.tape[v.from..])
    && (t.lastReleased.Some? && t.whole ==>
          && T.BareBlocks(v.tape) == T.Between(chain, After(t.tape, t.base, v.from), After(t.tape, t.base, v.from + |v.tape|))
          && (v.open ==> T.BareBlocks(v.tape) == T.Between(chain, After(t.tape, t.base, v.from), t.lastReleased.value)))
  }

  lemma WholeViewer(chain: seq<Block>, t: T.Tailer, v: H.Viewer)
    requires Increasing(chain) && T.Sound(chain, t)
    requires H.Stretch(t.tape, v.from, v.tape) && (v.open ==> v.tape == t.tape[v.from..])
    ensures HasTheChain(chain, t, v)
  {
    if t.lastReleased.Some? && t.whole {
      StretchIsChain(chain, t, v);
      if v.open { RestIsChain(chain, t, v); }
    }
  }

  /**
   Over any run of cycles (quiet, failing, skipping ahead, rewinding) with viewers coming, refusing,
   dropping and coming back between them: every viewer of the present load has the chain, and every open
   viewer is of the present load.
   */
  lemma ViewersHaveTheChain(l: T.Limits, cfg: H.Config, chain: seq<Block>, es: seq<Event>, s: State, sink: nat)
    requires T.ValidLimits(l) && T.ValidChain(chain) && Legal(l, cfg, chain, Start(), es) && s == Run(l, cfg, Start(), es)
    requires sink in s.hub.viewers
    ensures s.hub.viewers[sink].open ==> s.hub.viewers[sink].epoch == s.hub.epoch
    ensures s.hub.viewers[sink].epoch == s.hub.epoch ==> HasTheChain(chain, s.tailer, s.hub.viewers[sink])
  {
    StartSound(cfg, chain, Start());
    SoundRun(l, cfg, chain, Start(), es);
    var v := s.hub.viewers[sink];
    assert H.ViewerOk(s.hub.history, s.hub.epoch, v);
    if v.epoch == s.hub.epoch { WholeViewer(chain, s.tailer, v); }
  }
}
