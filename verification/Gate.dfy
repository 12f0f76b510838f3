/**
 The operator's ReconcileGate (packages/operator/src/gate.ts): which watch events cost a reconcile,
 with at most one reconcile per Indexer at a time.

 JavaScript runs each callback to its end, so the protocol is a state machine over callbacks: a watch
 event, a resync, a timer firing, a run reaching its first reconcile (after `await null`), a reconcile
 settling, and close. Indexers only share the closed flag and the id supply, so the functions below
 describe one Indexer's share of the gate's maps; the class holds the maps themselves.
 */
module Gate {
  import opened Common

  datatype Phase = ADDED | MODIFIED | DELETED | BOOKMARK | ERROR

  datatype ReconcileResult = Ok | Waiting | Failure

  /** The watched object: its metadata, and the rest of it as `spec`. */
  datatype Indexer = Indexer(uid: Option<string>, namespace: Option<string>, name: Option<string>,
                             generation: Option<nat>, spec: string)

  const WAIT_RETRY_START_MS: nat := 5000
  const WAIT_RETRY_MAX_MS: nat := 60000

  /** A live `#drain`: its promise, the object it reconciles now or next, and whether it has begun. */
  datatype Drain = Drain(id: nat, obj: Indexer, started: bool)

  /**
   One Indexer's share of the gate. `drains` and `timers` are what the JavaScript runtime holds: the
   drain coroutines alive and the timeouts set, with their delays. The other fields are the six maps;
   `recorded` tells an entry holding undefined, Some(None), from no entry, None.
   */
  datatype KeyState = KeyState(
    recorded: Option<Option<nat>>,
    running: Option<nat>,
    pending: Option<Indexer>,
    latest: Option<Indexer>,
    retry: Option<nat>,
    retryDelay: Option<nat>,
    drains: set<Drain>,
    timers: map<nat, nat>)

  const UNKNOWN := KeyState(None, None, None, None, None, None, {}, map[])

  /** `keyOf`, with the empty key that both callers treat as none. */
  function KeyOf(cr: Indexer): Option<string> {
    var key := if cr.uid.Some? then cr.uid.value
               else if cr.name.Some? && cr.name.value != "" then
                 (if cr.namespace.Some? then cr.namespace.value else "") + "/" + cr.name.value
               else "";
    if key == "" then None else Some(key)
  }

  /** An Indexer is known by its uid; without one by namespace and name; one with neither is not kept. */
  lemma KeyIs(cr: Indexer, uid: string, name: string)
    requires cr.uid == Some(uid) || (cr.uid.None? && cr.name == Some(name)) || (cr.uid.None? && cr.name.None?)
    ensures cr.uid.Some? ==> KeyOf(cr) == (if uid == "" then None else Some(uid))
    ensures cr.uid.None? && cr.name.Some? && name != "" ==>
              KeyOf(cr) == Some((if cr.namespace.Some? then cr.namespace.value else "") + "/" + name)
    ensures cr.uid.None? && (cr.name.None? || name == "") ==> KeyOf(cr) == None
  {
  }

  /** `Map.get` on the generation map: no entry and an entry of undefined read alike. */
  function RecordedGen(s: KeyState): Option<nat> {
    if s.recorded.Some? then s.recorded.value else None
  }

  predicate Stale(s: KeyState, cr: Indexer) {
    cr.generation.Some? && RecordedGen(s).Some? && cr.generation.value < RecordedGen(s).value
  }

  /** Whether `cr` may take the place of the object held in `slot`. */
  predicate Supersedes(cr: Indexer, slot: Option<Indexer>) {
    slot.None? || slot.value.generation.None? || cr.generation.None? ||
    cr.generation.value >= slot.value.generation.value
  }

  function Remember(s: KeyState, cr: Indexer): KeyState {
    if Supersedes(cr, s.latest) then s.(latest := Some(cr)) else s
  }

  function ClearRetry(s: KeyState): KeyState {
    s.(retry := None, retryDelay := None,
       timers := if s.retry.Some? then s.timers - {s.retry.value} else s.timers)
  }

  function RetryLater(s: KeyState, closed: bool, id: nat): KeyState {
    if closed || s.latest.None? then s
    else
      var delay := if s.retryDelay.Some? then s.retryDelay.value else WAIT_RETRY_START_MS;
      s.(retryDelay := Some(Min(delay * 2, WAIT_RETRY_MAX_MS)), timers := s.timers[id := delay], retry := Some(id))
  }

  function Schedule(s: KeyState, cr: Indexer, isRetry: bool, id: nat): KeyState {
    if Stale(s, cr) then s
    else
      var s1 := (if isRetry then s else ClearRetry(s)).(recorded := Some(cr.generation));
      if s1.running.Some? then
        if Supersedes(cr, s1.pending) then s1.(pending := Some(cr)) else s1
      else
        s1.(running := Some(id), drains := s1.drains + {Drain(id, cr, false)})
  }

  predicate Skipped(s: KeyState, cr: Indexer, phase: Phase) {
    phase == MODIFIED && s.recorded == Some(cr.generation)
  }

  function Watch(s: KeyState, cr: Indexer, phase: Phase, id: nat): KeyState {
    match phase
    case DELETED => ClearRetry(s.(recorded := None, pending := None, latest := None))
    case BOOKMARK => s
    case ERROR => s
    case _ =>
      var s1 := Remember(s, cr);
      if Skipped(s1, cr, phase) then s1 else Schedule(s1, cr, false, id)
  }

  function Resync(s: KeyState, cr: Indexer, id: nat): KeyState {
    Schedule(Remember(s, cr), cr, false, id)
  }

  function TimerFires(s: KeyState, timer: nat, id: nat): KeyState {
    var s1 := s.(timers := s.timers - {timer}, retry := None);
    if s1.latest.Some? then Schedule(s1, s1.latest.value, true, id) else s1
  }

  function Starts(s: KeyState, d: Drain): KeyState {
    s.(drains := s.drains - {d} + {d.(started := true)})
  }

  /** A failed reconcile forgets its generation, if it is still the recorded one. */
  function Forget(s: KeyState, d: Drain, result: ReconcileResult): KeyState {
    if result == Failure && RecordedGen(s) == d.obj.generation then s.(recorded := None) else s
  }

  function Ends(s: KeyState, d: Drain, result: ReconcileResult, closed: bool, id: nat): KeyState {
    var s1 := Forget(s, d, result);
    if s1.pending.Some? then
      s1.(pending := None, drains := s1.drains - {d} + {d.(obj := s1.pending.value)})
    else
      var s2 := s1.(drains := s1.drains - {d}, running := if s1.running == Some(d.id) then None else s1.running);
      match result
      case Waiting => RetryLater(s2, closed, id)
      case Ok => ClearRetry(s2)
      case Failure => s2
  }

  // ----- runs of the gate, for one Indexer -------------------------------------------------------

  datatype Event =
    | OnWatch(cr: Indexer, phase: Phase)
    | OnResync(cr: Indexer)
    | OnTimer(timer: nat)
    | OnStart(drain: Drain)
    | OnEnd(drain: Drain, result: ReconcileResult)
    | OnClose

  /**
   What an observer sees. A start is `guarded` when the recorded generation is at least the started
   object's: a stale object can then no longer pass the check in `#schedule`.
   */
  datatype Action =
    | Accepted(gen: Option<nat>)
    | Deleted
    | Failed
    | Started(gen: Option<nat>, guarded: bool)

  datatype System = System(key: KeyState, closed: bool, next: nat, log: seq<Action>)

  const FRESH := System(UNKNOWN, false, 0, [])

  predicate Enabled(g: System, e: Event) {
    match e
    case OnTimer(t) => t in g.key.timers
    case OnStart(d) => d in g.key.drains && !d.started
    case OnEnd(d, _) => d in g.key.drains && d.started
    case _ => true
  }

  predicate Guarded(s: KeyState, cr: Indexer) {
    RecordedGen(s).Some? && cr.generation.Some? && RecordedGen(s).value >= cr.generation.value
  }

  /** What one callback adds to the log; `s` is the state the callback finds. */
  function ActionsOf(s: KeyState, e: Event): seq<Action> {
    match e
    case OnWatch(cr, DELETED) => [Deleted]
    case OnWatch(cr, phase) =>
      if phase.BOOKMARK? || phase.ERROR? || Skipped(s, cr, phase) || Stale(s, cr) then [] else [Accepted(cr.generation)]
    case OnResync(cr) => if Stale(s, cr) then [] else [Accepted(cr.generation)]
    case OnStart(d) => [Started(d.obj.generation, Guarded(s, d.obj))]
    case OnEnd(d, result) =>
      (if result == Failure then [Failed] else []) +
      (if s.pending.Some? then [Started(s.pending.value.generation, Guarded(Forget(s, d, result), s.pending.value))] else [])
    case _ => []
  }

  function NextKey(s: KeyState, e: Event, closed: bool, id: nat): KeyState {
    match e
    case OnWatch(cr, phase) => Watch(s, cr, phase, id)
    case OnResync(cr) => Resync(s, cr, id)
    case OnTimer(t) => TimerFires(s, t, id)
    case OnStart(d) => Starts(s, d)
    case OnEnd(d, result) => Ends(s, d, result, closed, id)
    case OnClose => if s.retry.Some? then ClearRetry(s) else s
  }

  function Step(g: System, e: Event): System
    requires Enabled(g, e)
  {
    System(NextKey(g.key, e, g.closed, g.next), g.closed || e.OnClose?, g.next + 1, g.log + ActionsOf(g.key, e))
  }

  ghost predicate Legal(g: System, es: seq<Event>)
    decreases |es|
  {
    es == [] || (Enabled(g, es[0]) && Legal(Step(g, es[0]), es[1..]))
  }

  ghost function Run(g: System, es: seq<Event>): System
    requires Legal(g, es)
    decreases |es|
  {
    if es == [] then g else Run(Step(g, es[0]), es[1..])
  }

  // ----- one run and one timer at a time ---------------------------------------------------------

  /** At most one drain is alive, and it is the one `running` names. */
  ghost predicate OneRun(s: KeyState) {
    && (s.running.None? ==> s.drains == {} && s.pending.None?)
    && (s.running.Some? ==> exists d :: s.drains == {d} && d.id == s.running.value)
  }

  /** At most one timeout is set, the one `retry` names, and never during a run or after close. */
  ghost predicate OneTimer(s: KeyState, closed: bool) {
    && (s.retry.None? ==> s.timers == map[])
    && (s.retry.Some? ==> s.running.None? && !closed && s.latest.Some?)
    && (s.retry.Some? ==> s.retry.value in s.timers && s.timers == map[s.retry.value := s.timers[s.retry.value]])
  }

  /** Delays stay between 5 s and a minute. */
  ghost predicate InBounds(s: KeyState) {
    && (s.retryDelay.Some? ==> WAIT_RETRY_START_MS <= s.retryDelay.value <= WAIT_RETRY_MAX_MS)
    && (forall t :: t in s.timers ==> WAIT_RETRY_START_MS <= s.timers[t] <= WAIT_RETRY_MAX_MS)
  }

  ghost predicate Exclusive(g: System) {
    OneRun(g.key) && OneTimer(g.key, g.closed) && InBounds(g.key)
  }

  lemma ClearRetryLeavesNoTimer(s: KeyState, closed: bool)
    requires OneTimer(s, closed)
    ensures ClearRetry(s).timers == map[]
  {
  }

  lemma ScheduleExclusive(s: KeyState, cr: Indexer, isRetry: bool, closed: bool, id: nat)
    requires OneRun(s) && OneTimer(s, closed)
    requires isRetry ==> s.retry.None?
    ensures OneRun(Schedule(s, cr, isRetry, id)) && OneTimer(Schedule(s, cr, isRetry, id), closed)
  {
    ClearRetryLeavesNoTimer(s, closed);
    if s.running.None? {
      assert {} + {Drain(id, cr, false)} == {Drain(id, cr, false)};
    }
  }

  lemma EndsExclusive(s: KeyState, d: Drain, result: ReconcileResult, closed: bool, id: nat)
    requires OneRun(s) && OneTimer(s, closed) && d in s.drains
    ensures OneRun(Ends(s, d, result, closed, id)) && OneTimer(Ends(s, d, result, closed, id), closed)
  {
    assert s.drains == {d};
    assert s.drains - {d} == {};
    if s.pending.Some? {
      assert {} + {d.(obj := s.pending.value)} == {d.(obj := s.pending.value)};
    }
  }

  lemma TimerExclusive(s: KeyState, timer: nat, closed: bool, id: nat)
    requires OneRun(s) && OneTimer(s, closed) && timer in s.timers
    ensures OneRun(TimerFires(s, timer, id)) && OneTimer(TimerFires(s, timer, id), closed)
  {
    var s1 := s.(timers := s.timers - {timer}, retry := None);
    assert s1.timers == map[];
    ScheduleExclusive(s1, s.latest.value, true, closed, id);
  }

  lemma ScheduleInBounds(s: KeyState, cr: Indexer, isRetry: bool, id: nat)
    requires InBounds(s)
    ensures InBounds(Schedule(s, cr, isRetry, id))
  {
    assert InBounds(ClearRetry(s));
  }

  lemma InBoundsStep(s: KeyState, e: Event, closed: bool, id: nat)
    requires InBounds(s)
    ensures InBounds(NextKey(s, e, closed, id))
  {
    match e {
      case OnWatch(cr, phase) => ScheduleInBounds(Remember(s, cr), cr, false, id);
      case OnResync(cr) => ScheduleInBounds(Remember(s, cr), cr, false, id);
      case OnTimer(t) =>
        if s.latest.Some? {
          ScheduleInBounds(s.(timers := s.timers - {t}, retry := None), s.latest.value, true, id);
        }
      case OnStart(d) =>
      case OnEnd(d, result) => assert InBounds(Forget(s, d, result));
      case OnClose =>
    }
  }

  lemma ExclusiveStep(g: System, e: Event)
    requires Exclusive(g) && Enabled(g, e)
    ensures Exclusive(Step(g, e))
  {
    InBoundsStep(g.key, e, g.closed, g.next);
    match e {
      case OnWatch(cr, phase) =>
        if phase.ADDED? || phase.MODIFIED? {
          ScheduleExclusive(Remember(g.key, cr), cr, false, g.closed, g.next);
        }
      case OnResync(cr) => ScheduleExclusive(Remember(g.key, cr), cr, false, g.closed, g.next);
      case OnTimer(t) => TimerExclusive(g.key, t, g.closed, g.next);
      case OnStart(d) =>
        assert g.key.drains == {d};
        assert Starts(g.key, d).drains == {d.(started := true)};
      case OnEnd(d, result) => EndsExclusive(g.key, d, result, g.closed, g.next);
      case OnClose =>
    }
  }

  // ----- every accepted event is served ----------------------------------------------------------

  ghost predicate Carries(cr: Indexer) {
    cr.generation.Some?
  }

  /** The event's object, if it has one, carries a generation. */
  ghost predicate CarriesGeneration(e: Event) {
    (e.OnWatch? || e.OnResync?) ==> Carries(e.cr)
  }

  ghost predicate AllCarryGenerations(es: seq<Event>) {
    forall i :: 0 <= i < |es| ==> CarriesGeneration(es[i])
  }

  /** Every object and generation the gate holds is known, and they are in order. */
  ghost predicate Ordered(s: KeyState) {
    && (s.recorded.Some? ==> s.recorded.value.Some? && s.latest.Some? && s.latest.value.generation.Some? &&
                             s.recorded.value.value <= s.latest.value.generation.value)
    && (s.latest.Some? ==> Carries(s.latest.value))
    && (s.pending.Some? ==> Carries(s.pending.value) && s.recorded == Some(s.pending.value.generation))
    && (forall d :: d in s.drains ==> Carries(d.obj))
  }

  lemma ScheduleOrdered(s: KeyState, cr: Indexer, isRetry: bool, id: nat)
    requires Ordered(s) && OneRun(s) && Carries(cr)
    requires s.latest.Some? && cr.generation.value <= s.latest.value.generation.value
    ensures Ordered(Schedule(s, cr, isRetry, id))
  {
  }

  lemma OrderedStep(s: KeyState, e: Event, closed: bool, id: nat)
    requires Ordered(s) && CarriesGeneration(e) && OneRun(s) && (e.OnEnd? ==> e.drain in s.drains)
    requires e.OnStart? ==> e.drain in s.drains
    ensures Ordered(NextKey(s, e, closed, id))
  {
    match e {
      case OnWatch(cr, phase) => ScheduleOrdered(Remember(s, cr), cr, false, id);
      case OnResync(cr) => ScheduleOrdered(Remember(s, cr), cr, false, id);
      case OnTimer(t) =>
        if s.latest.Some? {
          ScheduleOrdered(s.(timers := s.timers - {t}, retry := None), s.latest.value, true, id);
        }
      case OnStart(d) =>
      case OnEnd(d, result) =>
      case OnClose =>
    }
  }

  predicate Reaches(gen: Option<nat>, atLeast: Option<nat>) {
    gen.Some? && atLeast.Some? && gen.value >= atLeast.value
  }

  /** Whether one of these actions deletes the Indexer or starts a reconcile of generation `gen` or later. */
  ghost predicate Settled(acts: seq<Action>, gen: Option<nat>) {
    exists k :: 0 <= k < |acts| && (acts[k].Deleted? || (acts[k].Started? && Reaches(acts[k].gen, gen)))
  }

  /** Accepted, not deleted since, and no later start has reached its generation. */
  ghost predicate Owed(log: seq<Action>, i: nat) {
    i < |log| && log[i].Accepted? && !Settled(log[i + 1..], log[i].gen)
  }

  /** A run that has not begun, or the queued rerun, will reconcile at least generation `gen`. */
  ghost predicate Covered(s: KeyState, gen: Option<nat>) {
    || (exists d :: d in s.drains && !d.started && Reaches(d.obj.generation, gen))
    || (s.pending.Some? && Reaches(s.pending.value.generation, gen))
  }

  ghost predicate AllServed(g: System) {
    && (forall i :: 0 <= i < |g.log| && g.log[i].Accepted? ==> g.log[i].gen.Some?)
    && (forall i: nat :: Owed(g.log, i) ==> Covered(g.key, g.log[i].gen))
  }

  lemma SettledConcat(a: seq<Action>, b: seq<Action>, gen: Option<nat>)
    ensures Settled(a + b, gen) <==> Settled(a, gen) || Settled(b, gen)
  {
    if k :| 0 <= k < |b| && (b[k].Deleted? || (b[k].Started? && Reaches(b[k].gen, gen))) {
      assert (a + b)[|a| + k] == b[k];
    }
    if k :| 0 <= k < |a| && (a[k].Deleted? || (a[k].Started? && Reaches(a[k].gen, gen))) {
      assert (a + b)[k] == a[k];
    }
  }

  lemma OwedBefore(log: seq<Action>, more: seq<Action>, i: nat)
    requires Owed(log + more, i) && i < |log|
    ensures Owed(log, i) && !Settled(more, log[i].gen)
  {
    assert (log + more)[i + 1..] == log[i + 1..] + more;
    SettledConcat(log[i + 1..], more, log[i].gen);
  }

  lemma ScheduleCovers(s: KeyState, cr: Indexer, isRetry: bool, id: nat, gen: Option<nat>)
    requires Ordered(s) && OneRun(s) && Carries(cr)
    ensures Covered(s, gen) ==> Covered(Schedule(s, cr, isRetry, id), gen)
    ensures !Stale(s, cr) && Reaches(cr.generation, gen) ==> Covered(Schedule(s, cr, isRetry, id), gen)
  {
    var s' := Schedule(s, cr, isRetry, id);
    if s.running.None? && !Stale(s, cr) {
      assert Drain(id, cr, false) in s'.drains;
    } else if Covered(s, gen) && !Stale(s, cr) {
      assert s'.drains == s.drains && s'.pending == Some(cr);
    }
  }

  /** What was covered stays covered, unless this callback starts it or deletes it. */
  lemma CoveredStep(s: KeyState, e: Event, closed: bool, id: nat, gen: Option<nat>)
    requires Ordered(s) && CarriesGeneration(e) && OneRun(s) && Covered(s, gen)
    requires (e.OnEnd? ==> e.drain in s.drains && e.drain.started) && (e.OnStart? ==> e.drain in s.drains)
    ensures Covered(NextKey(s, e, closed, id), gen) || Settled(ActionsOf(s, e), gen)
  {
    var acts := ActionsOf(s, e);
    match e {
      case OnWatch(cr, phase) =>
        if phase.DELETED? { assert acts[0].Deleted?; }
        ScheduleCovers(Remember(s, cr), cr, false, id, gen);
      case OnResync(cr) => ScheduleCovers(Remember(s, cr), cr, false, id, gen);
      case OnTimer(t) =>
        if s.latest.Some? {
          ScheduleCovers(s.(timers := s.timers - {t}, retry := None), s.latest.value, true, id, gen);
        }
      case OnStart(d) => assert acts[0].Started?;
      case OnEnd(d, result) =>
        if s.pending.Some? {
          assert acts[|acts| - 1].Started?;
        }
      case OnClose =>
    }
  }

  lemma AllServedStep(g: System, e: Event)
    requires Exclusive(g) && Ordered(g.key) && AllServed(g) && Enabled(g, e) && CarriesGeneration(e)
    ensures AllServed(Step(g, e))
  {
    var acts, g' := ActionsOf(g.key, e), Step(g, e);
    forall i: nat | Owed(g'.log, i)
      ensures Covered(g'.key, g'.log[i].gen)
    {
      if i < |g.log| {
        OwedBefore(g.log, acts, i);
        CoveredStep(g.key, e, g.closed, g.next, g.log[i].gen);
      } else {
        assert g'.log[i] == acts[i - |g.log|];
        ScheduleCovers(Remember(g.key, e.cr), e.cr, false, g.next, e.cr.generation);
      }
    }
  }

  /** Everything known of the gate when every watched object carries a generation. */
  ghost predicate Sound(g: System) {
    Exclusive(g) && Ordered(g.key) && AllServed(g)
  }

  lemma {:induction false} SoundRun(g: System, es: seq<Event>)
    requires Sound(g) && Legal(g, es) && AllCarryGenerations(es)
    ensures Sound(Run(g, es))
    decreases |es|
  {
    if es != [] {
      assert CarriesGeneration(es[0]);
      ExclusiveStep(g, es[0]);
      OrderedStep(g.key, es[0], g.closed, g.next);
      AllServedStep(g, es[0]);
      assert forall i :: 0 <= i < |es[1..]| ==> es[1..][i] == es[i + 1];
      SoundRun(Step(g, es[0]), es[1..]);
    }
  }

  /**
   No event is lost: after any callbacks, an accepted event that was neither deleted nor followed by
   the start of a reconcile of at least its generation is about to be: by the run that has not begun,
   or by the queued rerun. In particular none is outstanding once no run is registered.
   */
  lemma EveryAcceptedEventIsServed(es: seq<Event>, i: nat)
    requires Legal(FRESH, es) && AllCarryGenerations(es)
    requires Owed(Run(FRESH, es).log, i)
    ensures Covered(Run(FRESH, es).key, Run(FRESH, es).log[i].gen)
    ensures Run(FRESH, es).key.running.Some?
  {
    SoundRun(FRESH, es);
  }

  /**
   And a callback that makes progress serves it: the end of a reconcile always does, by the rerun it
   starts; a start does, or leaves it to the rerun queued.
   */
  lemma ProgressServes(es: seq<Event>, i: nat, e: Event)
    requires Legal(FRESH, es) && AllCarryGenerations(es)
    requires Owed(Run(FRESH, es).log, i)
    requires Enabled(Run(FRESH, es), e) && (e.OnEnd? || e.OnStart?)
    ensures var g := Run(FRESH, es);
            && (e.OnEnd? ==> !Owed(Step(g, e).log, i))
            && (e.OnStart? && Owed(Step(g, e).log, i) ==>
                  g.key.pending.Some? && Reaches(g.key.pending.value.generation, g.log[i].gen))
  {
    var g := Run(FRESH, es);
    SoundRun(FRESH, es);
    var acts := ActionsOf(g.key, e);
    assert g.key.drains == {e.drain};
    if Owed(Step(g, e).log, i) {
      OwedBefore(g.log, acts, i);
      assert acts != [] && acts[|acts| - 1].Started?;
    }
  }

  // ----- reconciled generations ------------------------------------------------------------------

  ghost predicate Uninterrupted(log: seq<Action>, from: nat, to: nat) {
    forall k :: from < k < to && k < |log| ==> !log[k].Deleted? && !log[k].Failed?
  }

  /** A guarded start is not followed by an older one, until a failure or a delete. */
  ghost predicate NeverDown(log: seq<Action>) {
    forall i, j :: 0 <= i < j < |log| && log[i].Started? && log[i].guarded && log[j].Started? && Uninterrupted(log, i, j)
      ==> Reaches(log[j].gen, log[i].gen)
  }

  ghost predicate Floor(log: seq<Action>, i: nat) {
    i < |log| && log[i].Started? && log[i].guarded && Uninterrupted(log, i, |log|)
  }

  /** Nothing the gate would still reconcile is older than a guarded start. */
  ghost predicate Above(s: KeyState, gen: Option<nat>) {
    && s.recorded.Some? && Reaches(s.recorded.value, gen)
    && (forall d :: d in s.drains && !d.started ==> Reaches(d.obj.generation, gen))
  }

  ghost predicate Monotone(g: System) {
    NeverDown(g.log) && forall i: nat :: Floor(g.log, i) ==> Above(g.key, g.log[i].gen)
  }

  lemma OrderOfReconciles(s: KeyState, e: Event, closed: bool, id: nat, gen: Option<nat>)
    requires Ordered(s) && CarriesGeneration(e) && OneRun(s) && Above(s, gen)
    requires (e.OnEnd? ==> e.drain in s.drains && e.drain.started) && (e.OnStart? ==> e.drain in s.drains && !e.drain.started)
    requires !(e.OnWatch? && e.phase.DELETED?) && !(e.OnEnd? && e.result.Failure?)
    ensures Above(NextKey(s, e, closed, id), gen)
    ensures forall a :: a in ActionsOf(s, e) && a.Started? ==> Reaches(a.gen, gen)
  {
  }

  /** A start that is guarded leaves nothing older to reconcile. */
  lemma GuardedStartIsAFloor(s: KeyState, e: Event, closed: bool, id: nat, a: Action)
    requires Ordered(s) && OneRun(s) && (e.OnEnd? || e.OnStart?) && e.drain in s.drains
    requires e.OnEnd? ==> e.drain.started
    requires a in ActionsOf(s, e) && a.Started? && a.guarded
    ensures Above(NextKey(s, e, closed, id), a.gen)
  {
    assert s.drains == {e.drain};
  }

  lemma FloorBefore(log: seq<Action>, acts: seq<Action>, i: nat, k: nat)
    requires i < |log| && k <= |acts| && Uninterrupted(log + acts, i, |log| + k)
    requires log[i].Started? && log[i].guarded
    ensures Floor(log, i)
    ensures 0 < k ==> !acts[0].Deleted? && !acts[0].Failed?
  {
    assert forall m :: 0 <= m < |log| ==> (log + acts)[m] == log[m];
    assert 0 < k ==> (log + acts)[|log|] == acts[0];
  }

  lemma FloorsStep(g: System, e: Event)
    requires Exclusive(g) && Ordered(g.key) && Monotone(g) && Enabled(g, e) && CarriesGeneration(e)
    ensures forall i: nat :: Floor(Step(g, e).log, i) ==> Above(Step(g, e).key, Step(g, e).log[i].gen)
  {
    var acts, log' := ActionsOf(g.key, e), Step(g, e).log;
    forall i: nat | Floor(log', i)
      ensures Above(Step(g, e).key, log'[i].gen)
    {
      if i < |g.log| {
        FloorBefore(g.log, acts, i, |acts|);
        OrderOfReconciles(g.key, e, g.closed, g.next, g.log[i].gen);
      } else {
        assert log'[i] == acts[i - |g.log|];
        GuardedStartIsAFloor(g.key, e, g.closed, g.next, log'[i]);
      }
    }
  }

  /** The last action of a callback is the only start it can log, and a failure comes first. */
  lemma StartComesLast(s: KeyState, e: Event, k: nat)
    requires k < |ActionsOf(s, e)| && ActionsOf(s, e)[k].Started?
    ensures forall m :: 0 <= m < k ==> !ActionsOf(s, e)[m].Started?
    ensures k > 0 ==> ActionsOf(s, e)[0].Failed?
    ensures k == 0 ==> !(e.OnWatch? && e.phase.DELETED?) && !(e.OnEnd? && e.result.Failure?)
  {
  }

  lemma NeverDownStep(g: System, e: Event)
    requires Exclusive(g) && Ordered(g.key) && Monotone(g) && Enabled(g, e) && CarriesGeneration(e)
    ensures NeverDown(Step(g, e).log)
  {
    var n, acts, log' := |g.log|, ActionsOf(g.key, e), Step(g, e).log;
    assert forall m :: n <= m < |log'| ==> log'[m] == acts[m - n];
    forall i, j | 0 <= i < j < |log'| && log'[i].Started? && log'[i].guarded && log'[j].Started? && Uninterrupted(log', i, j)
      ensures Reaches(log'[j].gen, log'[i].gen)
    {
      if j < n {
        assert forall k :: 0 <= k < n ==> log'[k] == g.log[k];
        assert Uninterrupted(g.log, i, j);
      } else {
        StartComesLast(g.key, e, j - n);
        if i < n {
          FloorBefore(g.log, acts, i, j - n);
          OrderOfReconciles(g.key, e, g.closed, g.next, g.log[i].gen);
        }
      }
    }
  }

  lemma MonotoneStep(g: System, e: Event)
    requires Exclusive(g) && Ordered(g.key) && Monotone(g) && Enabled(g, e) && CarriesGeneration(e)
    ensures Monotone(Step(g, e))
  {
    FloorsStep(g, e);
    NeverDownStep(g, e);
  }

  lemma {:induction false} MonotoneRun(g: System, es: seq<Event>)
    requires Exclusive(g) && Ordered(g.key) && Monotone(g) && Legal(g, es) && AllCarryGenerations(es)
    ensures Monotone(Run(g, es))
    decreases |es|
  {
    if es != [] {
      assert CarriesGeneration(es[0]);
      ExclusiveStep(g, es[0]);
      OrderedStep(g.key, es[0], g.closed, g.next);
      MonotoneStep(g, es[0]);
      assert forall i :: 0 <= i < |es[1..]| ==> es[1..][i] == es[i + 1];
      MonotoneRun(Step(g, es[0]), es[1..]);
    }
  }

  /** Between failures and deletes, what follows a guarded start is never older. */
  lemma ReconciledGenerationsNeverGoDown(es: seq<Event>)
    requires Legal(FRESH, es) && AllCarryGenerations(es)
    ensures NeverDown(Run(FRESH, es).log)
  {
    MonotoneRun(FRESH, es);
  }

  // ----- the guard is exact ----------------------------------------------------------------------

  lemma {:induction false} LogGrows(g: System, es: seq<Event>)
    requires Legal(g, es)
    ensures g.log <= Run(g, es).log
    decreases |es|
  {
    if es != [] {
      LogGrows(Step(g, es[0]), es[1..]);
    }
  }

  /** The gate has just begun to reconcile `d`, of generation `gen`. */
  ghost predicate JustStarted(g: System, d: Drain, gen: nat) {
    && d in g.key.drains && d.started && d.obj.generation == Some(gen)
    && g.log != [] && g.log[|g.log| - 1] == Started(Some(gen), Guarded(g.key, d.obj))
  }

  /** These callbacks lead to a start of an older generation, with no failure or delete before it. */
  ghost predicate LeadDown(g: System, gen: nat, es: seq<Event>) {
    && Legal(g, es) && AllCarryGenerations(es) && g.log != []
    && exists j ::
         && |g.log| <= j < |Run(g, es).log| && Run(g, es).log[j].Started?
         && !Reaches(Run(g, es).log[j].gen, Some(gen)) && Uninterrupted(Run(g, es).log, |g.log| - 1, j)
  }

  lemma UnguardedCanGoDown(g: System, d: Drain, gen: nat) returns (es: seq<Event>)
    requires Exclusive(g) && Ordered(g.key) && JustStarted(g, d, gen) && gen > 0
    requires !Guarded(g.key, d.obj)
    ensures LeadDown(g, gen, es)
  {
    var low: nat := if g.key.recorded.Some? then g.key.recorded.value.value else gen - 1;
    var cr := Indexer(None, None, Some("x"), Some(low), "");
    es := [OnResync(cr), OnEnd(d, Ok)];
    var g1 := Step(g, es[0]);
    assert g1.key.drains == g.key.drains && g1.key.pending == Some(cr) && g1.key.recorded == Some(Some(low));
    assert Enabled(g1, es[1]);
    var g2 := Step(g1, es[1]);
    assert es[1..] == [es[1]] && es[1..][1..] == [];
    assert Run(g1, es[1..]) == g2;
    assert Run(g, es) == g2;
    assert g2.log == g.log + [Accepted(Some(low)), Started(Some(low), true)];
    assert g2.log[|g.log| + 1] == Started(Some(low), true);
    assert Uninterrupted(g2.log, |g.log| - 1, |g.log| + 1);
  }

  /**
   A start may be followed by an older one, with no failure or delete between, exactly when it is not
   guarded: its object's entry in the generation map is gone or lower. That happens to a run whose
   Indexer was deleted before its first reconcile, and to a rerun queued behind a failed reconcile of
   the same generation, whose entry the failure removed.
   */
  lemma GuardIsExact(es: seq<Event>, d: Drain, gen: nat)
    requires Legal(FRESH, es) && AllCarryGenerations(es)
    requires JustStarted(Run(FRESH, es), d, gen) && gen > 0
    ensures Guarded(Run(FRESH, es).key, d.obj) <==> !exists more :: LeadDown(Run(FRESH, es), gen, more)
  {
    var g := Run(FRESH, es);
    SoundRun(FRESH, es);
    MonotoneRun(FRESH, es);
    if !Guarded(g.key, d.obj) {
      var more := UnguardedCanGoDown(g, d, gen);
    } else {
      forall more
        ensures !LeadDown(g, gen, more)
      {
        if Legal(g, more) && AllCarryGenerations(more) {
          MonotoneRun(g, more);
          LogGrows(g, more);
          assert Run(g, more).log[|g.log| - 1] == g.log[|g.log| - 1];
        }
      }
    }
  }

  ghost predicate Moves(g: System, e: Event, g': System) {
    Enabled(g, e) && Step(g, e) == g'
  }

  lemma Then(g: System, e: Event, g': System, es: seq<Event>)
    requires Moves(g, e, g') && Legal(g', es)
    ensures Legal(g, [e] + es) && Run(g, [e] + es) == Run(g', es)
  {
    assert ([e] + es)[1..] == es;
  }

  lemma MovesAdded(cr: Indexer)
    ensures Moves(FRESH, OnWatch(cr, ADDED),
                  System(KeyState(Some(cr.generation), Some(0), None, Some(cr), None, None, {Drain(0, cr, false)}, map[]),
                         false, 1, [Accepted(cr.generation)]))
  {
  }

  lemma MovesStart(g: System, d: Drain)
    requires g.key.drains == {d} && !d.started
    ensures Moves(g, OnStart(d), System(g.key.(drains := {d.(started := true)}), g.closed, g.next + 1,
                                        g.log + [Started(d.obj.generation, Guarded(g.key, d.obj))]))
  {
  }

  lemma MovesQueued(g: System, cr: Indexer)
    requires g.key.running.Some? && !Stale(g.key, cr) && g.key.retry.None? && g.key.retryDelay.None?
    requires Supersedes(cr, g.key.pending)
    ensures Moves(g, OnResync(cr),
                  System(g.key.(recorded := Some(cr.generation), pending := Some(cr), latest := Remember(g.key, cr).latest),
                         g.closed, g.next + 1, g.log + [Accepted(cr.generation)]))
  {
  }

  lemma MovesRerun(g: System, d: Drain, result: ReconcileResult)
    requires g.key.drains == {d} && d.started && g.key.pending.Some?
    ensures Moves(g, OnEnd(d, result),
                  System(Forget(g.key, d, result).(pending := None, drains := {d.(obj := g.key.pending.value)}),
                         g.closed, g.next + 1, g.log + ActionsOf(g.key, OnEnd(d, result))))
  {
  }

  lemma {:induction false} RunConcat(g: System, a: seq<Event>, b: seq<Event>)
    requires Legal(g, a) && Legal(Run(g, a), b)
    ensures Legal(g, a + b) && Run(g, a + b) == Run(Run(g, a), b)
    decreases |a|
  {
    if a == [] {
      assert a + b == b;
    } else {
      assert (a + b)[0] == a[0] && (a + b)[1..] == a[1..] + b;
      RunConcat(Step(g, a[0]), a[1..], b);
    }
  }

  /** A first run of `first`, with `queued` waiting behind it. */
  lemma QueuedBehind(first: Indexer, queued: Indexer) returns (es: seq<Event>)
    requires first.generation.None? || queued.generation == first.generation
    ensures es == [OnWatch(first, ADDED), OnStart(Drain(0, first, false)), OnResync(queued)]
    ensures Legal(FRESH, es)
    ensures Run(FRESH, es) == System(KeyState(Some(queued.generation), Some(0), Some(queued), Some(queued), None, None,
                                              {Drain(0, first, true)}, map[]), false, 3,
                                     [Accepted(first.generation), Started(first.generation, first.generation.Some?),
                                      Accepted(queued.generation)])
  {
    var d, run := Drain(0, first, false), Drain(0, first, true);
    var k1 := KeyState(Some(first.generation), Some(0), None, Some(first), None, None, {d}, map[]);
    var g1 := System(k1, false, 1, [Accepted(first.generation)]);
    var g2 := System(k1.(drains := {run}), false, 2, [Accepted(first.generation), Started(first.generation, first.generation.Some?)]);
    var k3 := k1.(drains := {run}, recorded := Some(queued.generation), pending := Some(queued), latest := Some(queued));
    var g3 := System(k3, false, 3, g2.log + [Accepted(queued.generation)]);
    es := [OnWatch(first, ADDED), OnStart(d), OnResync(queued)];
    MovesAdded(first);
    MovesStart(g1, d);
    MovesQueued(g2, queued);
    Then(g2, OnResync(queued), g3, []);
    Then(g1, OnStart(d), g2, [OnResync(queued)]);
    Then(FRESH, OnWatch(first, ADDED), g1, [OnStart(d), OnResync(queued)]);
    assert es == [OnWatch(first, ADDED)] + [OnStart(d), OnResync(queued)];
  }

  /** With no generation known, an older object takes the queue, and the next reconcile. */
  lemma OlderTakesQueue(g: System, run: Drain, cr: Indexer)
    requires g.key.drains == {run} && run.started && g.key.running.Some? && g.key.retry.None? && g.key.retryDelay.None?
    requires RecordedGen(g.key).None? && Supersedes(cr, g.key.pending) && Carries(cr)
    ensures Legal(g, [OnResync(cr), OnEnd(run, Ok)])
    ensures var g' := Run(g, [OnResync(cr), OnEnd(run, Ok)]);
            && g'.log == g.log + [Accepted(cr.generation), Started(cr.generation, true)]
            && g'.key.pending.None? && g'.key.drains == {run.(obj := cr)}
  {
    MovesQueued(g, cr);
    var g1 := Step(g, OnResync(cr));
    MovesRerun(g1, run, Ok);
    Then(g1, OnEnd(run, Ok), Step(g1, OnEnd(run, Ok)), []);
    Then(g, OnResync(cr), g1, [OnEnd(run, Ok)]);
  }

  /** The unguarded case is reachable: a failed reconcile with a rerun of the same generation queued. */
  lemma FailedRerunGoesDown() returns (es: seq<Event>)
    ensures Legal(FRESH, es) && AllCarryGenerations(es)
    ensures Run(FRESH, es).log == [Accepted(Some(5)), Started(Some(5), true), Accepted(Some(5)), Failed,
                                   Started(Some(5), false), Accepted(Some(3)), Started(Some(3), true)]
  {
    var five, three := Indexer(None, None, Some("x"), Some(5), ""), Indexer(None, None, Some("x"), Some(3), "");
    var run := Drain(0, five, true);
    var begin := QueuedBehind(five, five);
    var g3 := Run(FRESH, begin);
    MovesRerun(g3, run, Failure);
    var g4 := Step(g3, OnEnd(run, Failure));
    OlderTakesQueue(g4, run, three);
    Then(g3, OnEnd(run, Failure), g4, [OnResync(three), OnEnd(run, Ok)]);
    RunConcat(FRESH, begin, [OnEnd(run, Failure)] + [OnResync(three), OnEnd(run, Ok)]);
    es := begin + ([OnEnd(run, Failure)] + [OnResync(three), OnEnd(run, Ok)]);
  }

  // ----- events lost to objects without a generation ---------------------------------------------

  ghost predicate Waits(s: KeyState, gen: Option<nat>) {
    exists d :: d in s.drains && !d.started && Reaches(d.obj.generation, gen)
  }

  /** The callback schedules its object, or would if the object were not stale. */
  predicate Arrives(s: KeyState, e: Event) {
    e.OnResync? || (e.OnWatch? && (e.phase.ADDED? || (e.phase.MODIFIED? && !Skipped(s, e.cr, e.phase))))
  }

  /** An object without a generation arrives, and no run that has yet to begin reaches `gen`. */
  ghost predicate Displaces(s: KeyState, e: Event, gen: Option<nat>) {
    Arrives(s, e) && e.cr.generation.None? && !Waits(s, gen)
  }

  /** An object of at least generation `gen` is scheduled, by an event or by a retry. */
  ghost predicate Regains(s: KeyState, e: Event, gen: Option<nat>) {
    || (Arrives(s, e) && !Stale(s, e.cr) && Reaches(e.cr.generation, gen))
    || (e.OnTimer? && s.latest.Some? && !Stale(s, s.latest.value) && Reaches(s.latest.value.generation, gen))
  }

  /** What scheduling an object that is not stale leaves covered. */
  lemma ScheduleCovered(s: KeyState, cr: Indexer, isRetry: bool, id: nat, gen: Option<nat>)
    requires OneRun(s) && !Stale(s, cr)
    ensures Covered(Schedule(s, cr, isRetry, id), gen) <==>
            Reaches(cr.generation, gen) || Waits(s, gen) || (Covered(s, gen) && cr.generation.Some?)
  {
    var s' := Schedule(s, cr, isRetry, id);
    if s.running.None? {
      assert s'.drains == {Drain(id, cr, false)};
    }
  }

  lemma ArrivalCovered(s: KeyState, e: Event, closed: bool, id: nat, gen: Option<nat>)
    requires OneRun(s) && Arrives(s, e)
    ensures Covered(NextKey(s, e, closed, id), gen) <==> !Displaces(s, e, gen) && (Covered(s, gen) || Regains(s, e, gen))
    ensures !Settled(ActionsOf(s, e), gen)
  {
    var s1 := Remember(s, e.cr);
    if !Stale(s, e.cr) { ScheduleCovered(s1, e.cr, false, id, gen); }
  }

  /** A timer only fires when nothing runs, so nothing is covered before it does. */
  lemma TimerCovered(s: KeyState, e: Event, closed: bool, id: nat, gen: Option<nat>)
    requires OneRun(s) && OneTimer(s, closed) && e.OnTimer? && e.timer in s.timers
    ensures !Covered(s, gen) && (Covered(NextKey(s, e, closed, id), gen) <==> Regains(s, e, gen))
  {
    var s1 := s.(timers := s.timers - {e.timer}, retry := None);
    if !Stale(s1, s.latest.value) { ScheduleCovered(s1, s.latest.value, true, id, gen); }
  }

  lemma ProgressCovered(s: KeyState, e: Event, closed: bool, id: nat, gen: Option<nat>)
    requires OneRun(s) && ((e.OnStart? && e.drain in s.drains && !e.drain.started) || (e.OnEnd? && e.drain in s.drains && e.drain.started))
    ensures Covered(NextKey(s, e, closed, id), gen) ==> Covered(s, gen)
    ensures Covered(s, gen) ==> Covered(NextKey(s, e, closed, id), gen) || Settled(ActionsOf(s, e), gen)
  {
    var acts := ActionsOf(s, e);
    assert s.drains == {e.drain};
    if e.OnStart? {
      assert acts[0].Started?;
      assert NextKey(s, e, closed, id).drains == {e.drain.(started := true)};
    } else if s.pending.Some? {
      assert acts[|acts| - 1].Started?;
      assert NextKey(s, e, closed, id).drains == {e.drain.(obj := s.pending.value)};
    } else {
      assert NextKey(s, e, closed, id).drains == {};
    }
  }

  /**
   Exactly what one callback does to a generation that is covered, and to one that is not: covered, it
   is neither covered nor settled after the callback if and only if the callback displaces it; not
   covered, it is covered after if and only if the callback regains it.
   */
  lemma CoverageStep(g: System, e: Event, gen: Option<nat>)
    requires Exclusive(g) && Enabled(g, e)
    ensures Covered(g.key, gen) ==>
              (!Covered(Step(g, e).key, gen) && !Settled(ActionsOf(g.key, e), gen) <==> Displaces(g.key, e, gen))
    ensures !Covered(g.key, gen) ==> (Covered(Step(g, e).key, gen) <==> Regains(g.key, e, gen))
    ensures Displaces(g.key, e, gen) ==> !Regains(g.key, e, gen)
  {
    if Arrives(g.key, e) {
      ArrivalCovered(g.key, e, g.closed, g.next, gen);
    } else if e.OnTimer? {
      TimerCovered(g.key, e, g.closed, g.next, gen);
    } else if e.OnStart? || e.OnEnd? {
      ProgressCovered(g.key, e, g.closed, g.next, gen);
    } else if e.OnWatch? && e.phase.DELETED? {
      assert ActionsOf(g.key, e)[0].Deleted?;
    }
  }

  lemma {:induction false} LegalPrefix(g: System, es: seq<Event>, n: nat)
    requires Legal(g, es) && n <= |es|
    ensures Legal(g, es[..n])
    decreases n
  {
    if n > 0 {
      LegalPrefix(Step(g, es[0]), es[1..], n - 1);
      assert es[..n][1..] == es[1..][..n - 1];
    }
  }

  /** A run is its prefix and one callback more. */
  lemma {:induction false} RunLast(g: System, es: seq<Event>)
    requires es != [] && Legal(g, es)
    ensures var n := |es| - 1;
            && Legal(g, es[..n]) && Enabled(Run(g, es[..n]), es[n])
            && Run(g, es) == Step(Run(g, es[..n]), es[n])
    decreases |es|
  {
    var n := |es| - 1;
    LegalPrefix(g, es, n);
    if n > 0 {
      assert es[1..][..n - 1] == es[..n][1..];
      RunLast(Step(g, es[0]), es[1..]);
    } else {
      assert Run(Step(g, es[0]), es[1..]) == Step(g, es[0]);
    }
  }

  /** Since action `i` was logged, a callback displaced generation `gen`, and none since has regained it. */
  ghost predicate Displaced(es: seq<Event>, i: nat, gen: Option<nat>)
    requires Legal(FRESH, es)
  {
    es != [] &&
    (RunLast(FRESH, es);
     var before, e := Run(FRESH, es[..|es| - 1]), es[|es| - 1];
     && i < |before.log|
     && (Displaces(before.key, e, gen) || (Displaced(es[..|es| - 1], i, gen) && !Regains(before.key, e, gen))))
  }

  /** An event is covered as soon as it is accepted. */
  lemma AcceptedIsCovered(g: System, e: Event, k: nat)
    requires Exclusive(g) && Enabled(g, e) && k < |ActionsOf(g.key, e)|
    requires ActionsOf(g.key, e)[k].Accepted? && ActionsOf(g.key, e)[k].gen.Some?
    ensures Covered(Step(g, e).key, ActionsOf(g.key, e)[k].gen)
  {
    ArrivalCovered(g.key, e, g.closed, g.next, ActionsOf(g.key, e)[k].gen);
  }

  /**
   Whether or not the objects carry generations: an accepted event of a known generation is lost (it
   was neither served nor deleted, and nothing waiting will serve it) exactly when an object without a
   generation displaced it and nothing since brought its generation back.
   */
  lemma {:induction false} LostExactlyWhenDisplaced(es: seq<Event>, i: nat)
    requires Legal(FRESH, es) && Owed(Run(FRESH, es).log, i) && Run(FRESH, es).log[i].gen.Some?
    ensures !Covered(Run(FRESH, es).key, Run(FRESH, es).log[i].gen) <==> Displaced(es, i, Run(FRESH, es).log[i].gen)
    decreases |es|
  {
    if es != [] {
      RunLast(FRESH, es);
      var before, e := Run(FRESH, es[..|es| - 1]), es[|es| - 1];
      var gen := Run(FRESH, es).log[i].gen;
      ExclusiveRun(FRESH, es[..|es| - 1]);
      if i < |before.log| {
        OwedBefore(before.log, ActionsOf(before.key, e), i);
        assert before.log[i].gen == gen;
        LostExactlyWhenDisplaced(es[..|es| - 1], i);
        CoverageStep(before, e, gen);
      } else {
        assert Run(FRESH, es).log[i] == ActionsOf(before.key, e)[i - |before.log|];
        AcceptedIsCovered(before, e, i - |before.log|);
      }
    }
  }

  /** The queued generation 7 is replaced by an object without one, whose place the stale 3 then takes. */
  lemma QueueReplaced(g: System, run: Drain, seven: Indexer, none: Indexer, three: Indexer)
    requires g.key.drains == {run} && run.started && g.key.running.Some? && g.key.retry.None? && g.key.retryDelay.None?
    requires g.key.pending == Some(seven) && none.generation.None? && Carries(three) && !Stale(g.key, none)
    ensures Legal(g, [OnResync(none)] + [OnResync(three), OnEnd(run, Ok)])
    ensures var g' := Run(g, [OnResync(none)] + [OnResync(three), OnEnd(run, Ok)]);
            && g'.log == g.log + [Accepted(None)] + [Accepted(three.generation), Started(three.generation, true)]
            && g'.key.pending.None? && g'.key.drains == {run.(obj := three)}
  {
    MovesQueued(g, none);
    var g1 := Step(g, OnResync(none));
    OlderTakesQueue(g1, run, three);
    Then(g, OnResync(none), g1, [OnResync(three), OnEnd(run, Ok)]);
  }

  /**
   The lost event is reachable: one without a generation that follows a queued generation 7 replaces it
   and clears the recorded generation, so a stale generation 3 then takes the queue, and 7 is never
   reconciled although nothing was deleted.
   */
  lemma UndefinedGenerationLosesAnEvent() returns (es: seq<Event>)
    ensures Legal(FRESH, es) && !AllCarryGenerations(es)
    ensures Run(FRESH, es).log == [Accepted(None), Started(None, false), Accepted(Some(7)), Accepted(None),
                                   Accepted(Some(3)), Started(Some(3), true)]
    ensures Owed(Run(FRESH, es).log, 2) && Run(FRESH, es).key.pending.None?
    ensures forall d :: d in Run(FRESH, es).key.drains ==> d.started && d.obj.generation == Some(3)
  {
    var seven, three := Indexer(None, None, Some("x"), Some(7), ""), Indexer(None, None, Some("x"), Some(3), "");
    var none := Indexer(None, None, Some("x"), None, "");
    var run := Drain(0, none, true);
    var begin := QueuedBehind(none, seven);
    var more := [OnResync(none)] + [OnResync(three), OnEnd(run, Ok)];
    QueueReplaced(Run(FRESH, begin), run, seven, none, three);
    RunConcat(FRESH, begin, more);
    es := begin + more;
    assert !CarriesGeneration(es[0]);
  }

  // ----- every run ------------------------------------------------------------------------------

  lemma {:induction false} ExclusiveRun(g: System, es: seq<Event>)
    requires Exclusive(g) && Legal(g, es)
    ensures Exclusive(Run(g, es))
    decreases |es|
  {
    if es != [] {
      ExclusiveStep(g, es[0]);
      ExclusiveRun(Step(g, es[0]), es[1..]);
    }
  }

  /**
   Whatever the callbacks and their order: at most one reconcile of the Indexer is under way and it is
   the registered run, so the identity check in `#drain` always passes; at most one retry is set, with
   a delay between 5 s and a minute; none is set during a run or after close.
   */
  lemma OneReconcileOneTimer(es: seq<Event>)
    requires Legal(FRESH, es)
    ensures forall d, d' :: d in Run(FRESH, es).key.drains && d' in Run(FRESH, es).key.drains ==> d == d'
    ensures forall d :: d in Run(FRESH, es).key.drains ==> Run(FRESH, es).key.running == Some(d.id)
    ensures Run(FRESH, es).key.timers.Keys == if Run(FRESH, es).key.retry.Some? then {Run(FRESH, es).key.retry.value} else {}
    ensures forall t :: t in Run(FRESH, es).key.timers ==> WAIT_RETRY_START_MS <= Run(FRESH, es).key.timers[t] <= WAIT_RETRY_MAX_MS
    ensures Run(FRESH, es).key.running.Some? || Run(FRESH, es).closed ==> Run(FRESH, es).key.timers == map[]
  {
    ExclusiveRun(FRESH, es);
  }

  /** A retry that fires is never dropped as stale: it starts a run of the newest object seen. */
  lemma RetryAlwaysRuns(es: seq<Event>, timer: nat)
    requires Legal(FRESH, es) && AllCarryGenerations(es)
    requires timer in Run(FRESH, es).key.timers
    ensures Run(FRESH, es).key.latest.Some?
    ensures Step(Run(FRESH, es), OnTimer(timer)).key.drains
         == {Drain(Run(FRESH, es).next, Run(FRESH, es).key.latest.value, false)}
  {
    SoundRun(FRESH, es);
  }

  // ----- every callback, by what it finds --------------------------------------------------------

  /**
   Whether an object is to be reconciled: its generation is newer than the recorded one, or the record
   names none; or equally old, where the callback asks for that too. One without a generation is not
   only where the record holds such an object already and the callback does not ask again.
   */
  predicate Taken(recorded: Option<Option<nat>>, generation: Option<nat>, again: bool) {
    match generation
    case Some(n) =>
      recorded.None? || recorded.value.None? || recorded.value.value < n || (again && recorded.value.value == n)
    case None => again || recorded != Some(None)
  }

  /** The object held gives way, unless it is known to be newer. */
  function Newer(held: Option<Indexer>, cr: Indexer): Option<Indexer> {
    if held.Some? && held.value.generation.Some? && cr.generation.Some? && held.value.generation.value > cr.generation.value
    then held else Some(cr)
  }

  /** An object arrives: added, modified or listed. */
  ghost predicate ObjectEvent(e: Event, cr: Indexer, again: bool) {
    (e == OnWatch(cr, ADDED) && again) || (e == OnWatch(cr, MODIFIED) && !again) || (e == OnResync(cr) && again)
  }

  /**
   What an arriving object does. To be reconciled, it starts a run where none is under way and is queued
   behind one, any retry set is off, and its generation is recorded; otherwise nothing is touched but the
   newest object seen.
   */
  lemma ObjectArrives(s: KeyState, e: Event, closed: bool, id: nat, cr: Indexer, again: bool)
    requires OneRun(s) && OneTimer(s, closed) && ObjectEvent(e, cr, again)
    ensures ActionsOf(s, e) == if Taken(s.recorded, cr.generation, again) then [Accepted(cr.generation)] else []
    ensures NextKey(s, e, closed, id) ==
              if !Taken(s.recorded, cr.generation, again) then s.(latest := Newer(s.latest, cr))
              else if s.running.None? then
                KeyState(Some(cr.generation), Some(id), None, Newer(s.latest, cr), None, None, {Drain(id, cr, false)}, map[])
              else
                KeyState(Some(cr.generation), s.running, Newer(s.pending, cr), Newer(s.latest, cr), None, None, s.drains, map[])
  {
    ClearRetryLeavesNoTimer(s, closed);
    assert {} + {Drain(id, cr, false)} == {Drain(id, cr, false)};
  }

  /**
   So, whatever happened before: after an object of generation `n` arrives, something waiting reaches `n`
   where the record was older or named none (or as old, and it was not merely modified); and a mere change
   of status, which leaves the generation, costs nothing.
   */
  lemma NewGenerationIsReconciled(es: seq<Event>, e: Event, cr: Indexer, again: bool, n: nat)
    requires Legal(FRESH, es) && ObjectEvent(e, cr, again) && cr.generation == Some(n)
    ensures var s, s' := Run(FRESH, es).key, Step(Run(FRESH, es), e).key;
            && (s.recorded.None? || s.recorded.value.None? || s.recorded.value.value < n || (again && s.recorded.value.value == n) ==>
                  || (exists d :: d in s'.drains && !d.started && d.obj.generation.Some? && d.obj.generation.value >= n)
                  || (s'.pending.Some? && s'.pending.value.generation.Some? && s'.pending.value.generation.value >= n))
            && (!again && s.recorded == Some(Some(n)) ==>
                  s'.drains == s.drains && s'.running == s.running && s'.pending == s.pending && s'.retry == s.retry && s'.timers == s.timers)
  {
    var g := Run(FRESH, es);
    ExclusiveRun(FRESH, es);
    ObjectArrives(g.key, e, g.closed, g.next, cr, again);
    if g.key.running.None? && Taken(g.key.recorded, cr.generation, again) {
      assert Drain(g.next, cr, false) in Step(g, e).key.drains;
    }
  }

  /** A deletion forgets the Indexer, but not the run under way; bookmarks and errors are nothing. */
  lemma OtherPhases(s: KeyState, cr: Indexer, phase: Phase, closed: bool, id: nat)
    requires OneTimer(s, closed)
    ensures phase.DELETED? ==>
              && NextKey(s, OnWatch(cr, phase), closed, id) == KeyState(None, s.running, None, None, None, None, s.drains, map[])
              && ActionsOf(s, OnWatch(cr, phase)) == [Deleted]
    ensures phase.BOOKMARK? || phase.ERROR? ==>
              NextKey(s, OnWatch(cr, phase), closed, id) == s && ActionsOf(s, OnWatch(cr, phase)) == []
  {
    ClearRetryLeavesNoTimer(s, closed);
  }

  /** A retry starts a run of the newest object seen, unless a newer generation is recorded; its delay goes on growing. */
  lemma RetryStarts(s: KeyState, timer: nat, closed: bool, id: nat)
    requires OneRun(s) && OneTimer(s, closed) && timer in s.timers
    ensures s.latest.Some? && ActionsOf(s, OnTimer(timer)) == []
    ensures NextKey(s, OnTimer(timer), closed, id) ==
              if Taken(s.recorded, s.latest.value.generation, true) then
                KeyState(Some(s.latest.value.generation), Some(id), None, s.latest, None, s.retryDelay,
                         {Drain(id, s.latest.value, false)}, map[])
              else s.(timers := map[], retry := None)
  {
    assert s.timers - {timer} == map[];
    assert {} + {Drain(id, s.latest.value, false)} == {Drain(id, s.latest.value, false)};
  }

  lemma StartBegins(s: KeyState, d: Drain, closed: bool, id: nat)
    requires OneRun(s) && d in s.drains && !d.started
    ensures NextKey(s, OnStart(d), closed, id) == s.(drains := {Drain(d.id, d.obj, true)})
    ensures ActionsOf(s, OnStart(d)) == [Started(d.obj.generation, Guarded(s, d.obj))]
  {
  }

  /** What a failed reconcile leaves recorded: not its own generation. */
  function Kept(recorded: Option<Option<nat>>, generation: Option<nat>, result: ReconcileResult): Option<Option<nat>> {
    if result == Failure && recorded == Some(generation) then None else recorded
  }

  /** Behind a reconcile comes the queued object, in the same run. */
  lemma EndReruns(s: KeyState, d: Drain, result: ReconcileResult, closed: bool, id: nat)
    requires OneRun(s) && d in s.drains && d.started && s.pending.Some?
    ensures NextKey(s, OnEnd(d, result), closed, id) ==
              s.(recorded := Kept(s.recorded, d.obj.generation, result), pending := None,
                 drains := {Drain(d.id, s.pending.value, true)})
    ensures ActionsOf(s, OnEnd(d, result))
         == (if result == Failure then [Failed] else []) +
            [Started(s.pending.value.generation,
                     Guarded(s.(recorded := Kept(s.recorded, d.obj.generation, result)), s.pending.value))]
  {
    assert s.drains - {d} == {};
  }

  /** What a run over leaves set: after a wait a retry in 5 s, or twice the last delay, up to a minute. */
  function Rested(s: KeyState, result: ReconcileResult, closed: bool, id: nat): KeyState {
    if result == Waiting && !closed && s.latest.Some? then
      var delay := if s.retryDelay.Some? then s.retryDelay.value else 5000;
      s.(retry := Some(id), timers := map[id := delay], retryDelay := Some(if delay < 30000 then 2 * delay else 60000))
    else if result == Ok then s.(retryDelay := None)
    else s
  }

  /** With nothing queued the run is over; one that waits is asked again later, and later each time. */
  lemma EndRests(s: KeyState, d: Drain, result: ReconcileResult, closed: bool, id: nat)
    requires OneRun(s) && OneTimer(s, closed) && d in s.drains && d.started && s.pending.None?
    ensures ActionsOf(s, OnEnd(d, result)) == if result == Failure then [Failed] else []
    ensures NextKey(s, OnEnd(d, result), closed, id) ==
              Rested(s.(recorded := Kept(s.recorded, d.obj.generation, result), running := None, drains := {}), result, closed, id)
  {
    assert s.drains - {d} == {};
  }

  lemma CloseStopsRetries(s: KeyState, closed: bool, id: nat)
    requires OneTimer(s, closed)
    ensures NextKey(s, OnClose, closed, id) == s.(retry := None, timers := map[], retryDelay := if s.retry.Some? then None else s.retryDelay)
    ensures ActionsOf(s, OnClose) == []
  {
    ClearRetryLeavesNoTimer(s, closed);
  }

  /** The delay of the k-th wait in a row. */
  function Backoff(k: nat): nat {
    if k == 0 then 5000 else Min(2 * Backoff(k - 1), 60000)
  }

  /** The delay the next wait would set. */
  ghost predicate Waited(s: KeyState, k: nat) {
    s.retryDelay == if k == 0 then None else Some(Backoff(k))
  }

  /** A wait, its retry, and the next wait: each delay is twice the one before, from 5 s up to a minute. */
  lemma WaitsBackOff(g: System, d: Drain, k: nat)
    requires Exclusive(g) && g.key.drains == {d} && d.started && g.key.pending.None? && !g.closed && g.key.latest.Some?
    requires Waited(g.key, k) && Taken(g.key.recorded, g.key.latest.value.generation, true)
    ensures var g1 := Step(g, OnEnd(d, Waiting));
            && g1.key.timers == map[g.next := Backoff(k)] && Enabled(g1, OnTimer(g.next))
            && Waited(Step(g1, OnTimer(g.next)).key, k + 1)
            && Step(g1, OnTimer(g.next)).key.drains == {Drain(g1.next, g.key.latest.value, false)}
  {
    EndRests(g.key, d, Waiting, g.closed, g.next);
    var g1 := Step(g, OnEnd(d, Waiting));
    ExclusiveStep(g, OnEnd(d, Waiting));
    RetryStarts(g1.key, g.next, g1.closed, g1.next);
  }
}
