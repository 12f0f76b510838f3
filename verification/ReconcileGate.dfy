/**
 The ReconcileGate class itself: its maps, updated in place, with each callback proved to do to one
 Indexer's share of them what the state machine of module Gate says, and nothing to any other's.
 */
module ReconcileGates {
  import opened Common
  import G = Gate

  type Key = string

  function Get<V>(m: map<Key, V>, key: Key): Option<V> {
    if key in m then Some(m[key]) else None
  }

  class ReconcileGate {
    var generation: map<Key, Option<nat>>
    var running: map<Key, nat>
    var pending: map<Key, G.Indexer>
    var latest: map<Key, G.Indexer>
    var retry: map<Key, nat>
    var retryDelay: map<Key, nat>
    var closed: bool

    // What the JavaScript runtime holds for the gate: live drains, timeouts set (by id, with their
    // delays), and the supply of promise and timeout ids.
    var drains: map<Key, set<G.Drain>>
    var timeouts: map<Key, map<nat, nat>>
    var next: nat

    constructor ()
      ensures forall k :: View(k) == G.UNKNOWN
      ensures !closed && next == 0
    {
      generation, running, pending, latest, retry, retryDelay := map[], map[], map[], map[], map[], map[];
      closed, drains, timeouts, next := false, map[], map[], 0;
    }

    /** One Indexer's share of the gate. */
    function View(key: Key): G.KeyState
      reads this
    {
      G.KeyState(Get(generation, key), Get(running, key), Get(pending, key), Get(latest, key), Get(retry, key),
                 Get(retryDelay, key), if key in drains then drains[key] else {}, if key in timeouts then timeouts[key] else map[])
    }

    twostate predicate OthersKept(key: Key)
      reads this
    {
      (forall k :: k != key ==> View(k) == old(View(k))) && closed == old(closed)
    }

    /** `watch`; an object without a usable key changes nothing. */
    method Watch(cr: G.Indexer, phase: G.Phase)
      modifies this
      ensures G.KeyOf(cr).Some? ==>
                View(G.KeyOf(cr).value) == G.NextKey(old(View(G.KeyOf(cr).value)), G.OnWatch(cr, phase), old(closed), old(next))
      ensures G.KeyOf(cr).Some? ==> OthersKept(G.KeyOf(cr).value) && next == old(next) + 1
      ensures G.KeyOf(cr).None? ==> unchanged(this)
    {
      var keyed := G.KeyOf(cr);
      if keyed.None? { return; }
      var key := keyed.value;
      var id := next;
      next := next + 1;
      if phase == G.DELETED {
        Gone(key);
        return;
      }
      if phase != G.ADDED && phase != G.MODIFIED { return; }
      Remember(key, cr);
      if phase == G.MODIFIED && key in generation && generation[key] == cr.generation { return; }
      Schedule(key, cr, false, id);
    }

    /** The DELETED branch of `watch`: nothing the gate holds for the Indexer survives, save its run. */
    method Gone(key: Key)
      modifies this`generation, this`pending, this`latest, this`timeouts, this`retry, this`retryDelay
      ensures View(key) == G.ClearRetry(old(View(key)).(recorded := None, pending := None, latest := None))
      ensures OthersKept(key)
    {
      generation := generation - {key};
      pending := pending - {key};
      latest := latest - {key};
      ClearRetry(key);
    }

    method Resync(cr: G.Indexer)
      modifies this
      ensures G.KeyOf(cr).Some? ==>
                View(G.KeyOf(cr).value) == G.NextKey(old(View(G.KeyOf(cr).value)), G.OnResync(cr), old(closed), old(next))
      ensures G.KeyOf(cr).Some? ==> OthersKept(G.KeyOf(cr).value) && next == old(next) + 1
      ensures G.KeyOf(cr).None? ==> unchanged(this)
    {
      var keyed := G.KeyOf(cr);
      if keyed.None? { return; }
      var id := next;
      next := next + 1;
      Remember(keyed.value, cr);
      Schedule(keyed.value, cr, false, id);
    }

    /** Operator shutdown: every pending retry is cleared, and none is set after this. */
    method Close()
      modifies this
      ensures closed
      ensures forall k :: View(k) == G.NextKey(old(View(k)), G.OnClose, old(closed), old(next))
    {
      closed := true;
      var keys := retry.Keys;
      while keys != {}
        invariant closed && keys <= old(retry.Keys)
        invariant forall k :: View(k) == if k in keys then old(View(k)) else G.NextKey(old(View(k)), G.OnClose, old(closed), old(next))
        decreases |keys|
      {
        var key :| key in keys;
        ClearRetry(key);
        keys := keys - {key};
      }
    }

    method Remember(key: Key, cr: G.Indexer)
      modifies this`latest
      ensures View(key) == G.Remember(old(View(key)), cr) && OthersKept(key)
    {
      var known := if key in latest then latest[key].generation else None;
      if cr.generation == None || known == None || cr.generation.value >= known.value {
        latest := latest[key := cr];
      }
    }

    method ClearRetry(key: Key)
      modifies this`timeouts, this`retry, this`retryDelay
      ensures View(key) == G.ClearRetry(old(View(key))) && OthersKept(key)
    {
      if key in retry && key in timeouts {
        timeouts := timeouts[key := timeouts[key] - {retry[key]}];
      }
      retry := retry - {key};
      retryDelay := retryDelay - {key};
    }

    method RetryLater(key: Key, id: nat)
      modifies this`timeouts, this`retry, this`retryDelay
      ensures View(key) == G.RetryLater(old(View(key)), closed, id) && OthersKept(key)
    {
      if closed || key !in latest { return; }
      var delay := if key in retryDelay then retryDelay[key] else G.WAIT_RETRY_START_MS;
      retryDelay := retryDelay[key := Min(delay * 2, G.WAIT_RETRY_MAX_MS)];
      var held: map<nat, nat> := if key in timeouts then timeouts[key] else map[];
      timeouts := timeouts[key := held[id := delay]];
      retry := retry[key := id];
    }

    method Schedule(key: Key, cr: G.Indexer, isRetry: bool, id: nat)
      modifies this`timeouts, this`retry, this`retryDelay, this`generation, this`pending, this`running, this`drains
      ensures View(key) == G.Schedule(old(View(key)), cr, isRetry, id) && OthersKept(key)
    {
      var incomingGen := cr.generation;
      var recordedGen := if key in generation then generation[key] else None;
      if incomingGen != None && recordedGen != None && incomingGen.value < recordedGen.value { return; }
      if !isRetry { ClearRetry(key); }
      Admit(key, cr, id);
    }

    /** The second half of `#schedule`: queue a rerun behind the run under way, or begin a run. */
    method Admit(key: Key, cr: G.Indexer, id: nat)
      modifies this`generation, this`pending, this`running, this`drains
      ensures View(key) == var s := old(View(key)).(recorded := Some(cr.generation));
                           if s.running.Some? then if G.Supersedes(cr, s.pending) then s.(pending := Some(cr)) else s
                           else s.(running := Some(id), drains := s.drains + {G.Drain(id, cr, false)})
      ensures OthersKept(key)
    {
      generation := generation[key := cr.generation];
      if key in running {
        var pendingGen := if key in pending then pending[key].generation else None;
        if pendingGen == None || cr.generation == None || cr.generation.value >= pendingGen.value {
          pending := pending[key := cr];
        }
        return;
      }
      drains := drains[key := (if key in drains then drains[key] else {}) + {G.Drain(id, cr, false)}];
      running := running[key := id];
    }

    method Disarm(key: Key, timer: nat)
      modifies this`timeouts, this`retry
      ensures View(key) == old(View(key)).(timers := old(View(key)).timers - {timer}, retry := None) && OthersKept(key)
    {
      if key in timeouts { timeouts := timeouts[key := timeouts[key] - {timer}]; }
      retry := retry - {key};
    }

    /** The callback of a retry's timeout. */
    method TimerFires(key: Key, timer: nat)
      modifies this
      ensures View(key) == G.NextKey(old(View(key)), G.OnTimer(timer), old(closed), old(next))
      ensures OthersKept(key) && next == old(next) + 1
    {
      var id := next;
      next := next + 1;
      Disarm(key, timer);
      if key in latest {
        Schedule(key, latest[key], true, id);
      }
    }

    /** The first part of `#drain`, after `await null`: the reconcile of `d.obj` begins. */
    method DrainStarts(key: Key, d: G.Drain)
      requires d in View(key).drains && !d.started
      modifies this
      ensures View(key) == G.NextKey(old(View(key)), G.OnStart(d), old(closed), old(next))
      ensures OthersKept(key) && next == old(next) + 1
    {
      next := next + 1;
      drains := drains[key := drains[key] - {d} + {d.(started := true)}];
    }

    method Forget(key: Key, d: G.Drain, result: G.ReconcileResult)
      modifies this`generation
      ensures View(key) == G.Forget(old(View(key)), d, result) && OthersKept(key)
    {
      if result == G.Failure && (if key in generation then generation[key] else None) == d.obj.generation {
        generation := generation - {key};
      }
    }

    /** The run is over: `#running` gives up its entry, if it is still this run's. */
    method Unregister(key: Key, d: G.Drain)
      requires key in drains
      modifies this`running, this`drains
      ensures View(key) == old(View(key)).(drains := old(View(key)).drains - {d},
                                           running := if old(View(key)).running == Some(d.id) then None else old(View(key)).running)
      ensures OthersKept(key)
    {
      drains := drains[key := drains[key] - {d}];
      if key in running && running[key] == d.id { running := running - {key}; }
    }

    /** The run goes on with the queued object. */
    method Rerun(key: Key, d: G.Drain)
      requires key in drains && key in pending
      modifies this`pending, this`drains
      ensures View(key) == old(View(key)).(pending := None,
                                           drains := old(View(key)).drains - {d} + {d.(obj := old(pending[key]))})
      ensures OthersKept(key)
    {
      var queued := pending[key];
      pending := pending - {key};
      drains := drains[key := drains[key] - {d} + {d.(obj := queued)}];
    }

    /** The run ends with nothing queued: a waiting reconcile is retried later, an Ok one is not. */
    method Settle(key: Key, d: G.Drain, result: G.ReconcileResult, id: nat)
      requires key in drains
      modifies this`running, this`drains, this`timeouts, this`retry, this`retryDelay
      ensures View(key) == var s := old(View(key));
                           var s2 := s.(drains := s.drains - {d}, running := if s.running == Some(d.id) then None else s.running);
                           match result
                           case Waiting => G.RetryLater(s2, closed, id)
                           case Ok => G.ClearRetry(s2)
                           case Failure => s2
      ensures OthersKept(key)
    {
      Unregister(key, d);
      if result == G.Waiting { RetryLater(key, id); } else if result == G.Ok { ClearRetry(key); }
    }

    /** The rest of `#drain`'s loop body, when the reconcile settles, up to its return or the next reconcile. */
    method DrainEnds(key: Key, d: G.Drain, result: G.ReconcileResult)
      requires d in View(key).drains && d.started
      modifies this
      ensures View(key) == G.NextKey(old(View(key)), G.OnEnd(d, result), old(closed), old(next))
      ensures OthersKept(key) && next == old(next) + 1
    {
      var id := next;
      next := next + 1;
      Forget(key, d, result);
      if key in pending { Rerun(key, d); } else { Settle(key, d, result, id); }
    }
  }
}
