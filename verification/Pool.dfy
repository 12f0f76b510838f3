/**
 The RpcPool class: its endpoints' rest, updated in place, and the array of outcomes the requests fill,
 each method proved to be the function of module RpcPool.
 */
module Pools {
  import opened Common
  import P = RpcPool

  type Outcome = Option<P.Settled>

  class Pool {
    const env: P.Env
    var failures: seq<nat>
    var restUntil: seq<int>
    var ticks: nat
    var requests: nat
    ghost var log: seq<P.Request>

    constructor (env: P.Env)
      requires env.chunks != [] && forall c :: c in env.chunks ==> c >= 1
      ensures Valid() && fresh(this) && this.env == env && log == []
    {
      this.env := env;
      failures, restUntil := seq(|env.chunks|, _ => 0), seq(|env.chunks|, _ => 0);
      ticks, requests, log := 0, 0, [];
    }

    ghost predicate Valid()
      reads this
    {
      && env.chunks != [] && (forall c :: c in env.chunks ==> c >= 1)
      && |failures| == |restUntil| == |env.chunks| && requests == |log|
    }

    ghost function View(out: seq<Outcome>, errors: map<nat, P.Failure>): P.State
      reads this
    {
      P.State(out, errors, failures, restUntil, ticks, log)
    }

    method Rest(slot: nat)
      requires Valid() && slot < |env.chunks|
      modifies this`failures, this`restUntil, this`ticks
      ensures Valid() && forall out, errors :: View(out, errors) == P.Rest(env, old(View(out, errors)), slot)
    {
      failures := failures[slot := failures[slot] + 1];
      restUntil := restUntil[slot := env.clock(ticks) + Min(P.REST_START_MS * P.Pow2(failures[slot] - 1), P.REST_MAX_MS)];
      ticks := ticks + 1;
    }

    /** Every call's answer is sorted as it settles. */
    method Sort(asks: seq<P.Ask>, slot: nat, out: array<Outcome>, lastError: map<nat, P.Failure>)
      returns (failed: seq<nat>, big: seq<nat>, errors: map<nat, P.Failure>, rested: bool)
      requires forall k :: 0 <= k < |asks| ==> asks[k].call < out.Length
      modifies out
      ensures out[..] == P.Settle(old(out[..]), asks) && errors == P.Note(lastError, slot, asks)
      ensures failed == P.Failed(asks) && big == P.Big(asks) && (rested <==> P.Rested(asks))
    {
      rested := false;
      failed, big, errors := [], [], lastError;
      for k := 0 to |asks|
        invariant out[..] == P.Settle(old(out[..]), asks[..k]) && errors == P.Note(lastError, slot, asks[..k])
        invariant failed == P.Failed(asks[..k]) && big == P.Big(asks[..k])
        invariant rested <==> P.Rested(asks[..k])
        modifies out
      {
        var ask := asks[k];
        assert asks[..k + 1][..k] == asks[..k];
        RestedSoFar(asks, k);
        match ask.answer {
          case Value(value) => out[ask.call] := Some(P.Fulfilled(value));
          case TooLarge =>
            errors := errors[ask.call := P.Failure(slot, ask.answer)];
            big := big + [ask.call];
          case _ =>
            errors := errors[ask.call := P.Failure(slot, ask.answer)];
            rested := rested || ask.answer.RateLimited? || ask.answer.Transport?;
            failed := failed + [ask.call];
        }
      }
      assert asks[..|asks|] == asks;
    }

    lemma RestedSoFar(asks: seq<P.Ask>, k: nat)
      requires k < |asks|
      ensures P.Rested(asks[..k + 1]) <==> P.Rested(asks[..k]) || asks[k].answer.RateLimited? || asks[k].answer.Transport?
    {
      assert asks[..k + 1] == asks[..k] + [asks[k]];
    }

    /** One request: every call is asked at once, and the endpoint is rested or cleared. */
    method Exchange(slot: nat, idx: seq<nat>, out: array<Outcome>, lastError: map<nat, P.Failure>)
      returns (failed: seq<nat>, big: seq<nat>, errors: map<nat, P.Failure>)
      requires Valid() && slot < |env.chunks| && P.Below(idx, out.Length)
      modifies this, out
      ensures Valid() && View(out[..], errors) == P.Exchange(env, old(View(out[..], lastError)), slot, idx)
      ensures failed == P.Failed(P.Asks(env, |old(log)|, slot, idx)) && big == P.Big(P.Asks(env, |old(log)|, slot, idx))
    {
      var asks := P.Asks(env, requests, slot, idx);
      var rested;
      failed, big, errors, rested := Sort(asks, slot, out, lastError);
      requests := requests + 1;
      log := log + [P.Request(slot, asks)];
      if rested {
        Rest(slot);
      } else {
        failures, restUntil := failures[slot := 0], restUntil[slot := 0];
      }
    }

    method Send(slot: nat, idx: seq<nat>, out: array<Outcome>, lastError: map<nat, P.Failure>)
      returns (left: seq<nat>, errors: map<nat, P.Failure>)
      requires Valid() && slot < |env.chunks| && P.Below(idx, out.Length)
      modifies this, out
      ensures Valid() && (View(out[..], errors), left) == P.Send(env, old(View(out[..], lastError)), slot, idx)
      decreases |idx|, 1
    {
      P.SplitBelow(P.Asks(env, |log|, slot, idx), out.Length);
      var big;
      left, big, errors := Exchange(slot, idx, out, lastError);
      if big == [] { return; }
      if |big| == 1 {
        out[big[0]] := Some(P.Rejected(if big[0] in errors then Some(errors[big[0]]) else None));
        return;
      }
      var more;
      more, errors := SendHalves(slot, big, out, errors);
      left := left + more;
    }

    method SendHalves(slot: nat, big: seq<nat>, out: array<Outcome>, lastError: map<nat, P.Failure>)
      returns (left: seq<nat>, errors: map<nat, P.Failure>)
      requires Valid() && slot < |env.chunks| && P.Below(big, out.Length) && |big| > 1
      modifies this, out
      ensures Valid() && (View(out[..], errors), left) == P.SendHalves(env, old(View(out[..], lastError)), slot, big)
      decreases |big|, 0
    {
      var half := (|big| + 1) / 2;
      var first, second;
      first, errors := Send(slot, big[..half], out, lastError);
      second, errors := Send(slot, big[half..], out, errors);
      left := first + second;
    }

    /** The inner loop of `#chunk`: the pending calls, in slices the endpoint takes. */
    method SendAll(slot: nat, pending: seq<nat>, out: array<Outcome>, lastError: map<nat, P.Failure>)
      returns (left: seq<nat>, errors: map<nat, P.Failure>)
      requires Valid() && slot < |env.chunks| && P.Below(pending, out.Length)
      modifies this, out
      ensures Valid() && (View(out[..], errors), left) == P.SendAll(env, old(View(out[..], lastError)), slot, pending)
    {
      ghost var whole := P.SendAll(env, View(out[..], lastError), slot, pending);
      left, errors := [], lastError;
      var k := 0;
      assert pending[0..] == pending && [] + whole.1 == whole.1 && Joined([], whole) == whole;
      while k < |pending|
        invariant 0 <= k <= |pending| && Valid()
        invariant whole == Joined(left, P.SendAll(env, View(out[..], errors), slot, pending[k..]))
        decreases |pending| - k
        modifies this, out
      {
        var end := Min(k + env.chunks[slot], |pending|);
        ghost var s := View(out[..], errors);
        SendAllTurn(s, slot, pending, k, end, left);
        var more;
        more, errors := Send(slot, pending[k..end], out, errors);
        left := left + more;
        k := end;
      }
      assert pending[k..] == [] && left + [] == left;
      assert P.SendAll(env, View(out[..], errors), slot, []) == (View(out[..], errors), []);
      assert whole == (View(out[..], errors), left);
    }

    ghost function Joined(left: seq<nat>, rest: (P.State, seq<nat>)): (P.State, seq<nat>) {
      (rest.0, left + rest.1)
    }

    /** One slice of `SendAll`, then the rest. */
    lemma SendAllTurn(s: P.State, slot: nat, pending: seq<nat>, k: nat, end: nat, left: seq<nat>)
      requires P.ValidState(env, s) && slot < |env.chunks| && P.Below(pending, |s.out|)
      requires k < |pending| && end == Min(k + env.chunks[slot], |pending|)
      ensures k < end && P.Below(pending[k..end], |s.out|)
      ensures var sent := P.Send(env, s, slot, pending[k..end]);
              Joined(left, P.SendAll(env, s, slot, pending[k..])) == Joined(left + sent.1, P.SendAll(env, sent.0, slot, pending[end..]))
    {
      assert env.chunks[slot] in env.chunks;
      var sent := P.Send(env, s, slot, pending[k..end]);
      assert pending[k..][..end - k] == pending[k..end] && pending[k..][end - k..] == pending[end..];
      var rest := P.SendAll(env, sent.0, slot, pending[end..]);
      assert P.SendAll(env, s, slot, pending[k..]) == (rest.0, sent.1 + rest.1);
      assert left + (sent.1 + rest.1) == (left + sent.1) + rest.1;
    }

    /** `#pick`. */
    method Pick(tried: set<nat>) returns (slot: Option<nat>)
      requires Valid()
      modifies this`ticks
      ensures Valid() && forall out: seq<Outcome>, errors: map<nat, P.Failure> ::
                View(out, errors) == P.Looked(old(View(out, errors)))
      ensures forall s: P.State :: s.restUntil == old(restUntil) && s.ticks == old(ticks) ==> slot == P.Pick(env, s, tried)
    {
      ghost var s := View([], map[]);
      var now := env.clock(ticks);
      ticks := ticks + 1;
      var i := 0;
      while i < |restUntil|
        invariant 0 <= i <= |restUntil|
        invariant P.FirstOpen(s, tried, now, 0) == P.FirstOpen(s, tried, now, i)
      {
        if i !in tried && restUntil[i] <= now {
          SamePick(s, tried);
          return Some(i);
        }
        i := i + 1;
      }
      slot := None;
      for j := 0 to |restUntil|
        invariant slot == P.Soonest(s, tried, j)
      {
        if !(j in tried || (slot.Some? && restUntil[slot.value] <= restUntil[j])) { slot := Some(j); }
      }
      SamePick(s, tried);
    }

    /** What is picked depends on the rests and the clock alone. */
    lemma SamePick(s: P.State, tried: set<nat>)
      ensures forall s': P.State :: s'.restUntil == s.restUntil && s'.ticks == s.ticks ==> P.Pick(env, s', tried) == P.Pick(env, s, tried)
    {
      forall s': P.State | s'.restUntil == s.restUntil && s'.ticks == s.ticks
        ensures P.Pick(env, s', tried) == P.Pick(env, s, tried)
      {
        SameOpen(s, s', tried, env.clock(s.ticks), 0);
        SameSoonest(s, s', tried, |s.restUntil|);
      }
    }

    lemma {:induction false} SameOpen(s: P.State, s': P.State, tried: set<nat>, now: int, from: nat)
      requires s.restUntil == s'.restUntil && from <= |s.restUntil|
      ensures P.FirstOpen(s', tried, now, from) == P.FirstOpen(s, tried, now, from)
      decreases |s.restUntil| - from
    {
      if from < |s.restUntil| { SameOpen(s, s', tried, now, from + 1); }
    }

    lemma {:induction false} SameSoonest(s: P.State, s': P.State, tried: set<nat>, upTo: nat)
      requires s.restUntil == s'.restUntil && upTo <= |s.restUntil|
      ensures P.Soonest(s', tried, upTo) == P.Soonest(s, tried, upTo)
    {
      if upTo > 0 { SameSoonest(s, s', tried, upTo - 1); }
    }

    method Chunk(idx: seq<nat>, out: array<Outcome>, ghost before: map<nat, P.Failure>) returns (errors: map<nat, P.Failure>)
      requires Valid() && P.Below(idx, out.Length)
      modifies this, out
      ensures Valid() && View(out[..], errors) == P.Chunk(env, old(View(out[..], before)), idx)
    {
      var pending;
      pending, errors := FallThrough(idx, out);
      RejectRest(pending, out, errors);
    }

    /** Endpoint after endpoint, until nothing is pending or all were tried. */
    method FallThrough(idx: seq<nat>, out: array<Outcome>) returns (pending: seq<nat>, errors: map<nat, P.Failure>)
      requires Valid() && P.Below(idx, out.Length)
      modifies this, out
      ensures Valid() && P.Below(pending, out.Length)
      ensures (View(out[..], errors), pending) == P.Fall(env, old(View(out[..], map[])), idx, {})
    {
      ghost var whole := P.Fall(env, View(out[..], map[]), idx, {});
      var tried: set<nat>;
      pending, tried, errors := idx, {}, map[];
      while pending != []
        invariant Valid() && P.Below(pending, out.Length)
        invariant whole == P.Fall(env, View(out[..], errors), pending, tried)
        decreases P.Untried(|env.chunks|, tried)
        modifies this, out
      {
        P.PickOrder(env, View(out[..], errors), tried);
        var slot := Pick(tried);
        if slot == None { return; }
        P.TriedShrinks(tried, slot.value, |env.chunks|);
        tried := tried + {slot.value};
        pending, errors := SendAll(slot.value, pending, out, errors);
      }
    }

    /** Every endpoint was tried: what is still pending is rejected with its last error. */
    method RejectRest(pending: seq<nat>, out: array<Outcome>, errors: map<nat, P.Failure>)
      requires Valid() && P.Below(pending, out.Length)
      modifies out
      ensures Valid() && View(out[..], errors) == P.RejectAll(old(View(out[..], errors)), pending)
    {
      for k := 0 to |pending|
        invariant Valid() && View(out[..], errors) == P.RejectAll(old(View(out[..], errors)), pending[..k])
        modifies out
      {
        assert pending[..k + 1][..k] == pending[..k];
        out[pending[k]] := Some(P.Rejected(if pending[k] in errors then Some(errors[pending[k]]) else None));
      }
      assert pending[..|pending|] == pending;
    }

    /** `#all`: an outcome for each of `n` calls. */
    method All(n: nat) returns (out: array<Outcome>, ghost errors: map<nat, P.Failure>)
      requires Valid()
      modifies this
      ensures Valid() && fresh(out) && out.Length == n
      ensures View(out[..], errors) == P.All(env, old(View(seq(n, _ => None), map[])), 0)
    {
      out := new Outcome[n](_ => None);
      assert out[..] == seq(n, _ => None);
      errors := Fill(out, map[]);
    }

    /** The loop over chunks. */
    method Fill(out: array<Outcome>, ghost before: map<nat, P.Failure>) returns (ghost errors: map<nat, P.Failure>)
      requires Valid()
      modifies this, out
      ensures Valid() && View(out[..], errors) == P.All(env, old(View(out[..], before)), 0)
    {
      errors := before;
      ghost var whole := P.All(env, View(out[..], errors), 0);
      var start := 0;
      while start < out.Length
        invariant 0 <= start <= out.Length && Valid()
        invariant whole == P.All(env, View(out[..], errors), start)
        modifies this, out
      {
        var end := Min(start + env.chunks[0], out.Length);
        AllTurn(View(out[..], errors), start);
        errors := Chunk(P.Indices(start, end), out, errors);
        start := end;
      }
    }

    lemma AllTurn(s: P.State, start: nat)
      requires P.ValidState(env, s) && start < |s.out|
      ensures var end := P.ChunkEnd(env, s, start);
              && end == Min(start + env.chunks[0], |s.out|) && P.Below(P.Indices(start, end), |s.out|)
              && P.All(env, s, start) == P.All(env, P.Chunk(env, s, P.Indices(start, end)), end)
    {
    }
  }
}
