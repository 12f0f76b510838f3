/**
 The insight loop's RPC pool (packages/worker/src/rpcpool.ts): calls go out in chunks to endpoints in
 order; what one endpoint does not answer falls through to the next, and a chunk whose reply is too
 large is halved where it is.

 What the endpoints and the clock answer is fixed in advance by an environment: `reply` by the request's
 number, the endpoint and the call, `clock` by how often it was read. `log` is history: every request
 sent, with each call's answer.
 */
module RpcPool {
  import opened Common

  const REST_START_MS: nat := 5000
  const REST_MAX_MS: nat := 60000

  datatype Answer = Value(value: string) | RateLimited | TooLarge | Transport | Refused

  datatype Failure = Failure(slot: nat, answer: Answer)

  /** A settled promise; a rejection without a reason is "no endpoint answered". */
  datatype Settled = Fulfilled(value: string) | Rejected(reason: Option<Failure>)

  datatype Ask = Ask(call: nat, answer: Answer)

  datatype Request = Request(slot: nat, asks: seq<Ask>)

  datatype Env = Env(chunks: seq<nat>, reply: (nat, nat, nat) -> Answer, clock: nat -> int)

  datatype State = State(
    out: seq<Option<Settled>>,
    lastError: map<nat, Failure>,
    failures: seq<nat>,
    restUntil: seq<int>,
    ticks: nat,
    log: seq<Request>)

  function Asks(env: Env, request: nat, slot: nat, idx: seq<nat>): (asks: seq<Ask>)
    ensures |asks| == |idx| && forall k :: 0 <= k < |idx| ==> asks[k].call == idx[k]
  {
    seq(|idx|, k requires 0 <= k < |idx| => Ask(idx[k], env.reply(request, slot, idx[k])))
  }

  /** The calls too large for their reply. */
  function Big(asks: seq<Ask>): seq<nat> {
    if asks == [] then []
    else Big(asks[..|asks| - 1]) + if asks[|asks| - 1].answer.TooLarge? then [asks[|asks| - 1].call] else []
  }

  /** The other calls that were not answered. */
  function Failed(asks: seq<Ask>): seq<nat> {
    if asks == [] then []
    else
      var last := asks[|asks| - 1];
      Failed(asks[..|asks| - 1]) + if last.answer.TooLarge? || last.answer.Value? then [] else [last.call]
  }

  function Settle(out: seq<Option<Settled>>, asks: seq<Ask>): (settled: seq<Option<Settled>>)
    requires forall k :: 0 <= k < |asks| ==> asks[k].call < |out|
    ensures |settled| == |out|
  {
    if asks == [] then out
    else
      var last := asks[|asks| - 1];
      var before := Settle(out, asks[..|asks| - 1]);
      if last.answer.Value? then before[last.call := Some(Fulfilled(last.answer.value))] else before
  }

  function Note(lastError: map<nat, Failure>, slot: nat, asks: seq<Ask>): map<nat, Failure> {
    if asks == [] then lastError
    else
      var last := asks[|asks| - 1];
      var before := Note(lastError, slot, asks[..|asks| - 1]);
      if last.answer.Value? then before else before[last.call := Failure(slot, last.answer)]
  }

  function Pow2(n: nat): nat {
    if n == 0 then 1 else 2 * Pow2(n - 1)
  }

  predicate Below(idx: seq<nat>, n: nat) {
    forall k :: 0 <= k < |idx| ==> idx[k] < n
  }

  predicate ValidState(env: Env, s: State) {
    && env.chunks != [] && (forall c :: c in env.chunks ==> c >= 1)
    && |s.failures| == |s.restUntil| == |env.chunks|
  }

  /** `#rest`: twice as long for each failure in a row, up to a minute. */
  function Rest(env: Env, s: State, slot: nat): State
    requires ValidState(env, s) && slot < |env.chunks|
  {
    var failures := s.failures[slot] + 1;
    s.(failures := s.failures[slot := failures], ticks := s.ticks + 1,
       restUntil := s.restUntil[slot := env.clock(s.ticks) + Min(REST_START_MS * Pow2(failures - 1), REST_MAX_MS)])
  }

  predicate Rested(asks: seq<Ask>) {
    exists a :: a in asks && (a.answer.RateLimited? || a.answer.Transport?)
  }

  /** One request, before any halving: answers delivered, errors noted, the endpoint rested or cleared. */
  function Exchange(env: Env, s: State, slot: nat, idx: seq<nat>): State
    requires ValidState(env, s) && slot < |env.chunks| && Below(idx, |s.out|)
  {
    var asks := Asks(env, |s.log|, slot, idx);
    var s1 := s.(out := Settle(s.out, asks), lastError := Note(s.lastError, slot, asks), log := s.log + [Request(slot, asks)]);
    if Rested(asks) then Rest(env, s1, slot)
    else s1.(failures := s1.failures[slot := 0], restUntil := s1.restUntil[slot := 0])
  }

  lemma {:induction false} BigMembers(asks: seq<Ask>)
    ensures forall i :: i in Big(asks) <==> exists a :: a in asks && a.call == i && a.answer.TooLarge?
  {
    if asks != [] {
      var init, last := asks[..|asks| - 1], asks[|asks| - 1];
      assert asks == init + [last];
      BigMembers(init);
    }
  }

  /** What is too large and what failed are among the calls asked. */
  lemma {:induction false} SplitBelow(asks: seq<Ask>, n: nat)
    requires forall k :: 0 <= k < |asks| ==> asks[k].call < n
    ensures Below(Big(asks), n) && Below(Failed(asks), n) && |Big(asks)| <= |asks|
  {
    if asks != [] {
      SplitBelow(asks[..|asks| - 1], n);
    }
  }

  /** The only call too large is rejected. */
  function RejectBig(s: State, big: seq<nat>): (s': State)
    requires Below(big, |s.out|)
    ensures |s'.out| == |s.out| && s'.failures == s.failures && s'.restUntil == s.restUntil
  {
    if big == [] then s
    else s.(out := s.out[big[0] := Some(Rejected(if big[0] in s.lastError then Some(s.lastError[big[0]]) else None))])
  }

  /** `#send`: the calls the endpoint did not answer. */
  function Send(env: Env, s: State, slot: nat, idx: seq<nat>): (result: (State, seq<nat>))
    requires ValidState(env, s) && slot < |env.chunks| && Below(idx, |s.out|)
    ensures ValidState(env, result.0) && |result.0.out| == |s.out| && Below(result.1, |s.out|)
    decreases |idx|, 1
  {
    var asks := Asks(env, |s.log|, slot, idx);
    var s1 := Exchange(env, s, slot, idx);
    var failed, big := Failed(asks), Big(asks);
    SplitBelow(asks, |s.out|);
    if |big| <= 1 then (RejectBig(s1, big), failed)
    else
      var rest := SendHalves(env, s1, slot, big);
      (rest.0, failed + rest.1)
  }

  /** Calls too large together: no endpoint does better with them, so each half is sent again here. */
  function SendHalves(env: Env, s: State, slot: nat, big: seq<nat>): (result: (State, seq<nat>))
    requires ValidState(env, s) && slot < |env.chunks| && Below(big, |s.out|) && |big| > 1
    ensures ValidState(env, result.0) && |result.0.out| == |s.out| && Below(result.1, |s.out|)
    decreases |big|, 0
  {
    var half := (|big| + 1) / 2;
    var first := Send(env, s, slot, big[..half]);
    var second := Send(env, first.0, slot, big[half..]);
    (second.0, first.1 + second.1)
  }

  /** The slices of `#chunk`: each at most the endpoint's chunk, sent one after the other. */
  function SendAll(env: Env, s: State, slot: nat, pending: seq<nat>): (result: (State, seq<nat>))
    requires ValidState(env, s) && slot < |env.chunks| && Below(pending, |s.out|)
    ensures ValidState(env, result.0) && |result.0.out| == |s.out| && Below(result.1, |s.out|)
    decreases |pending|
  {
    if pending == [] then (s, [])
    else
      assert env.chunks[slot] in env.chunks;
      var n := Min(env.chunks[slot], |pending|);
      var first := Send(env, s, slot, pending[..n]);
      var rest := SendAll(env, first.0, slot, pending[n..]);
      (rest.0, first.1 + rest.1)
  }

  // ----- which endpoint is next ------------------------------------------------------------------

  /** The first endpoint at or after `from` that is untried and not resting at `now`. */
  function FirstOpen(s: State, tried: set<nat>, now: int, from: nat): Option<nat>
    requires from <= |s.restUntil|
    decreases |s.restUntil| - from
  {
    if from == |s.restUntil| then None
    else if from !in tried && s.restUntil[from] <= now then Some(from)
    else FirstOpen(s, tried, now, from + 1)
  }

  /** Of the untried endpoints before `upTo`, the first of those whose rest ends soonest. */
  function Soonest(s: State, tried: set<nat>, upTo: nat): Option<nat>
    requires upTo <= |s.restUntil|
    ensures Soonest(s, tried, upTo).Some? ==> Soonest(s, tried, upTo).value < upTo
  {
    if upTo == 0 then None
    else
      var best := Soonest(s, tried, upTo - 1);
      if upTo - 1 in tried || (best.Some? && s.restUntil[best.value] <= s.restUntil[upTo - 1]) then best else Some(upTo - 1)
  }

  function Pick(env: Env, s: State, tried: set<nat>): Option<nat> {
    var open := FirstOpen(s, tried, env.clock(s.ticks), 0);
    if open.Some? then open else Soonest(s, tried, |s.restUntil|)
  }

  lemma {:induction false} FirstOpenIsFirst(s: State, tried: set<nat>, now: int, from: nat)
    requires from <= |s.restUntil|
    ensures var r := FirstOpen(s, tried, now, from);
            && (r.Some? ==> from <= r.value < |s.restUntil| && r.value !in tried && s.restUntil[r.value] <= now)
            && (forall i :: from <= i < (if r.Some? then r.value else |s.restUntil|) ==> i in tried || s.restUntil[i] > now)
    decreases |s.restUntil| - from
  {
    if from < |s.restUntil| { FirstOpenIsFirst(s, tried, now, from + 1); }
  }

  lemma {:induction false} SoonestIsSoonest(s: State, tried: set<nat>, upTo: nat)
    requires upTo <= |s.restUntil|
    ensures var r := Soonest(s, tried, upTo);
            && (r.Some? ==> r.value !in tried && forall i :: 0 <= i < upTo && i !in tried ==>
                  s.restUntil[r.value] < s.restUntil[i] || (s.restUntil[r.value] == s.restUntil[i] && r.value <= i))
            && (r.None? ==> forall i :: 0 <= i < upTo ==> i in tried)
  {
    if upTo > 0 { SoonestIsSoonest(s, tried, upTo - 1); }
  }

  /** The first untried endpoint not resting; when every untried one rests, the first of those whose rest ends soonest. */
  ghost predicate Best(env: Env, s: State, tried: set<nat>, slot: nat) {
    var now := env.clock(s.ticks);
    && slot < |s.restUntil| && slot !in tried
    && (s.restUntil[slot] <= now ==> forall i :: 0 <= i < slot ==> i in tried || s.restUntil[i] > now)
    && (s.restUntil[slot] > now ==> forall i :: 0 <= i < |s.restUntil| && i !in tried ==>
          s.restUntil[i] > now && (s.restUntil[slot] < s.restUntil[i] || (s.restUntil[slot] == s.restUntil[i] && slot <= i)))
  }

  /** An endpoint is picked as long as one is untried, and it is the best. */
  lemma PickOrder(env: Env, s: State, tried: set<nat>)
    ensures Pick(env, s, tried).None? <==> forall i :: 0 <= i < |s.restUntil| ==> i in tried
    ensures Pick(env, s, tried).Some? ==> Best(env, s, tried, Pick(env, s, tried).value)
  {
    FirstOpenIsFirst(s, tried, env.clock(s.ticks), 0);
    SoonestIsSoonest(s, tried, |s.restUntil|);
  }

  // ----- a chunk, and all calls ------------------------------------------------------------------

  function Untried(n: nat, tried: set<nat>): set<nat> {
    set i: nat | i < n && i !in tried
  }

  lemma TriedShrinks(tried: set<nat>, slot: nat, n: nat)
    requires slot < n && slot !in tried
    ensures Untried(n, tried + {slot}) < Untried(n, tried)
  {
    assert slot in Untried(n, tried) && slot !in Untried(n, tried + {slot});
  }

  /** Endpoint after endpoint until nothing is pending or all were tried: what is left. */
  function Fall(env: Env, s: State, pending: seq<nat>, tried: set<nat>): (result: (State, seq<nat>))
    requires ValidState(env, s) && Below(pending, |s.out|)
    ensures ValidState(env, result.0) && |result.0.out| == |s.out|
    ensures Below(result.1, |s.out|)
    decreases Untried(|env.chunks|, tried)
  {
    if pending == [] then (s, [])
    else
      var slot := Pick(env, s, tried);
      PickOrder(env, s, tried);
      if slot.None? then (Looked(s), pending)
      else
        TriedShrinks(tried, slot.value, |env.chunks|);
        var sent := SendAll(env, Looked(s), slot.value, pending);
        Fall(env, sent.0, sent.1, tried + {slot.value})
  }

  /** The clock was read. */
  function Looked(s: State): State {
    s.(ticks := s.ticks + 1)
  }

  /** Every endpoint was tried: what is still pending is rejected with its last error. */
  function RejectAll(s: State, pending: seq<nat>): (s': State)
    requires Below(pending, |s.out|)
    ensures |s'.out| == |s.out| && s'.failures == s.failures && s'.restUntil == s.restUntil
  {
    if pending == [] then s
    else
      var i := pending[|pending| - 1];
      var before := RejectAll(s, pending[..|pending| - 1]);
      before.(out := before.out[i := Some(Rejected(if i in s.lastError then Some(s.lastError[i]) else None))])
  }

  /** `#chunk`. */
  function Chunk(env: Env, s: State, idx: seq<nat>): (s': State)
    requires ValidState(env, s) && Below(idx, |s.out|)
    ensures ValidState(env, s') && |s'.out| == |s.out|
  {
    var fallen := Fall(env, s.(lastError := map[]), idx, {});
    RejectAll(fallen.0, fallen.1)
  }

  function Indices(start: nat, end: nat): (idx: seq<nat>)
    requires start <= end
    ensures |idx| == end - start && forall k :: 0 <= k < |idx| ==> idx[k] == start + k
  {
    seq(end - start, k requires 0 <= k < end - start => start + k)
  }

  function ChunkEnd(env: Env, s: State, start: nat): (end: nat)
    requires ValidState(env, s) && start < |s.out|
    ensures start < end <= |s.out|
  {
    assert env.chunks[0] in env.chunks;
    Min(start + env.chunks[0], |s.out|)
  }

  /** `#all` from call `start` on: chunks cut to the first endpoint's size. */
  function All(env: Env, s: State, start: nat): (s': State)
    requires ValidState(env, s) && start <= |s.out|
    ensures ValidState(env, s') && |s'.out| == |s.out|
    decreases |s.out| - start
  {
    if start == |s.out| then s else All(env, Chunk(env, s, Indices(start, ChunkEnd(env, s, start))), ChunkEnd(env, s, start))
  }

  // ----- what the history shows ------------------------------------------------------------------

  function CallsOf(asks: seq<Ask>): (calls: seq<nat>)
    ensures |calls| == |asks|
  {
    seq(|asks|, k requires 0 <= k < |asks| => asks[k].call)
  }

  /** How many requests put call `i` to endpoint `slot`. */
  function Count(log: seq<Request>, slot: nat, i: nat): nat {
    if log == [] then 0
    else
      var last := log[|log| - 1];
      Count(log[..|log| - 1], slot, i) + if last.slot == slot && i in CallsOf(last.asks) then 1 else 0
  }

  /** Endpoint `slot` was asked call `i` and answered `answer`. */
  ghost predicate Answered(log: seq<Request>, slot: nat, i: nat, answer: Answer) {
    exists k :: 0 <= k < |log| && log[k].slot == slot && Ask(i, answer) in log[k].asks
  }

  ghost predicate Unanswered(log: seq<Request>, slot: nat, i: nat) {
    exists answer :: Answered(log, slot, i, answer) && !answer.Value?
  }

  /** In some request, call `i` was the only one too large. */
  ghost predicate LargestAlone(log: seq<Request>, i: nat) {
    exists k :: 0 <= k < |log| && Big(log[k].asks) == [i]
  }

  /** The outcome is the call's own answer, or its own last error once no endpoint is left to ask or it is too large. */
  ghost predicate Justified(env: Env, log: seq<Request>, i: nat, settled: Settled) {
    match settled
    case Fulfilled(value) => exists slot :: Answered(log, slot, i, Value(value))
    case Rejected(reason) =>
      && reason.Some? && !reason.value.answer.Value? && Answered(log, reason.value.slot, i, reason.value.answer)
      && (LargestAlone(log, i) || forall slot :: 0 <= slot < |env.chunks| ==> Unanswered(log, slot, i))
  }

  lemma AnsweredGrows(log: seq<Request>, more: seq<Request>, slot: nat, i: nat, answer: Answer)
    requires log <= more && Answered(log, slot, i, answer)
    ensures Answered(more, slot, i, answer)
  {
    var k :| 0 <= k < |log| && log[k].slot == slot && Ask(i, answer) in log[k].asks;
    assert more[k] == log[k];
  }

  lemma UnansweredGrows(log: seq<Request>, more: seq<Request>, slot: nat, i: nat)
    requires log <= more && Unanswered(log, slot, i)
    ensures Unanswered(more, slot, i)
  {
    var answer :| Answered(log, slot, i, answer) && !answer.Value?;
    AnsweredGrows(log, more, slot, i, answer);
  }

  lemma JustifiedGrows(env: Env, log: seq<Request>, more: seq<Request>, i: nat, settled: Settled)
    requires log <= more && Justified(env, log, i, settled)
    ensures Justified(env, more, i, settled)
  {
    match settled {
      case Fulfilled(value) =>
        var slot :| Answered(log, slot, i, Value(value));
        AnsweredGrows(log, more, slot, i, Value(value));
      case Rejected(reason) =>
        AnsweredGrows(log, more, reason.value.slot, i, reason.value.answer);
        if k :| 0 <= k < |log| && Big(log[k].asks) == [i] {
          assert more[k] == log[k];
        } else {
          forall slot | 0 <= slot < |env.chunks|
            ensures Unanswered(more, slot, i)
          {
            UnansweredGrows(log, more, slot, i);
          }
        }
    }
  }

  // ----- one call in one request -----------------------------------------------------------------

  function AnswerTo(asks: seq<Ask>, i: nat): Option<Answer> {
    if asks == [] then None
    else if asks[|asks| - 1].call == i then Some(asks[|asks| - 1].answer)
    else AnswerTo(asks[..|asks| - 1], i)
  }

  lemma {:induction false} AnswerIsAsked(asks: seq<Ask>, i: nat)
    ensures AnswerTo(asks, i).None? <==> i !in CallsOf(asks)
    ensures AnswerTo(asks, i).Some? ==> Ask(i, AnswerTo(asks, i).value) in asks
  {
    if asks != [] {
      var init, last := asks[..|asks| - 1], asks[|asks| - 1];
      assert asks == init + [last] && CallsOf(asks) == CallsOf(init) + [last.call];
      AnswerIsAsked(init, i);
    }
  }

  predicate Sorted(asks: seq<Ask>, i: nat) {
    var answer := AnswerTo(asks, i);
    && multiset(Big(asks))[i] == (if answer == Some(TooLarge) then 1 else 0)
    && multiset(Failed(asks))[i] == (if answer.Some? && !answer.value.TooLarge? && !answer.value.Value? then 1 else 0)
  }

  lemma {:induction false} SortedOnce(asks: seq<Ask>, i: nat)
    requires multiset(CallsOf(asks))[i] <= 1
    ensures Sorted(asks, i)
  {
    if asks != [] {
      var init, last := asks[..|asks| - 1], asks[|asks| - 1];
      assert asks == init + [last] && CallsOf(asks) == CallsOf(init) + [last.call];
      AnswerIsAsked(init, i);
      SortedOnce(init, i);
      SplitLast(init, last, i);
    }
  }

  /** The last call of a request is sorted by its own answer. */
  lemma SplitLast(init: seq<Ask>, last: Ask, i: nat)
    ensures multiset(Big(init + [last]))[i] == multiset(Big(init))[i] + (if last.call == i && last.answer.TooLarge? then 1 else 0)
    ensures multiset(Failed(init + [last]))[i]
         == multiset(Failed(init))[i] + (if last.call == i && !last.answer.TooLarge? && !last.answer.Value? then 1 else 0)
  {
    assert (init + [last])[..|init|] == init;
  }

  /** Asked once, a call is delivered, noted, and sorted by its one answer. */
  lemma OneAnswer(asks: seq<Ask>, i: nat)
    requires multiset(CallsOf(asks))[i] <= 1
    ensures AnswerTo(asks, i).None? <==> i !in CallsOf(asks)
    ensures AnswerTo(asks, i).Some? ==> Ask(i, AnswerTo(asks, i).value) in asks
    ensures multiset(Big(asks))[i] == if AnswerTo(asks, i) == Some(TooLarge) then 1 else 0
    ensures multiset(Failed(asks))[i] ==
              if AnswerTo(asks, i).Some? && !AnswerTo(asks, i).value.TooLarge? && !AnswerTo(asks, i).value.Value? then 1 else 0
  {
    AnswerIsAsked(asks, i);
    SortedOnce(asks, i);
  }

  lemma {:induction false} OneDelivery(out: seq<Option<Settled>>, lastError: map<nat, Failure>, slot: nat, asks: seq<Ask>, i: nat)
    requires multiset(CallsOf(asks))[i] <= 1 && i < |out|
    requires forall k :: 0 <= k < |asks| ==> asks[k].call < |out|
    ensures var answer := AnswerTo(asks, i);
            && Settle(out, asks)[i] == (if answer.Some? && answer.value.Value? then Some(Fulfilled(answer.value.value)) else out[i])
            && (if answer.Some? && !answer.value.Value?
                then i in Note(lastError, slot, asks) && Note(lastError, slot, asks)[i] == Failure(slot, answer.value)
                else (i in Note(lastError, slot, asks) <==> i in lastError) &&
                     (i in lastError ==> Note(lastError, slot, asks)[i] == lastError[i]))
  {
    if asks != [] {
      var init, last := asks[..|asks| - 1], asks[|asks| - 1];
      assert asks == init + [last] && CallsOf(asks) == CallsOf(init) + [last.call];
      OneDelivery(out, lastError, slot, init, i);
      if last.call == i { OneAnswer(init, i); }
    }
  }

  function CeilLog2(n: nat): nat {
    if n <= 1 then 0 else 1 + CeilLog2((n + 1) / 2)
  }

  lemma {:induction false} CeilLog2Grows(a: nat, b: nat)
    requires a <= b
    ensures CeilLog2(a) <= CeilLog2(b)
    decreases b
  {
    if a > 1 { CeilLog2Grows((a + 1) / 2, (b + 1) / 2); }
  }

  /** What sending a list of calls may do to call `i`. */
  ghost predicate SentTo(env: Env, s: State, slot: nat, i: nat, asked: bool, s': State, left: seq<nat>, limit: nat)
    requires i < |s.out| == |s'.out|
  {
    && s.log <= s'.log
    && multiset(left)[i] <= (if asked then 1 else 0)
    && (i in left || !asked ==> s'.out[i] == s.out[i])
    && (!asked ==> (i in s'.lastError <==> i in s.lastError) && (i in s.lastError ==> s'.lastError[i] == s.lastError[i]))
    && (i in left ==> Unanswered(s'.log, slot, i) && i in s'.lastError && !s'.lastError[i].answer.Value? &&
                      Answered(s'.log, s'.lastError[i].slot, i, s'.lastError[i].answer))
    && (asked && i !in left ==> s'.out[i].Some? && Justified(env, s'.log, i, s'.out[i].value))
    && (forall other :: 0 <= other < |env.chunks| ==>
          Count(s'.log, other, i) <= Count(s.log, other, i) + if asked && other == slot then limit else 0)
  }

  /** A request joins the history and asks what it asks once. */
  lemma ExchangeLog(env: Env, s: State, slot: nat, idx: seq<nat>, i: nat)
    requires ValidState(env, s) && slot < |env.chunks| && Below(idx, |s.out|)
    ensures var asks, s1 := Asks(env, |s.log|, slot, idx), Exchange(env, s, slot, idx);
            && s1.log == s.log + [Request(slot, asks)] && s1.log[|s.log|] == Request(slot, asks)
            && CallsOf(asks) == idx
    ensures forall other :: 0 <= other < |env.chunks| ==>
              Count(Exchange(env, s, slot, idx).log, other, i) == Count(s.log, other, i) + if i in idx && other == slot then 1 else 0
  {
    var asks, s1 := Asks(env, |s.log|, slot, idx), Exchange(env, s, slot, idx);
    assert CallsOf(asks) == idx;
    assert s1.log[..|s1.log| - 1] == s.log && s1.log[|s.log|] == Request(slot, asks);
  }

  lemma ExchangeOf(env: Env, s: State, slot: nat, idx: seq<nat>, i: nat)
    requires ValidState(env, s) && slot < |env.chunks| && Below(idx, |s.out|) && i < |s.out|
    requires multiset(idx)[i] <= 1
    ensures var asks, s1 := Asks(env, |s.log|, slot, idx), Exchange(env, s, slot, idx);
            var answer := AnswerTo(asks, i);
            && (answer.None? <==> i !in idx)
            && multiset(Big(asks))[i] == (if answer == Some(TooLarge) then 1 else 0)
            && multiset(Failed(asks))[i] == (if answer.Some? && !answer.value.TooLarge? && !answer.value.Value? then 1 else 0)
            && s1.out[i] == (if answer.Some? && answer.value.Value? then Some(Fulfilled(answer.value.value)) else s.out[i])
            && (if answer.Some? && !answer.value.Value? then i in s1.lastError && s1.lastError[i] == Failure(slot, answer.value)
                else (i in s1.lastError <==> i in s.lastError) && (i in s.lastError ==> s1.lastError[i] == s.lastError[i]))
            && (answer.Some? ==> Answered(s1.log, slot, i, answer.value))
            && s.log <= s1.log
            && (forall other :: 0 <= other < |env.chunks| ==>
                  Count(s1.log, other, i) == Count(s.log, other, i) + if i in idx && other == slot then 1 else 0)
  {
    var asks, s1 := Asks(env, |s.log|, slot, idx), Exchange(env, s, slot, idx);
    ExchangeLog(env, s, slot, idx, i);
    OneAnswer(asks, i);
    OneDelivery(s.out, s.lastError, slot, asks, i);
  }

  ghost predicate Distinct(idx: seq<nat>) {
    forall i: nat :: multiset(idx)[i] <= 1
  }

  lemma HalvesDistinct(idx: seq<nat>, n: nat)
    requires Distinct(idx) && n <= |idx|
    ensures Distinct(idx[..n]) && Distinct(idx[n..])
    ensures forall i: nat :: i in idx <==> i in idx[..n] || i in idx[n..]
    ensures forall i: nat :: !(i in idx[..n] && i in idx[n..])
  {
    var a: seq<nat>, b: seq<nat> := idx[..n], idx[n..];
    assert idx == a + b;
    forall i: nat
      ensures multiset(a)[i] <= 1 && multiset(b)[i] <= 1 && !(i in a && i in b)
    {
      assert multiset(a)[i] + multiset(b)[i] == multiset(idx)[i] <= 1;
      assert (i in a <==> multiset(a)[i] > 0) && (i in b <==> multiset(b)[i] > 0);
    }
  }

  lemma BigDistinct(env: Env, s: State, slot: nat, idx: seq<nat>)
    requires ValidState(env, s) && slot < |env.chunks| && Below(idx, |s.out|) && Distinct(idx)
    ensures Distinct(Big(Asks(env, |s.log|, slot, idx)))
  {
    var asks := Asks(env, |s.log|, slot, idx);
    assert CallsOf(asks) == idx;
    forall i: nat
      ensures multiset(Big(asks))[i] <= 1
    {
      assert multiset(CallsOf(asks))[i] <= 1;
      OneAnswer(asks, i);
    }
  }

  /** Two sendings one after the other, of which at most one asks call `i`. */
  lemma SentTwice(env: Env, s: State, s1: State, s2: State, slot: nat, i: nat, a: bool, b: bool, left1: seq<nat>, left2: seq<nat>, limit: nat)
    requires i < |s.out| == |s1.out| == |s2.out| && !(a && b)
    requires SentTo(env, s, slot, i, a, s1, left1, limit) && SentTo(env, s1, slot, i, b, s2, left2, limit)
    ensures SentTo(env, s, slot, i, a || b, s2, left1 + left2, limit)
  {
    if a && i in left1 {
      UnansweredGrows(s1.log, s2.log, slot, i);
      AnsweredGrows(s1.log, s2.log, s1.lastError[i].slot, i, s1.lastError[i].answer);
    } else if a {
      JustifiedGrows(env, s1.log, s2.log, i, s1.out[i].value);
    }
  }

  /** Calls that failed outright join those left over. */
  lemma SentBesides(env: Env, s: State, s1: State, s2: State, slot: nat, idx: seq<nat>, i: nat, left: seq<nat>, limit: nat)
    requires ValidState(env, s) && slot < |env.chunks| && Below(idx, |s.out|) && i < |s.out| == |s2.out| && Distinct(idx)
    requires s1 == Exchange(env, s, slot, idx)
    requires SentTo(env, s1, slot, i, i in Big(Asks(env, |s.log|, slot, idx)), s2, left, limit)
    ensures SentTo(env, s, slot, i, i in idx, s2, Failed(Asks(env, |s.log|, slot, idx)) + left, 1 + limit)
  {
    var asks := Asks(env, |s.log|, slot, idx);
    assert multiset(idx)[i] <= 1;
    ExchangeOf(env, s, slot, idx, i);
    assert (i in Big(asks) <==> multiset(Big(asks))[i] > 0) && (i in Failed(asks) <==> multiset(Failed(asks))[i] > 0);
    var answer := AnswerTo(asks, i);
    if answer.Some? && !answer.value.TooLarge? {
      AnsweredGrows(s1.log, s2.log, slot, i, answer.value);
      if answer.value.Value? {
        assert Justified(env, s1.log, i, s1.out[i].value);
        JustifiedGrows(env, s1.log, s2.log, i, s1.out[i].value);
      }
    }
  }

  lemma SentMore(env: Env, s: State, slot: nat, i: nat, asked: bool, s': State, left: seq<nat>, less: nat, limit: nat)
    requires i < |s.out| == |s'.out| && less <= limit && SentTo(env, s, slot, i, asked, s', left, less)
    ensures SentTo(env, s, slot, i, asked, s', left, limit)
  {
  }

  lemma {:induction false} HalvesOf(env: Env, s: State, slot: nat, big: seq<nat>, i: nat)
    requires ValidState(env, s) && slot < |env.chunks| && Below(big, |s.out|) && |big| > 1 && i < |s.out| && Distinct(big)
    ensures var sent := SendHalves(env, s, slot, big); SentTo(env, s, slot, i, i in big, sent.0, sent.1, CeilLog2(|big|))
    decreases |big|, 0
  {
    var half := (|big| + 1) / 2;
    HalvesDistinct(big, half);
    var first := Send(env, s, slot, big[..half]);
    var second := Send(env, first.0, slot, big[half..]);
    SendOf(env, s, slot, big[..half], i);
    SendOf(env, first.0, slot, big[half..], i);
    CeilLog2Grows(|big| - half, half);
    SentMore(env, first.0, slot, i, i in big[half..], second.0, second.1, 1 + CeilLog2(|big| - half), 1 + CeilLog2(half));
    SentTwice(env, s, first.0, second.0, slot, i, i in big[..half], i in big[half..], first.1, second.1, 1 + CeilLog2(half));
  }

  lemma RejectBigOf(env: Env, s: State, slot: nat, big: seq<nat>, i: nat)
    requires Below(big, |s.out|) && i < |s.out| && |big| <= 1
    requires i in big ==> LargestAlone(s.log, i) && Answered(s.log, slot, i, TooLarge) &&
                          i in s.lastError && s.lastError[i] == Failure(slot, TooLarge)
    ensures SentTo(env, s, slot, i, i in big, RejectBig(s, big), [], 0)
  {
  }

  lemma LastBig(env: Env, s: State, slot: nat, idx: seq<nat>, i: nat)
    requires ValidState(env, s) && slot < |env.chunks| && Below(idx, |s.out|) && i < |s.out| && Distinct(idx)
    requires Big(Asks(env, |s.log|, slot, idx)) == [i]
    ensures var s1 := Exchange(env, s, slot, idx);
            && LargestAlone(s1.log, i) && Answered(s1.log, slot, i, TooLarge)
            && i in s1.lastError && s1.lastError[i] == Failure(slot, TooLarge)
  {
    var s1 := Exchange(env, s, slot, idx);
    assert multiset(idx)[i] <= 1;
    ExchangeOf(env, s, slot, idx, i);
    assert s1.log[|s.log|] == Request(slot, Asks(env, |s.log|, slot, idx));
  }

  /** One request that needs no halving. */
  lemma SendOfOne(env: Env, s: State, slot: nat, idx: seq<nat>, i: nat)
    requires ValidState(env, s) && slot < |env.chunks| && Below(idx, |s.out|) && i < |s.out| && Distinct(idx)
    requires |Big(Asks(env, |s.log|, slot, idx))| <= 1
    ensures var sent := Send(env, s, slot, idx); SentTo(env, s, slot, i, i in idx, sent.0, sent.1, 1)
  {
    var s1, big, failed := Exchange(env, s, slot, idx), Big(Asks(env, |s.log|, slot, idx)), Failed(Asks(env, |s.log|, slot, idx));
    SplitBelow(Asks(env, |s.log|, slot, idx), |s.out|);
    if i in big { LastBig(env, s, slot, idx, i); }
    RejectBigOf(env, s1, slot, big, i);
    SentBesides(env, s, s1, RejectBig(s1, big), slot, idx, i, [], 0);
    assert failed + [] == failed;
  }

  /** What one call to `#send` does to call `i`, halving included. */
  lemma {:induction false} SendOf(env: Env, s: State, slot: nat, idx: seq<nat>, i: nat)
    requires ValidState(env, s) && slot < |env.chunks| && Below(idx, |s.out|) && i < |s.out| && Distinct(idx)
    ensures var sent := Send(env, s, slot, idx);
            SentTo(env, s, slot, i, i in idx, sent.0, sent.1, 1 + CeilLog2(|idx|))
    decreases |idx|, 1
  {
    var big := Big(Asks(env, |s.log|, slot, idx));
    SplitBelow(Asks(env, |s.log|, slot, idx), |s.out|);
    var sent := Send(env, s, slot, idx);
    if |big| <= 1 {
      SendOfOne(env, s, slot, idx, i);
      SentMore(env, s, slot, i, i in idx, sent.0, sent.1, 1, 1 + CeilLog2(|idx|));
    } else {
      BigDistinct(env, s, slot, idx);
      HalvesOf(env, Exchange(env, s, slot, idx), slot, big, i);
      CeilLog2Grows(|big|, |idx|);
      SendOfHalved(env, s, slot, idx, i);
      SentMore(env, s, slot, i, i in idx, sent.0, sent.1, 1 + CeilLog2(|big|), 1 + CeilLog2(|idx|));
    }
  }

  /** One request whose calls too large together are sent again in halves. */
  lemma SendOfHalved(env: Env, s: State, slot: nat, idx: seq<nat>, i: nat)
    requires ValidState(env, s) && slot < |env.chunks| && Below(idx, |s.out|) && i < |s.out| && Distinct(idx)
    requires var big, s1 := Big(Asks(env, |s.log|, slot, idx)), Exchange(env, s, slot, idx);
             && |big| > 1 && Below(big, |s.out|)
             && var halves := SendHalves(env, s1, slot, big);
                SentTo(env, s1, slot, i, i in big, halves.0, halves.1, CeilLog2(|big|))
    ensures var big, sent := Big(Asks(env, |s.log|, slot, idx)), Send(env, s, slot, idx);
            SentTo(env, s, slot, i, i in idx, sent.0, sent.1, 1 + CeilLog2(|big|))
  {
    var s1, big := Exchange(env, s, slot, idx), Big(Asks(env, |s.log|, slot, idx));
    var halves := SendHalves(env, s1, slot, big);
    SentBesides(env, s, s1, halves.0, slot, idx, i, halves.1, CeilLog2(|big|));
  }

  lemma {:induction false} SendAllOf(env: Env, s: State, slot: nat, pending: seq<nat>, i: nat)
    requires ValidState(env, s) && slot < |env.chunks| && Below(pending, |s.out|) && i < |s.out| && Distinct(pending)
    ensures var sent := SendAll(env, s, slot, pending);
            SentTo(env, s, slot, i, i in pending, sent.0, sent.1, 1 + CeilLog2(env.chunks[slot]))
    decreases |pending|
  {
    if pending != [] {
      assert env.chunks[slot] in env.chunks;
      var n := Min(env.chunks[slot], |pending|);
      HalvesDistinct(pending, n);
      var first := Send(env, s, slot, pending[..n]);
      var rest := SendAll(env, first.0, slot, pending[n..]);
      SendOf(env, s, slot, pending[..n], i);
      CeilLog2Grows(n, env.chunks[slot]);
      SentMore(env, s, slot, i, i in pending[..n], first.0, first.1, 1 + CeilLog2(n), 1 + CeilLog2(env.chunks[slot]));
      SendAllOf(env, first.0, slot, pending[n..], i);
      SentTwice(env, s, first.0, rest.0, slot, i, i in pending[..n], i in pending[n..], first.1, rest.1, 1 + CeilLog2(env.chunks[slot]));
    }
  }

  // ----- one call through a chunk and through them all -------------------------------------------

  /** The error noted last for call `i` is one it was answered. */
  ghost predicate LastErrorOk(s: State, i: nat) {
    i in s.lastError && !s.lastError[i].answer.Value? && Answered(s.log, s.lastError[i].slot, i, s.lastError[i].answer)
  }

  /** Each endpoint in `tried` was asked call `i`, which it did not answer. */
  ghost predicate Exhausted(s: State, i: nat, tried: set<nat>) {
    (forall slot :: slot in tried ==> Unanswered(s.log, slot, i)) && (tried != {} ==> LastErrorOk(s, i))
  }

  function Limit(env: Env, slot: nat): nat
    requires slot < |env.chunks|
  {
    1 + CeilLog2(env.chunks[slot])
  }

  ghost predicate FellTo(env: Env, s: State, i: nat, asked: bool, tried: set<nat>, s': State, left: seq<nat>)
    requires i < |s.out| == |s'.out|
  {
    && s.log <= s'.log
    && multiset(left)[i] <= (if asked then 1 else 0)
    && (i in left || !asked ==> s'.out[i] == s.out[i])
    && (asked && i !in left ==> s'.out[i].Some? && Justified(env, s'.log, i, s'.out[i].value))
    && (i in left ==> LastErrorOk(s', i) && forall slot :: 0 <= slot < |env.chunks| ==> Unanswered(s'.log, slot, i))
    && (forall slot :: 0 <= slot < |env.chunks| ==>
          Count(s'.log, slot, i) <= Count(s.log, slot, i) + if asked && slot !in tried then Limit(env, slot) else 0)
  }

  lemma SendAllDistinct(env: Env, s: State, slot: nat, pending: seq<nat>)
    requires ValidState(env, s) && slot < |env.chunks| && Below(pending, |s.out|) && Distinct(pending)
    ensures Distinct(SendAll(env, s, slot, pending).1)
    ensures forall i: nat :: i in SendAll(env, s, slot, pending).1 ==> i in pending
  {
    var left: seq<nat> := SendAll(env, s, slot, pending).1;
    forall i: nat
      ensures multiset(left)[i] <= 1 && (i in left ==> i in pending)
    {
      assert i in left <==> multiset(left)[i] > 0;
      if i < |s.out| {
        SendAllOf(env, s, slot, pending, i);
      }
    }
  }

  /** One endpoint of the fall, then the rest of it. */
  lemma FellOn(env: Env, s: State, s1: State, s2: State, slot: nat, i: nat, asked: bool, tried: set<nat>, left1: seq<nat>, left: seq<nat>)
    requires slot < |env.chunks| && slot !in tried && i < |s.out| == |s1.out| == |s2.out|
    requires SentTo(env, s, slot, i, asked, s1, left1, Limit(env, slot))
    requires FellTo(env, s1, i, i in left1, tried + {slot}, s2, left)
    ensures FellTo(env, s, i, asked, tried, s2, left)
  {
    assert i in left1 <==> multiset(left1)[i] > 0;
    if asked && i !in left1 {
      JustifiedGrows(env, s1.log, s2.log, i, s1.out[i].value);
    }
  }

  /** A call the endpoint left is exhausted there too. */
  lemma ExhaustedOn(env: Env, s: State, s1: State, slot: nat, i: nat, asked: bool, tried: set<nat>, left: seq<nat>)
    requires i < |s.out| == |s1.out| && slot < |env.chunks| && SentTo(env, s, slot, i, asked, s1, left, Limit(env, slot))
    requires i in left && Exhausted(s, i, tried)
    ensures Exhausted(s1, i, tried + {slot})
  {
    forall other | other in tried
      ensures Unanswered(s1.log, other, i)
    {
      UnansweredGrows(s.log, s1.log, other, i);
    }
  }

  lemma SentOn(env: Env, s: State, slot: nat, pending: seq<nat>, tried: set<nat>, i: nat)
    requires ValidState(env, s) && slot < |env.chunks| && Below(pending, |s.out|) && i < |s.out| && Distinct(pending)
    requires i in pending ==> Exhausted(s, i, tried)
    ensures var sent := SendAll(env, Looked(s), slot, pending);
            && Distinct(sent.1) && (i in sent.1 ==> Exhausted(sent.0, i, tried + {slot}))
            && SentTo(env, s, slot, i, i in pending, sent.0, sent.1, Limit(env, slot))
  {
    var sent := SendAll(env, Looked(s), slot, pending);
    SendAllOf(env, Looked(s), slot, pending, i);
    SendAllDistinct(env, Looked(s), slot, pending);
    if i in sent.1 {
      ExhaustedOn(env, s, sent.0, slot, i, i in pending, tried, sent.1);
    }
  }

  lemma FellOut(env: Env, s: State, pending: seq<nat>, tried: set<nat>, i: nat)
    requires ValidState(env, s) && i < |s.out| && Distinct(pending)
    requires i in pending ==> Exhausted(s, i, tried)
    requires forall slot :: 0 <= slot < |env.chunks| ==> slot in tried
    ensures FellTo(env, s, i, i in pending, tried, Looked(s), pending)
  {
    assert 0 in tried;
    assert i in pending <==> multiset(pending)[i] > 0;
    assert multiset(pending)[i] <= 1;
  }

  lemma {:induction false} FallOf(env: Env, s: State, pending: seq<nat>, tried: set<nat>, i: nat)
    requires ValidState(env, s) && Below(pending, |s.out|) && i < |s.out| && Distinct(pending)
    requires i in pending ==> Exhausted(s, i, tried)
    ensures FellTo(env, s, i, i in pending, tried, Fall(env, s, pending, tried).0, Fall(env, s, pending, tried).1)
    decreases Untried(|env.chunks|, tried)
  {
    if pending != [] {
      PickOrder(env, s, tried);
      if Pick(env, s, tried).None? {
        FellOut(env, s, pending, tried, i);
      } else {
        var slot, s0 := Pick(env, s, tried).value, Looked(s);
        TriedShrinks(tried, slot, |env.chunks|);
        var sent := SendAll(env, s0, slot, pending);
        SentOn(env, s, slot, pending, tried, i);
        FallOf(env, sent.0, sent.1, tried + {slot}, i);
        var fallen := Fall(env, sent.0, sent.1, tried + {slot});
        FellOn(env, s, sent.0, fallen.0, slot, i, i in pending, tried, sent.1, fallen.1);
      }
    }
  }

  lemma {:induction false} RejectAllOf(s: State, pending: seq<nat>, i: nat)
    requires Below(pending, |s.out|) && i < |s.out|
    ensures RejectAll(s, pending) == s.(out := RejectAll(s, pending).out)
    ensures RejectAll(s, pending).out[i] ==
              if i in pending then Some(Rejected(if i in s.lastError then Some(s.lastError[i]) else None)) else s.out[i]
  {
    if pending != [] {
      RejectAllOf(s, pending[..|pending| - 1], i);
      assert pending == pending[..|pending| - 1] + [pending[|pending| - 1]];
    }
  }

  /** Call `i`, if asked, is settled for good; if not, nothing happens to it. */
  ghost predicate SettledIn(env: Env, s: State, i: nat, asked: bool, s': State)
    requires i < |s.out| == |s'.out|
  {
    && s.log <= s'.log
    && (asked ==> s'.out[i].Some? && Justified(env, s'.log, i, s'.out[i].value))
    && (!asked ==> s'.out[i] == s.out[i])
    && (forall slot :: 0 <= slot < |env.chunks| ==>
          Count(s'.log, slot, i) <= Count(s.log, slot, i) + if asked then Limit(env, slot) else 0)
  }

  lemma SettledTwice(env: Env, s: State, s1: State, s2: State, i: nat, a: bool, b: bool)
    requires i < |s.out| == |s1.out| == |s2.out| && !(a && b)
    requires SettledIn(env, s, i, a, s1) && SettledIn(env, s1, i, b, s2)
    ensures SettledIn(env, s, i, a || b, s2)
  {
    if a { JustifiedGrows(env, s1.log, s2.log, i, s1.out[i].value); }
  }

  /** What `#chunk` does to call `i`. */
  lemma ChunkOf(env: Env, s: State, idx: seq<nat>, i: nat)
    requires ValidState(env, s) && Below(idx, |s.out|) && i < |s.out| && Distinct(idx)
    ensures SettledIn(env, s, i, i in idx, Chunk(env, s, idx))
  {
    var s0 := s.(lastError := map[]);
    var fallen := Fall(env, s0, idx, {});
    FallOf(env, s0, idx, {}, i);
    RejectAllOf(fallen.0, fallen.1, i);
    assert i in fallen.1 <==> multiset(fallen.1)[i] > 0;
  }

  lemma {:induction false} IndicesDistinct(start: nat, end: nat)
    requires start <= end
    ensures Distinct(Indices(start, end))
    ensures forall i: nat :: i in Indices(start, end) <==> start <= i < end
    decreases end - start
  {
    if start < end {
      IndicesDistinct(start, end - 1);
      assert Indices(start, end) == Indices(start, end - 1) + [end - 1];
      forall i: nat
        ensures multiset(Indices(start, end))[i] <= 1
      {
        assert multiset(Indices(start, end - 1))[i] <= 1;
        assert i in Indices(start, end - 1) <==> multiset(Indices(start, end - 1))[i] > 0;
      }
    }
  }

  lemma {:induction false} AllOf(env: Env, s: State, start: nat, i: nat)
    requires ValidState(env, s) && start <= |s.out| && i < |s.out|
    ensures SettledIn(env, s, i, i >= start, All(env, s, start))
    decreases |s.out| - start
  {
    if start < |s.out| {
      var end := ChunkEnd(env, s, start);
      var idx := Indices(start, end);
      var s1 := Chunk(env, s, idx);
      IndicesDistinct(start, end);
      ChunkOf(env, s, idx, i);
      AllOf(env, s1, end, i);
      SettledTwice(env, s, s1, All(env, s1, end), i, start <= i < end, i >= end);
    }
  }

  // ----- every batch of calls --------------------------------------------------------------------

  /** A pool about to take `n` calls, whatever rest its endpoints are in. */
  ghost predicate Taking(env: Env, s: State, n: nat) {
    ValidState(env, s) && s.log == [] && |s.out| == n && forall i :: 0 <= i < n ==> s.out[i].None?
  }

  /**
   Every call gets an outcome: its own answer, from an endpoint that was asked it; or a rejection, with
   an error it was answered, and then either every endpoint was asked it in vain or it was the only call
   too large in a request. No endpoint is asked the same call more than 1 + ceil(log2(chunk)) times.
   */
  lemma EveryCallSettles(env: Env, s: State, n: nat, i: nat)
    requires Taking(env, s, n) && i < n
    ensures var s' := All(env, s, 0);
            && s'.out[i].Some? && Justified(env, s'.log, i, s'.out[i].value)
            && forall slot :: 0 <= slot < |env.chunks| ==> Count(s'.log, slot, i) <= 1 + CeilLog2(env.chunks[slot])
  {
    AllOf(env, s, 0, i);
  }

  // ----- calls too large -------------------------------------------------------------------------

  /** The size limit applies to a whole reply: too large for one of its calls is too large for all. */
  ghost predicate WholeReplies(env: Env) {
    forall request, slot, a, b :: env.reply(request, slot, a).TooLarge? ==> env.reply(request, slot, b).TooLarge?
  }

  /** The history holds what the endpoints answered. */
  ghost predicate Truthful(env: Env, log: seq<Request>) {
    forall k :: 0 <= k < |log| ==> log[k].asks == Asks(env, k, log[k].slot, CallsOf(log[k].asks))
  }

  lemma ExchangeTruthful(env: Env, s: State, slot: nat, idx: seq<nat>)
    requires ValidState(env, s) && slot < |env.chunks| && Below(idx, |s.out|) && Truthful(env, s.log)
    ensures Truthful(env, Exchange(env, s, slot, idx).log)
  {
    assert CallsOf(Asks(env, |s.log|, slot, idx)) == idx;
  }

  lemma {:induction false} SendTruthful(env: Env, s: State, slot: nat, idx: seq<nat>)
    requires ValidState(env, s) && slot < |env.chunks| && Below(idx, |s.out|) && Truthful(env, s.log)
    ensures Truthful(env, Send(env, s, slot, idx).0.log)
    decreases |idx|, 1
  {
    SplitBelow(Asks(env, |s.log|, slot, idx), |s.out|);
    ExchangeTruthful(env, s, slot, idx);
    var big := Big(Asks(env, |s.log|, slot, idx));
    if |big| > 1 { HalvesTruthful(env, Exchange(env, s, slot, idx), slot, big); }
  }

  lemma {:induction false} HalvesTruthful(env: Env, s: State, slot: nat, big: seq<nat>)
    requires ValidState(env, s) && slot < |env.chunks| && Below(big, |s.out|) && |big| > 1 && Truthful(env, s.log)
    ensures Truthful(env, SendHalves(env, s, slot, big).0.log)
    decreases |big|, 0
  {
    var half := (|big| + 1) / 2;
    SendTruthful(env, s, slot, big[..half]);
    SendTruthful(env, Send(env, s, slot, big[..half]).0, slot, big[half..]);
  }

  lemma {:induction false} SendAllTruthful(env: Env, s: State, slot: nat, pending: seq<nat>)
    requires ValidState(env, s) && slot < |env.chunks| && Below(pending, |s.out|) && Truthful(env, s.log)
    ensures Truthful(env, SendAll(env, s, slot, pending).0.log)
    decreases |pending|
  {
    if pending != [] {
      assert env.chunks[slot] in env.chunks;
      var n := Min(env.chunks[slot], |pending|);
      SendTruthful(env, s, slot, pending[..n]);
      SendAllTruthful(env, Send(env, s, slot, pending[..n]).0, slot, pending[n..]);
    }
  }

  lemma {:induction false} FallTruthful(env: Env, s: State, pending: seq<nat>, tried: set<nat>)
    requires ValidState(env, s) && Below(pending, |s.out|) && Truthful(env, s.log)
    ensures Truthful(env, Fall(env, s, pending, tried).0.log)
    decreases Untried(|env.chunks|, tried)
  {
    var slot := Pick(env, s, tried);
    PickOrder(env, s, tried);
    if pending != [] && slot.Some? {
      TriedShrinks(tried, slot.value, |env.chunks|);
      SendAllTruthful(env, Looked(s), slot.value, pending);
      var sent := SendAll(env, Looked(s), slot.value, pending);
      FallTruthful(env, sent.0, sent.1, tried + {slot.value});
    }
  }

  lemma {:induction false} RejectAllAsksNothing(s: State, pending: seq<nat>)
    requires Below(pending, |s.out|)
    ensures RejectAll(s, pending).log == s.log
  {
    if pending != [] { RejectAllAsksNothing(s, pending[..|pending| - 1]); }
  }

  lemma {:induction false} AllTruthful(env: Env, s: State, start: nat)
    requires ValidState(env, s) && start <= |s.out| && Truthful(env, s.log)
    ensures Truthful(env, All(env, s, start).log)
    decreases |s.out| - start
  {
    if start < |s.out| {
      var end := ChunkEnd(env, s, start);
      var s0, idx := s.(lastError := map[]), Indices(start, end);
      FallTruthful(env, s0, idx, {});
      var fallen := Fall(env, s0, idx, {});
      RejectAllAsksNothing(fallen.0, fallen.1);
      AllTruthful(env, Chunk(env, s, idx), end);
    }
  }

  lemma {:induction false} AllBig(asks: seq<Ask>)
    requires forall a :: a in asks ==> a.answer.TooLarge?
    ensures Big(asks) == CallsOf(asks)
  {
    if asks != [] {
      AllBig(asks[..|asks| - 1]);
      assert CallsOf(asks) == CallsOf(asks[..|asks| - 1]) + [asks[|asks| - 1].call];
    }
  }

  /** A request with one call too large, where replies are too large whole, is that call's alone. */
  lemma BigIsAll(env: Env, log: seq<Request>, k: nat)
    requires WholeReplies(env) && Truthful(env, log) && k < |log| && Big(log[k].asks) != []
    ensures CallsOf(log[k].asks) == Big(log[k].asks)
  {
    var asks := log[k].asks;
    BigMembers(asks);
    var i := Big(asks)[0];
    assert i in Big(asks);
    var a :| a in asks && a.call == i && a.answer.TooLarge?;
    forall b | b in asks
      ensures b.answer.TooLarge?
    {
      assert env.reply(k, log[k].slot, a.call).TooLarge?;
    }
    AllBig(asks);
  }

  /**
   Where the size limit applies to whole replies, the promise holds as it is made: a call is rejected only
   after every endpoint was asked it in vain, or because it was too large in a request of its own.
   */
  lemma RejectedOnlyAlone(env: Env, s: State, n: nat, i: nat, s': State)
    requires Taking(env, s, n) && i < n && WholeReplies(env) && s' == All(env, s, 0)
    requires s'.out[i].Some? && s'.out[i].value.Rejected?
    ensures (forall slot :: 0 <= slot < |env.chunks| ==> Unanswered(s'.log, slot, i)) ||
            (exists k :: 0 <= k < |s'.log| && CallsOf(s'.log[k].asks) == [i])
  {
    EveryCallSettles(env, s, n, i);
    AllTruthful(env, s, 0);
    if LargestAlone(s'.log, i) {
      var k :| 0 <= k < |s'.log| && Big(s'.log[k].asks) == [i];
      BigIsAll(env, s'.log, k);
    }
  }

  lemma {:induction false} CountGrows(log: seq<Request>, more: seq<Request>, slot: nat, i: nat)
    requires log <= more
    ensures Count(log, slot, i) <= Count(more, slot, i)
    decreases |more|
  {
    if log != more {
      CountGrows(log, more[..|more| - 1], slot, i);
    }
  }

  /** A call sent is asked. */
  lemma SendAsks(env: Env, s: State, slot: nat, idx: seq<nat>, i: nat)
    requires ValidState(env, s) && slot < |env.chunks| && Below(idx, |s.out|) && i < |s.out| && Distinct(idx) && i in idx
    ensures Count(Send(env, s, slot, idx).0.log, slot, i) >= Count(s.log, slot, i) + 1
  {
    var s1, big := Exchange(env, s, slot, idx), Big(Asks(env, |s.log|, slot, idx));
    SplitBelow(Asks(env, |s.log|, slot, idx), |s.out|);
    assert multiset(idx)[i] <= 1;
    ExchangeOf(env, s, slot, idx, i);
    if |big| > 1 {
      BigDistinct(env, s, slot, idx);
      HalvesOf(env, s1, slot, big, i);
    }
    CountGrows(s1.log, Send(env, s, slot, idx).0.log, slot, i);
  }

  /** A call sent again in halves is asked again. */
  lemma HalvesAsk(env: Env, s: State, slot: nat, big: seq<nat>, i: nat)
    requires ValidState(env, s) && slot < |env.chunks| && Below(big, |s.out|) && |big| > 1 && i < |s.out| && Distinct(big) && i in big
    ensures Count(SendHalves(env, s, slot, big).0.log, slot, i) >= Count(s.log, slot, i) + 1
  {
    var half := (|big| + 1) / 2;
    HalvesDistinct(big, half);
    var first := Send(env, s, slot, big[..half]);
    var second := Send(env, first.0, slot, big[half..]);
    SendOf(env, s, slot, big[..half], i);
    SendOf(env, first.0, slot, big[half..], i);
    if i in big[..half] {
      SendAsks(env, s, slot, big[..half], i);
      CountGrows(first.0.log, second.0.log, slot, i);
    } else {
      CountGrows(s.log, first.0.log, slot, i);
      SendAsks(env, first.0, slot, big[half..], i);
    }
  }

  /** Rejected by what one sending did, and asked no more than once by it. */
  ghost predicate RejectedAtOnce(s: State, s': State, slot: nat, i: nat)
    requires i < |s'.out|
  {
    s'.out[i].Some? && s'.out[i].value.Rejected? && Count(s'.log, slot, i) == Count(s.log, slot, i) + 1
  }

  /** What one request alone does to a call still open: it is asked once, and not yet rejected. */
  lemma ExchangeOpen(env: Env, s: State, slot: nat, idx: seq<nat>, i: nat)
    requires ValidState(env, s) && slot < |env.chunks| && Below(idx, |s.out|) && i < |s.out| && Distinct(idx)
    requires i in idx && s.out[i].None?
    ensures var s1 := Exchange(env, s, slot, idx);
            && Count(s1.log, slot, i) == Count(s.log, slot, i) + 1
            && (s1.out[i].None? || s1.out[i].value.Fulfilled?)
  {
    assert multiset(idx)[i] <= 1;
    ExchangeOf(env, s, slot, idx, i);
  }

  lemma RejectBigOnly(s: State, big: seq<nat>, i: nat)
    requires Below(big, |s.out|) && |big| <= 1 && i < |s.out| && (s.out[i].None? || s.out[i].value.Fulfilled?)
    ensures var s' := RejectBig(s, big);
            && s'.log == s.log
            && (s'.out[i].Some? && s'.out[i].value.Rejected? <==> big == [i])
  {
  }

  lemma HalvesNotAtOnce(env: Env, s: State, slot: nat, big: seq<nat>, i: nat)
    requires ValidState(env, s) && slot < |env.chunks| && Below(big, |s.out|) && |big| > 1 && i < |s.out| && Distinct(big)
    requires s.out[i].None? || s.out[i].value.Fulfilled?
    ensures var s' := SendHalves(env, s, slot, big).0;
            (s'.out[i].Some? && s'.out[i].value.Rejected?) ==> Count(s'.log, slot, i) > Count(s.log, slot, i)
  {
    HalvesOf(env, s, slot, big, i);
    if i in big { HalvesAsk(env, s, slot, big, i); }
  }

  /**
   Everywhere, exactly so: a call is rejected by a request, however many others share it, without being
   asked again, if and only if it is the only call of that request that is too large.
   */
  lemma SharedRejection(env: Env, s: State, slot: nat, idx: seq<nat>, i: nat)
    requires ValidState(env, s) && slot < |env.chunks| && Below(idx, |s.out|) && i < |s.out| && Distinct(idx)
    requires i in idx && s.out[i].None?
    ensures RejectedAtOnce(s, Send(env, s, slot, idx).0, slot, i) <==> Big(Asks(env, |s.log|, slot, idx)) == [i]
  {
    var s1, big := Exchange(env, s, slot, idx), Big(Asks(env, |s.log|, slot, idx));
    SplitBelow(Asks(env, |s.log|, slot, idx), |s.out|);
    ExchangeOpen(env, s, slot, idx, i);
    if |big| > 1 {
      BigDistinct(env, s, slot, idx);
      HalvesNotAtOnce(env, s1, slot, big, i);
    } else {
      RejectBigOnly(s1, big, i);
    }
  }

  // ----- what one request asks -------------------------------------------------------------------

  /** The request asks no more than its endpoint takes at once, all of it from one stretch of calls. */
  ghost predicate Fits(env: Env, request: Request, start: nat, end: nat) {
    && request.slot < |env.chunks| && |request.asks| <= env.chunks[request.slot]
    && forall k :: 0 <= k < |request.asks| ==> start <= request.asks[k].call < end
  }

  ghost predicate FitSince(env: Env, log: seq<Request>, since: nat, start: nat, end: nat) {
    forall k :: since <= k < |log| ==> Fits(env, log[k], start, end)
  }

  ghost predicate Between(idx: seq<nat>, start: nat, end: nat) {
    forall k :: 0 <= k < |idx| ==> start <= idx[k] < end
  }

  lemma FitsOn(env: Env, a: seq<Request>, b: seq<Request>, since: nat, start: nat, end: nat)
    requires a <= b && FitSince(env, a, since, start, end) && FitSince(env, b, |a|, start, end)
    ensures FitSince(env, b, since, start, end)
  {
    forall k | since <= k < |b|
      ensures Fits(env, b[k], start, end)
    {
      if k < |a| { assert b[k] == a[k]; }
    }
  }

  lemma AmongBetween(sub: seq<nat>, idx: seq<nat>, start: nat, end: nat)
    requires Between(idx, start, end) && forall i :: i in sub ==> i in idx
    ensures Between(sub, start, end)
  {
    forall k | 0 <= k < |sub|
      ensures start <= sub[k] < end
    {
      assert sub[k] in idx;
    }
  }

  lemma ExchangeFits(env: Env, s: State, slot: nat, idx: seq<nat>, start: nat, end: nat)
    requires ValidState(env, s) && slot < |env.chunks| && Below(idx, |s.out|) && |idx| <= env.chunks[slot] && Between(idx, start, end)
    ensures var s1, big := Exchange(env, s, slot, idx), Big(Asks(env, |s.log|, slot, idx));
            && s.log <= s1.log && FitSince(env, s1.log, |s.log|, start, end)
            && |big| <= |idx| && Between(big, start, end)
  {
    var asks := Asks(env, |s.log|, slot, idx);
    ExchangeLog(env, s, slot, idx, 0);
    SplitBelow(asks, |s.out|);
    BigMembers(asks);
    assert forall k :: 0 <= k < |asks| ==> asks[k].call == idx[k];
    AmongBetween(Big(asks), idx, start, end);
  }

  lemma {:induction false} SendFits(env: Env, s: State, slot: nat, idx: seq<nat>, start: nat, end: nat)
    requires ValidState(env, s) && slot < |env.chunks| && Below(idx, |s.out|) && |idx| <= env.chunks[slot] && Between(idx, start, end)
    ensures s.log <= Send(env, s, slot, idx).0.log && FitSince(env, Send(env, s, slot, idx).0.log, |s.log|, start, end)
    decreases |idx|, 1
  {
    var s1, big := Exchange(env, s, slot, idx), Big(Asks(env, |s.log|, slot, idx));
    SplitBelow(Asks(env, |s.log|, slot, idx), |s.out|);
    ExchangeFits(env, s, slot, idx, start, end);
    if |big| > 1 {
      HalvesFit(env, s1, slot, big, start, end);
      FitsOn(env, s1.log, SendHalves(env, s1, slot, big).0.log, |s.log|, start, end);
    }
  }

  lemma {:induction false} HalvesFit(env: Env, s: State, slot: nat, big: seq<nat>, start: nat, end: nat)
    requires ValidState(env, s) && slot < |env.chunks| && Below(big, |s.out|) && 1 < |big| <= env.chunks[slot] && Between(big, start, end)
    ensures s.log <= SendHalves(env, s, slot, big).0.log && FitSince(env, SendHalves(env, s, slot, big).0.log, |s.log|, start, end)
    decreases |big|, 0
  {
    var half := (|big| + 1) / 2;
    var first := Send(env, s, slot, big[..half]);
    SendFits(env, s, slot, big[..half], start, end);
    SendFits(env, first.0, slot, big[half..], start, end);
    FitsOn(env, first.0.log, Send(env, first.0, slot, big[half..]).0.log, |s.log|, start, end);
  }

  lemma {:induction false} SendAllFits(env: Env, s: State, slot: nat, pending: seq<nat>, start: nat, end: nat)
    requires ValidState(env, s) && slot < |env.chunks| && Below(pending, |s.out|) && Between(pending, start, end)
    ensures s.log <= SendAll(env, s, slot, pending).0.log && FitSince(env, SendAll(env, s, slot, pending).0.log, |s.log|, start, end)
    decreases |pending|
  {
    if pending != [] {
      assert env.chunks[slot] in env.chunks;
      var n := Min(env.chunks[slot], |pending|);
      var first := Send(env, s, slot, pending[..n]);
      SendFits(env, s, slot, pending[..n], start, end);
      SendAllFits(env, first.0, slot, pending[n..], start, end);
      FitsOn(env, first.0.log, SendAll(env, first.0, slot, pending[n..]).0.log, |s.log|, start, end);
    }
  }

  lemma {:induction false} FallFits(env: Env, s: State, pending: seq<nat>, tried: set<nat>, start: nat, end: nat)
    requires ValidState(env, s) && Below(pending, |s.out|) && Distinct(pending) && Between(pending, start, end)
    ensures s.log <= Fall(env, s, pending, tried).0.log && FitSince(env, Fall(env, s, pending, tried).0.log, |s.log|, start, end)
    decreases Untried(|env.chunks|, tried)
  {
    var slot := Pick(env, s, tried);
    PickOrder(env, s, tried);
    if pending != [] && slot.Some? {
      TriedShrinks(tried, slot.value, |env.chunks|);
      var sent := SendAll(env, Looked(s), slot.value, pending);
      SendAllFits(env, Looked(s), slot.value, pending, start, end);
      SendAllDistinct(env, Looked(s), slot.value, pending);
      AmongBetween(sent.1, pending, start, end);
      FallFits(env, sent.0, sent.1, tried + {slot.value}, start, end);
      FitsOn(env, sent.0.log, Fall(env, sent.0, sent.1, tried + {slot.value}).0.log, |s.log|, start, end);
    }
  }

  lemma SendAsksFirst(env: Env, s: State, slot: nat, idx: seq<nat>)
    requires ValidState(env, s) && slot < |env.chunks| && Below(idx, |s.out|) && |idx| <= env.chunks[slot]
    ensures s.log + [Request(slot, Asks(env, |s.log|, slot, idx))] <= Send(env, s, slot, idx).0.log
  {
    var s1, big := Exchange(env, s, slot, idx), Big(Asks(env, |s.log|, slot, idx));
    SplitBelow(Asks(env, |s.log|, slot, idx), |s.out|);
    ExchangeLog(env, s, slot, idx, 0);
    if |big| > 1 { HalvesFit(env, s1, slot, big, 0, |s.out|); }
  }

  /** As long as an endpoint is untried, what is pending is put to the best, its chunk of it first. */
  lemma FallAsksBest(env: Env, s: State, pending: seq<nat>, tried: set<nat>)
    requires ValidState(env, s) && Below(pending, |s.out|) && Distinct(pending) && pending != []
    requires exists i: nat :: i < |env.chunks| && i !in tried
    ensures var log := Fall(env, s, pending, tried).0.log;
            && s.log < log && Best(env, s, tried, log[|s.log|].slot)
            && CallsOf(log[|s.log|].asks) == pending[..Min(env.chunks[log[|s.log|].slot], |pending|)]
  {
    PickOrder(env, s, tried);
    var slot := Pick(env, s, tried).value;
    assert env.chunks[slot] in env.chunks;
    TriedShrinks(tried, slot, |env.chunks|);
    var n, s1 := Min(env.chunks[slot], |pending|), Looked(s);
    var first := Send(env, s1, slot, pending[..n]);
    SendAsksFirst(env, s1, slot, pending[..n]);
    var asked := s.log + [Request(slot, Asks(env, |s.log|, slot, pending[..n]))];
    SendAllFits(env, first.0, slot, pending[n..], 0, |s.out|);
    var sent := SendAll(env, s1, slot, pending);
    assert asked <= sent.0.log;
    SendAllDistinct(env, s1, slot, pending);
    FallFits(env, sent.0, sent.1, tried + {slot}, 0, |s.out|);
    var log := Fall(env, s, pending, tried).0.log;
    assert log == Fall(env, sent.0, sent.1, tried + {slot}).0.log;
    assert asked <= log && log[|s.log|] == asked[|s.log|];
    ExchangeLog(env, s1, slot, pending[..n], 0);
  }

  /** The calls of chunk `c` of the first endpoint. */
  ghost predicate OneChunkOf(env: Env, request: Request, c: nat)
    requires env.chunks != []
  {
    Fits(env, request, c * env.chunks[0], (c + 1) * env.chunks[0])
  }

  ghost predicate InOneChunk(env: Env, request: Request)
    requires env.chunks != []
  {
    exists c: nat :: OneChunkOf(env, request, c)
  }

  ghost predicate AllFit(env: Env, log: seq<Request>)
    requires env.chunks != []
  {
    forall k :: 0 <= k < |log| ==> InOneChunk(env, log[k])
  }

  lemma WidenFits(env: Env, log: seq<Request>, since: nat, start: nat, end: nat, c: nat)
    requires env.chunks != [] && FitSince(env, log, since, start, end) && since <= |log| && AllFit(env, log[..since])
    requires start == c * env.chunks[0] && end <= (c + 1) * env.chunks[0]
    ensures AllFit(env, log)
  {
    forall k | 0 <= k < |log|
      ensures InOneChunk(env, log[k])
    {
      if k < since {
        assert log[..since][k] == log[k];
      } else {
        assert Fits(env, log[k], start, end);
        assert OneChunkOf(env, log[k], c);
      }
    }
  }

  lemma ChunkFits(env: Env, s: State, start: nat, end: nat, c: nat)
    requires ValidState(env, s) && AllFit(env, s.log) && start <= end <= |s.out|
    requires start == c * env.chunks[0] && end <= (c + 1) * env.chunks[0]
    ensures AllFit(env, Chunk(env, s, Indices(start, end)).log)
  {
    var s0, idx := s.(lastError := map[]), Indices(start, end);
    IndicesDistinct(start, end);
    FallFits(env, s0, idx, {}, start, end);
    var fallen := Fall(env, s0, idx, {});
    RejectAllAsksNothing(fallen.0, fallen.1);
    assert fallen.0.log[..|s.log|] == s.log;
    WidenFits(env, fallen.0.log, |s.log|, start, end, c);
  }

  lemma NextChunk(c: nat, size: nat)
    ensures (c + 1) * size == c * size + size
  {
  }

  lemma {:induction false} AllFits(env: Env, s: State, start: nat, c: nat)
    requires ValidState(env, s) && AllFit(env, s.log) && start <= |s.out|
    requires start == |s.out| || start == c * env.chunks[0]
    ensures AllFit(env, All(env, s, start).log)
    decreases |s.out| - start
  {
    if start < |s.out| {
      var end := ChunkEnd(env, s, start);
      NextChunk(c, env.chunks[0]);
      ChunkFits(env, s, start, end, c);
      AllFits(env, Chunk(env, s, Indices(start, end)), end, c + 1);
    }
  }

  /** No request asks an endpoint more than it takes at once, or calls of two chunks of the first endpoint. */
  lemma RequestsFit(env: Env, s: State, n: nat)
    requires Taking(env, s, n)
    ensures AllFit(env, All(env, s, 0).log)
  {
    AllFits(env, s, 0, 0);
  }

  // ----- rests -----------------------------------------------------------------------------------

  /** How long an endpoint rests after `failures` failures in a row. */
  function RestMs(failures: nat): nat {
    if failures <= 1 then 5000 else if RestMs(failures - 1) < 30000 then 2 * RestMs(failures - 1) else 60000
  }

  lemma {:induction false} RestDoubles(failures: nat)
    requires failures >= 1
    ensures RestMs(failures) == Min(REST_START_MS * Pow2(failures - 1), REST_MAX_MS)
  {
    if failures > 1 { RestDoubles(failures - 1); }
  }

  /** An answer after which an endpoint rests. */
  predicate Tires(a: Answer) {
    a == RateLimited || a == Transport
  }

  /**
   A request that is rate limited or not transported puts its endpoint, and no other, to rest from now:
   5 s, and twice as long for each failure in a row, up to a minute. Any other request ends its rest.
   */
  lemma RequestRests(env: Env, s: State, slot: nat, idx: seq<nat>)
    requires ValidState(env, s) && slot < |env.chunks| && Below(idx, |s.out|)
    ensures var s' := Exchange(env, s, slot, idx);
            if exists k :: 0 <= k < |idx| && Tires(env.reply(|s.log|, slot, idx[k])) then
              && s'.failures == s.failures[slot := s.failures[slot] + 1]
              && s'.restUntil == s.restUntil[slot := env.clock(s.ticks) + RestMs(s.failures[slot] + 1)] && s'.ticks == s.ticks + 1
            else s'.ticks == s.ticks && s'.failures == s.failures[slot := 0] && s'.restUntil == s.restUntil[slot := 0]
  {
    var asks := Asks(env, |s.log|, slot, idx);
    RestDoubles(s.failures[slot] + 1);
    if k :| 0 <= k < |idx| && Tires(env.reply(|s.log|, slot, idx[k])) { assert asks[k] in asks; }
  }

  /** Two endpoints that take two calls each; the first finds call 0 too large, and only it. */
  ghost predicate MixedReply(env: Env) {
    && env.chunks == [2, 2] && env.reply(0, 0, 0) == TooLarge && env.reply(0, 0, 1) == Value("x")
    && env.clock(0) >= 0
  }

  lemma MixedSend(env: Env, s: State, idx: seq<nat>)
    requires MixedReply(env) && idx == [0, 1] && s == State([None, None], map[], [0, 0], [0, 0], 1, [])
    ensures var asks := [Ask(0, TooLarge), Ask(1, Value("x"))];
            var s1 := State([None, Some(Fulfilled("x"))], map[0 := Failure(0, TooLarge)], [0, 0], [0, 0], 1, [Request(0, asks)]);
            Send(env, s, 0, idx) == (RejectBig(s1, [0]), [])
  {
    var asks := [Ask(0, TooLarge), Ask(1, Value("x"))];
    assert Asks(env, 0, 0, idx) == asks;
    assert asks[..1] == [Ask(0, TooLarge)] && asks[..1][..0] == [];
    assert Big(asks[..1]) == [0] && Failed(asks[..1]) == [];
    assert Big(asks) == [0] && Failed(asks) == [];
    assert Settle(s.out, asks[..1]) == s.out;
    assert Note(map[], 0, asks[..1]) == map[0 := Failure(0, TooLarge)];
    assert Note(map[], 0, asks) == map[0 := Failure(0, TooLarge)];
    assert Settle(s.out, asks) == [None, Some(Fulfilled("x"))];
    assert !Rested(asks);
    var s1 := State([None, Some(Fulfilled("x"))], map[0 := Failure(0, TooLarge)], [0, 0], [0, 0], 1, [Request(0, asks)]);
    assert s.failures[0 := 0] == s.failures && s.restUntil[0 := 0] == s.restUntil;
    assert Exchange(env, s, 0, idx) == s1;
  }

  /** What the first endpoint settles alone, in one slice, is the whole chunk. */
  lemma OneSlice(env: Env, s: State, idx: seq<nat>)
    requires ValidState(env, s) && Below(idx, |s.out|) && 0 < |idx| <= env.chunks[0] && s.restUntil[0] <= env.clock(s.ticks)
    requires Send(env, Looked(s.(lastError := map[])), 0, idx).1 == []
    ensures Chunk(env, s, idx) == Send(env, Looked(s.(lastError := map[])), 0, idx).0
  {
    var s0 := s.(lastError := map[]);
    var sent := Send(env, Looked(s0), 0, idx);
    assert idx[..|idx|] == idx && idx[|idx|..] == [];
    assert SendAll(env, sent.0, 0, []) == (sent.0, []);
    assert SendAll(env, Looked(s0), 0, idx) == sent;
    assert FirstOpen(s0, {}, env.clock(s.ticks), 0) == Some(0) && Pick(env, s0, {}) == Some(0);
    assert Fall(env, sent.0, [], {} + {0}) == (sent.0, []);
    assert Fall(env, s0, idx, {}) == sent;
  }

  lemma OneChunk(env: Env, s: State)
    requires ValidState(env, s) && 0 < |s.out| <= env.chunks[0]
    ensures All(env, s, 0) == Chunk(env, s, Indices(0, |s.out|))
  {
    assert ChunkEnd(env, s, 0) == |s.out|;
  }

  /**
   Where a reply is not refused whole, a call can be rejected for its size although it shared its only
   request with another call, and the second endpoint was never asked.
   */
  lemma MixedReplyRejects(env: Env, s: State)
    requires MixedReply(env) && s == State([None, None], map[], [0, 0], [0, 0], 0, [])
    ensures Taking(env, s, 2)
    ensures var s' := All(env, s, 0);
            && s'.out == [Some(Rejected(Some(Failure(0, TooLarge)))), Some(Fulfilled("x"))]
            && s'.log == [Request(0, [Ask(0, TooLarge), Ask(1, Value("x"))])]
  {
    var idx := Indices(0, |s.out|);
    assert s.(lastError := map[]) == s;
    MixedSend(env, Looked(s), idx);
    OneChunk(env, s);
    OneSlice(env, s, idx);
  }
}
