/** The viewers' questions and their turns, updated in place (class Radar of radar/radar/server.py). */
module QuestionRotas {
  import opened Common
  import R = Rotation

  datatype Rule = Rule(viewer: string, sentence: string)

  datatype Question = Question(slot: R.Slot, sentence: string)

  function Names(rules: seq<Rule>, slotName: string -> R.Slot): (names: seq<R.Slot>)
    ensures |names| == |rules|
  {
    seq(|rules|, i requires 0 <= i < |rules| => slotName(rules[i].sentence))
  }

  function SlotsOf(questions: seq<Question>): (slots: seq<R.Slot>)
    ensures |slots| == |questions|
  {
    seq(|questions|, i requires 0 <= i < |questions| => questions[i].slot)
  }

  /** A dictionary in insertion order: the rules of all viewers but one. */
  function Without(rules: seq<Rule>, viewer: string): seq<Rule> {
    if rules == [] then []
    else
      var last := rules[|rules| - 1];
      Without(rules[..|rules| - 1], viewer) + if last.viewer == viewer then [] else [last]
  }

  /** A viewer asks this sentence, and this is its slot. */
  ghost predicate IsAsked(rules: seq<Rule>, slotName: string -> R.Slot, slot: R.Slot, sentence: string) {
    slotName(sentence) == slot && exists r :: r in rules && r.sentence == sentence
  }

  ghost predicate AllAsked(rules: seq<Rule>, slotName: string -> R.Slot, questions: seq<Question>) {
    forall i :: 0 <= i < |questions| ==> IsAsked(rules, slotName, questions[i].slot, questions[i].sentence)
  }

  lemma SlotsOfNext(questions: seq<Question>, q: Question, order: seq<R.Slot>, i: nat)
    requires i < |order| && SlotsOf(questions) == order[..i] && q.slot == order[i]
    ensures SlotsOf(questions + [q]) == order[..i + 1]
  {
  }

  lemma StampedNext(kept: map<R.Slot, int>, slots: seq<R.Slot>, i: nat, now: int)
    requires i < |slots|
    ensures R.Stamped(kept, slots[..i], now)[slots[i] := now] == R.Stamped(kept, slots[..i + 1], now)
  {
    assert slots[..i + 1] == slots[..i] + [slots[i]];
  }

  lemma StampedNone(kept: map<R.Slot, int>, now: int)
    ensures R.Stamped(kept, [], now) == kept
  {
  }

  class QuestionRota {
    const slotName: string -> R.Slot
    const limit: nat
    var rules: seq<Rule>
    var lastServed: map<R.Slot, int>

    constructor (slotName: string -> R.Slot)
      ensures rules == [] && lastServed == map[] && limit == R.MAX_RULES && this.slotName == slotName
    {
      this.slotName, limit := slotName, R.MAX_RULES;
      rules, lastServed := [], map[];
    }

    function Asked(): seq<R.Slot>
      reads this`rules
    {
      Names(rules, slotName)
    }

    /** A viewer leaves, or takes its question back. */
    method Drop(viewer: string)
      modifies this`rules
      ensures rules == Without(old(rules), viewer)
    {
      var kept := [];
      for i := 0 to |rules|
        invariant kept == Without(rules[..i], viewer)
      {
        assert rules[..i + 1][..i] == rules[..i];
        if rules[i].viewer != viewer { kept := kept + [rules[i]]; }
      }
      assert rules[..|rules|] == rules;
      rules := kept;
    }

    /** A question accepted is the newest, whatever its viewer asked before. */
    method Ask(viewer: string, sentence: string)
      modifies this`rules
      ensures rules == Without(old(rules), viewer) + [Rule(viewer, sentence)]
    {
      Drop(viewer);
      rules := rules + [Rule(viewer, sentence)];
    }

    /** `pending`: each slot with a sentence it names, in the order first asked. */
    method Pending() returns (slots: seq<R.Slot>, pending: map<R.Slot, string>)
      ensures slots == Unique(Asked())
      ensures forall slot :: slot in pending <==> slot in slots
      ensures forall slot :: slot in pending ==> IsAsked(rules, slotName, slot, pending[slot])
    {
      slots, pending := [], map[];
      for i := 0 to |rules|
        invariant slots == Unique(Asked()[..i])
        invariant forall slot :: slot in pending <==> slot in slots
        invariant forall slot :: slot in pending ==> IsAsked(rules, slotName, slot, pending[slot])
      {
        assert Asked()[..i + 1][..i] == Asked()[..i];
        assert rules[i] in rules;
        var slot := slotName(rules[i].sentence);
        if slot !in pending { slots := slots + [slot]; }
        pending := pending[slot := rules[i].sentence];
      }
      assert Asked()[..|rules|] == Asked();
    }

    /** `next_slots`. */
    method NextSlots() returns (questions: seq<Question>)
      ensures SlotsOf(questions) == R.NextSlots(Asked(), lastServed, limit)
      ensures AllAsked(rules, slotName, questions)
    {
      var slots, pending := Pending();
      var order := R.Sorted(slots, lastServed);
      R.OrderOfNames(Asked(), lastServed);
      UniqueMembers(Asked());
      questions := Pick(order[..Min(limit, |order|)], pending);
    }

    method Pick(order: seq<R.Slot>, pending: map<R.Slot, string>) returns (questions: seq<Question>)
      requires forall i :: 0 <= i < |order| ==> order[i] in pending
      requires forall slot :: slot in pending ==> IsAsked(rules, slotName, slot, pending[slot])
      ensures SlotsOf(questions) == order && AllAsked(rules, slotName, questions)
    {
      questions := [];
      for i := 0 to |order|
        invariant SlotsOf(questions) == order[..i] && AllAsked(rules, slotName, questions)
      {
        SlotsOfNext(questions, Question(order[i], pending[order[i]]), order, i);
        questions := questions + [Question(order[i], pending[order[i]])];
      }
    }

    /** Slots nobody asks any more are forgotten, one at a time. */
    method Prune()
      modifies this`lastServed
      ensures lastServed == R.Pruned(Asked(), old(lastServed))
    {
      var live := Asked();
      var todo := lastServed.Keys;
      while todo != {}
        invariant todo <= old(lastServed).Keys
        invariant forall slot :: slot in lastServed <==> slot in old(lastServed) && (slot in todo || slot in live)
        invariant forall slot :: slot in lastServed ==> lastServed[slot] == old(lastServed)[slot]
        decreases |todo|
      {
        var slot :| slot in todo;
        todo := todo - {slot};
        if slot !in live { lastServed := lastServed - {slot}; }
      }
    }

    /** `rules_by_slot`: the batch's questions, which take their turn at `now`. */
    method RulesBySlot(now: int) returns (questions: seq<Question>)
      modifies this`lastServed
      ensures (SlotsOf(questions), lastServed) == R.Turn(Asked(), old(lastServed), now, limit)
      ensures AllAsked(rules, slotName, questions)
    {
      Prune();
      questions := NextSlots();
      Stamp(SlotsOf(questions), now);
    }

    method Stamp(slots: seq<R.Slot>, now: int)
      modifies this`lastServed
      ensures lastServed == R.Stamped(old(lastServed), slots, now)
    {
      StampedNone(lastServed, now);
      assert slots[..0] == [];
      for i := 0 to |slots|
        invariant lastServed == R.Stamped(old(lastServed), slots[..i], now)
      {
        StampedNext(old(lastServed), slots, i, now);
        lastServed := lastServed[slots[i] := now];
      }
      assert slots[..|slots|] == slots;
    }
  }
}
