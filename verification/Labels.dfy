/**
 A round's sentences and labels, interned (packages/worker/src/insightsdb.ts, sentenceIds, labelIds,
 commitInsights), and the view that shows each row with its label and sentence (packages/core/src/ddl.ts).

 float32 is given by what the code relies on: rounding to it is idempotent, and what the driver shows for
 a stored value rounds back to it.
 */
module Labels {
  import opened Common
  import opened Interning

  datatype Float = Float(fround: real -> real, shown: real -> real)

  ghost predicate ValidFloat(fl: Float) {
    forall x: real :: fl.fround(fl.fround(x)) == fl.fround(x) && fl.fround(fl.shown(fl.fround(x))) == fl.fround(x)
  }

  datatype Row = Row(block: nat, index: nat, lane: string, laneP: Option<real>, ruled: bool, protocol: string,
                     facts: seq<string>, probabilities: Option<string>, sentence: string, model: Option<string>)

  datatype Pair = Pair(sentence: string, model: string)

  datatype Label = Label(lane: string, p: Option<real>, ruled: bool, protocol: Option<string>, facts: seq<string>, sid: nat)

  // ----- facts, joined and split -----------------------------------------------------------------

  /** `facts.join(',')`, and array_to_string. */
  function Join(facts: seq<string>): string {
    if facts == [] then ""
    else if |facts| == 1 then facts[0]
    else Join(facts[..|facts| - 1]) + "," + facts[|facts| - 1]
  }

  /** string_to_array(s, ','). */
  function SplitAll(s: string): (parts: seq<string>)
    ensures parts != []
  {
    if s == "" then [""]
    else
      var before, c := SplitAll(s[..|s| - 1]), s[|s| - 1];
      if c == ',' then before + [""] else before[|before| - 1 := before[|before| - 1] + [c]]
  }

  /** The facts as stored. */
  function Split(f: string): seq<string> {
    if f == "" then [] else SplitAll(f)
  }

  predicate NoComma(s: string) {
    forall i :: 0 <= i < |s| ==> s[i] != ','
  }

  predicate NoCommas(parts: seq<string>) {
    forall i :: 0 <= i < |parts| ==> NoComma(parts[i])
  }

  lemma JoinMore(init: seq<string>, last: string)
    requires init != []
    ensures Join(init + [last]) == Join(init) + "," + last
  {
    assert (init + [last])[..|init|] == init;
  }

  lemma JoinLonger(parts: seq<string>, c: char)
    requires parts != []
    ensures Join(parts[|parts| - 1 := parts[|parts| - 1] + [c]]) == Join(parts) + [c]
  {
    var init, last := parts[..|parts| - 1], parts[|parts| - 1];
    assert parts == init + [last] && parts[|parts| - 1 := last + [c]] == init + [last + [c]];
    if init != [] {
      JoinMore(init, last);
      JoinMore(init, last + [c]);
      assert Join(init) + "," + (last + [c]) == Join(init) + "," + last + [c];
    }
  }

  /** Splitting loses nothing: joined again, it is the same string. */
  lemma {:induction false} JoinOfSplitAll(s: string)
    ensures Join(SplitAll(s)) == s && NoCommas(SplitAll(s))
  {
    if s != "" {
      var init, c := s[..|s| - 1], s[|s| - 1];
      JoinOfSplitAll(init);
      assert s == init + [c];
      if c == ',' {
        JoinMore(SplitAll(init), "");
      } else {
        JoinLonger(SplitAll(init), c);
      }
    }
  }

  lemma JoinOfSplit(f: string)
    ensures Join(Split(f)) == f && NoCommas(Split(f))
  {
    JoinOfSplitAll(f);
  }

  lemma {:induction false} SplitAfterComma(a: string, b: string)
    requires NoComma(b)
    ensures SplitAll(a + "," + b) == SplitAll(a) + [b]
    decreases |b|
  {
    var s := a + "," + b;
    if b == "" {
      assert s[..|s| - 1] == a && s[|s| - 1] == ',';
    } else {
      var init := b[..|b| - 1];
      SplitAfterComma(a, init);
      assert s[..|s| - 1] == a + "," + init && s[|s| - 1] == b[|b| - 1];
      assert init + [b[|b| - 1]] == b;
    }
  }

  lemma {:induction false} SplitOfOne(s: string)
    requires NoComma(s)
    ensures SplitAll(s) == [s]
  {
    if s != "" {
      SplitOfOne(s[..|s| - 1]);
      assert s == s[..|s| - 1] + [s[|s| - 1]];
    }
  }

  lemma {:induction false} SplitAllOfJoin(facts: seq<string>)
    requires facts != [] && NoCommas(facts)
    ensures SplitAll(Join(facts)) == facts
  {
    var init, last := facts[..|facts| - 1], facts[|facts| - 1];
    assert facts == init + [last];
    if init == [] {
      SplitOfOne(last);
    } else {
      SplitAllOfJoin(init);
      JoinMore(init, last);
      SplitAfterComma(Join(init), last);
    }
  }

  /** The facts come back as they went in exactly when none holds a comma and they are not one empty fact. */
  lemma FactsRoundTrip(facts: seq<string>)
    ensures Split(Join(facts)) == facts <==> NoCommas(facts) && facts != [""]
  {
    JoinOfSplit(Join(facts));
    if facts != [] && NoCommas(facts) {
      SplitAllOfJoin(facts);
      if |facts| > 1 { JoinMore(facts[..|facts| - 1], facts[|facts| - 1]); assert facts == facts[..|facts| - 1] + [facts[|facts| - 1]]; }
      if |facts| == 1 { assert facts == [facts[0]]; }
    }
  }

  // ----- keys ------------------------------------------------------------------------------------

  const NUL := '\0'

  /** The key of a sentence's Map entry. */
  function SentenceKey(p: Pair): string {
    p.model + [NUL] + p.sentence
  }

  /** It tells pairs apart: no text PostgreSQL stores holds a NUL. */
  lemma SentenceKeyTells(p: Pair, q: Pair)
    requires NUL !in p.model && NUL !in q.model && SentenceKey(p) == SentenceKey(q)
    ensures p == q
  {
    var k := SentenceKey(p);
    assert k[|p.model|] == NUL && k[|q.model|] == NUL;
    assert forall i :: 0 <= i < |p.model| ==> k[i] == p.model[i];
    assert forall i :: 0 <= i < |q.model| ==> k[i] == q.model[i];
    assert |p.model| == |q.model|;
    assert k[..|p.model|] == p.model && k[..|q.model|] == q.model;
    assert k[|p.model| + 1..] == p.sentence && k[|q.model| + 1..] == q.sentence;
  }

  function PairOf(r: Row): Pair {
    Pair(r.sentence, if r.model.Some? then r.model.value else "")
  }

  function Rounded(fl: Float, p: Option<real>): Option<real> {
    if p.None? then None else Some(fl.fround(p.value))
  }

  function OrNull(s: string): Option<string> {
    if s == "" then None else Some(s)
  }

  /** The label as inserted: facts joined to travel, split again in SQL. */
  function LabelOf(fl: Float, r: Row, sid: nat): Label {
    Label(r.lane, Rounded(fl, r.laneP), r.ruled, OrNull(r.protocol), Split(Join(r.facts)), sid)
  }

  /** The key of a label's Map entry. */
  datatype Key = Key(lane: string, p: Option<real>, ruled: bool, protocol: Option<string>, f: string, sid: nat)

  /** The key of the value sent. */
  function SentKey(fl: Float, r: Row, sid: nat): Key {
    Key(r.lane, Rounded(fl, r.laneP), r.ruled, OrNull(r.protocol), Join(r.facts), sid)
  }

  /** The key of the value read back: lane_p as the driver shows it, facts as array_to_string gives them. */
  function ReadKey(fl: Float, l: Label): Key {
    Key(l.lane, if l.p.None? then None else Some(fl.fround(fl.shown(l.p.value))), l.ruled, l.protocol, Join(l.facts), l.sid)
  }

  lemma ShownRoundsBack(fl: Float, x: real)
    requires ValidFloat(fl)
    ensures fl.fround(fl.shown(fl.fround(x))) == fl.fround(x)
  {
  }

  /** The select after the insert finds each label under the key it was sent with. */
  lemma SentIsRead(fl: Float, r: Row, sid: nat)
    requires ValidFloat(fl)
    ensures ReadKey(fl, LabelOf(fl, r, sid)) == SentKey(fl, r, sid)
  {
    JoinOfSplit(Join(r.facts));
    if r.laneP.Some? { ShownRoundsBack(fl, r.laneP.value); }
  }

  /** A label as the insert writes it. */
  ghost predicate Written(fl: Float, l: Label) {
    l.facts == Split(Join(l.facts)) && (l.p.Some? ==> fl.fround(fl.shown(l.p.value)) == l.p.value)
  }

  lemma SentIsWritten(fl: Float, r: Row, sid: nat)
    requires ValidFloat(fl)
    ensures Written(fl, LabelOf(fl, r, sid))
  {
    JoinOfSplit(Join(r.facts));
    if r.laneP.Some? { ShownRoundsBack(fl, r.laneP.value); }
  }

  /** And under no other: written labels read back under one key are one label. */
  lemma ReadKeyTells(fl: Float, l: Label, m: Label)
    requires Written(fl, l) && Written(fl, m) && ReadKey(fl, l) == ReadKey(fl, m)
    ensures l == m
  {
  }

  // ----- a round, committed ----------------------------------------------------------------------

  datatype Store = Store(sentences: Table<Pair>, labels: Table<Label>, insights: map<(nat, nat), (string, nat)>)

  function Pairs(rows: seq<Row>): seq<Pair> {
    seq(|rows|, i requires 0 <= i < |rows| => PairOf(rows[i]))
  }

  function SidOf(t: Table<Pair>, r: Row): nat {
    if PairOf(r) in t.ids then t.ids[PairOf(r)] else 0
  }

  function LabelsOf(fl: Float, t: Table<Pair>, rows: seq<Row>): seq<Label> {
    seq(|rows|, i requires 0 <= i < |rows| => LabelOf(fl, rows[i], SidOf(t, rows[i])))
  }

  /** INSERT INTO _insights ... ON CONFLICT DO NOTHING. */
  function Insert(insights: map<(nat, nat), (string, nat)>, rows: seq<Row>, ids: map<Label, nat>, labels: seq<Label>): map<(nat, nat), (string, nat)>
    requires |labels| == |rows|
  {
    if rows == [] then insights
    else
      var n := |rows| - 1;
      var before := Insert(insights, rows[..n], ids, labels[..n]);
      var at := (rows[n].block, rows[n].index);
      if at in before || labels[n] !in ids then before else before[at := (rows[n].lane, ids[labels[n]])]
  }

  function Commit(fl: Float, st: Store, rows: seq<Row>): Store {
    var sentences := InsertAll(st.sentences, Pairs(rows));
    var labels := InsertAll(st.labels, LabelsOf(fl, sentences, rows));
    Store(sentences, labels, Insert(st.insights, rows, labels.ids, LabelsOf(fl, sentences, rows)))
  }

  /** Rolled back, only the identity values stay taken. */
  function RollBack(st: Store, tried: Store): Store {
    Store(Table(st.sentences.ids, tried.sentences.next), Table(st.labels.ids, tried.labels.next), st.insights)
  }

  datatype Round = Round(rows: seq<Row>, committed: bool)

  function Run(fl: Float, st: Store, rounds: seq<Round>): Store
    decreases |rounds|
  {
    if rounds == [] then st
    else
      var tried := Commit(fl, st, rounds[0].rows);
      Run(fl, if rounds[0].committed then tried else RollBack(st, tried), rounds[1..])
  }

  ghost predicate ValidStore(st: Store) {
    Valid(st.sentences) && Valid(st.labels)
  }

  /** What is stored stays: entries with their ids, and rows. */
  ghost predicate Keeps(st: Store, st': Store) {
    && (forall k :: k in st.sentences.ids ==> k in st'.sentences.ids && st'.sentences.ids[k] == st.sentences.ids[k])
    && (forall k :: k in st.labels.ids ==> k in st'.labels.ids && st'.labels.ids[k] == st.labels.ids[k])
    && (forall at :: at in st.insights ==> at in st'.insights && st'.insights[at] == st.insights[at])
  }

  lemma {:induction false} InsertKeeps(insights: map<(nat, nat), (string, nat)>, rows: seq<Row>, ids: map<Label, nat>, labels: seq<Label>)
    requires |labels| == |rows|
    ensures forall at :: at in insights ==>
              at in Insert(insights, rows, ids, labels) && Insert(insights, rows, ids, labels)[at] == insights[at]
  {
    if rows != [] { InsertKeeps(insights, rows[..|rows| - 1], ids, labels[..|rows| - 1]); }
  }

  lemma CommitKeeps(fl: Float, st: Store, rows: seq<Row>)
    requires ValidStore(st)
    ensures ValidStore(Commit(fl, st, rows)) && Keeps(st, Commit(fl, st, rows))
    ensures ValidStore(RollBack(st, Commit(fl, st, rows)))
  {
    var sentences := InsertAll(st.sentences, Pairs(rows));
    var ls := LabelsOf(fl, sentences, rows);
    InsertAllKeeps(st.sentences, Pairs(rows));
    InsertAllKeeps(st.labels, ls);
    InsertKeeps(st.insights, rows, InsertAll(st.labels, ls).ids, ls);
  }

  /** Over any rounds, committed or rolled back, nothing is re-pointed. */
  lemma {:induction false} RunKeeps(fl: Float, st: Store, rounds: seq<Round>)
    requires ValidStore(st)
    ensures ValidStore(Run(fl, st, rounds)) && Keeps(st, Run(fl, st, rounds))
    decreases |rounds|
  {
    if rounds != [] {
      CommitKeeps(fl, st, rounds[0].rows);
      var tried := Commit(fl, st, rounds[0].rows);
      RunKeeps(fl, if rounds[0].committed then tried else RollBack(st, tried), rounds[1..]);
    }
  }

  /** A round that is rolled back leaves nothing but the identity values it took; a committed one leaves all it wrote. */
  lemma {:induction false} RoundsAct(fl: Float, st: Store, rounds: seq<Round>, round: Round)
    ensures var was, now, tried := Run(fl, st, rounds), Run(fl, st, rounds + [round]), Commit(fl, Run(fl, st, rounds), round.rows);
            if round.committed then now == tried
            else
              && now.sentences.ids == was.sentences.ids && now.labels.ids == was.labels.ids && now.insights == was.insights
              && now.sentences.next == tried.sentences.next && now.labels.next == tried.labels.next
    decreases |rounds|
  {
    if rounds == [] {
      assert [round][1..] == [];
      assert [] + [round] == [round];
    } else {
      var tried := Commit(fl, st, rounds[0].rows);
      assert (rounds + [round])[1..] == rounds[1..] + [round];
      RoundsAct(fl, if rounds[0].committed then tried else RollBack(st, tried), rounds[1..], round);
    }
  }

  // ----- the view --------------------------------------------------------------------------------

  /** A row of _insights_full. */
  datatype Full = Full(lane: string, p: Option<real>, ruled: bool, protocol: Option<string>, facts: seq<string>,
                       sentence: string, model: Option<string>)

  /** The view's joins. */
  ghost predicate Shows(st: Store, at: (nat, nat), full: Full) {
    at in st.insights &&
    exists l, p :: Holds(st.labels, st.insights[at].1, l) && Holds(st.sentences, l.sid, p) &&
                   full == Full(st.insights[at].0, l.p, l.ruled, l.protocol, l.facts, p.sentence, OrNull(p.model))
  }

  function Expected(fl: Float, r: Row): Full {
    Full(r.lane, Rounded(fl, r.laneP), r.ruled, OrNull(r.protocol), Split(Join(r.facts)), r.sentence, OrNull(PairOf(r).model))
  }

  /** Every row of a round finds its sentence's id and its label's: no lookup misses. */
  lemma NoMiss(fl: Float, st: Store, rows: seq<Row>, i: nat)
    requires ValidStore(st) && i < |rows|
    ensures var st' := Commit(fl, st, rows);
            var sid := SidOf(st'.sentences, rows[i]);
            Holds(st'.sentences, sid, PairOf(rows[i])) && LabelOf(fl, rows[i], sid) in st'.labels.ids
  {
    var sentences := InsertAll(st.sentences, Pairs(rows));
    InsertAllKeeps(st.sentences, Pairs(rows));
    assert Pairs(rows)[i] == PairOf(rows[i]);
    InsertAllKeeps(st.labels, LabelsOf(fl, sentences, rows));
    assert LabelsOf(fl, sentences, rows)[i] == LabelOf(fl, rows[i], SidOf(sentences, rows[i]));
  }

  lemma {:induction false} InsertHas(insights: map<(nat, nat), (string, nat)>, rows: seq<Row>, ids: map<Label, nat>, labels: seq<Label>, i: nat)
    requires |labels| == |rows| && i < |rows| && labels[i] in ids && (rows[i].block, rows[i].index) !in insights
    requires forall j :: 0 <= j < i ==> (rows[j].block, rows[j].index) != (rows[i].block, rows[i].index)
    ensures var at := (rows[i].block, rows[i].index);
            at in Insert(insights, rows, ids, labels) && Insert(insights, rows, ids, labels)[at] == (rows[i].lane, ids[labels[i]])
  {
    var n := |rows| - 1;
    if i < n {
      InsertHas(insights, rows[..n], ids, labels[..n], i);
    } else {
      InsertMisses(insights, rows[..n], ids, labels[..n], (rows[i].block, rows[i].index));
    }
  }

  lemma {:induction false} InsertMisses(insights: map<(nat, nat), (string, nat)>, rows: seq<Row>, ids: map<Label, nat>, labels: seq<Label>, at: (nat, nat))
    requires |labels| == |rows| && at !in insights && forall j :: 0 <= j < |rows| ==> (rows[j].block, rows[j].index) != at
    ensures at !in Insert(insights, rows, ids, labels)
  {
    if rows != [] { InsertMisses(insights, rows[..|rows| - 1], ids, labels[..|rows| - 1], at); }
  }

  /** What the view shows is the row's own: its facts unless commas were lost, and no empty protocol or model. */
  ghost predicate Own(fl: Float, r: Row, full: Full) {
    && full.lane == r.lane && full.ruled == r.ruled && full.sentence == r.sentence
    && full.p.Some? == r.laneP.Some? && (r.laneP.Some? ==> full.p.value == fl.fround(r.laneP.value))
    && full.protocol == (if r.protocol != "" then Some(r.protocol) else None)
    && full.model == (if r.model != Some("") then r.model else None)
    && (full.facts == r.facts <==> NoCommas(r.facts) && r.facts != [""])
  }

  lemma ExpectedIsOwn(fl: Float, r: Row)
    ensures Own(fl, r, Expected(fl, r))
  {
    FactsRoundTrip(r.facts);
  }

  /**
   A committed row, read back through the view after any later rounds, shows its own lane, float32
   confidence, protocol, facts (as `FactsRoundTrip` says) and sentence, and nothing else.
   */
  lemma RowsRoundTrip(fl: Float, st: Store, rows: seq<Row>, i: nat, later: seq<Round>, full: Full)
    requires ValidStore(st) && i < |rows| && (rows[i].block, rows[i].index) !in st.insights
    requires forall j :: 0 <= j < i ==> (rows[j].block, rows[j].index) != (rows[i].block, rows[i].index)
    ensures Shows(Run(fl, Commit(fl, st, rows), later), (rows[i].block, rows[i].index), full) <==> full == Expected(fl, rows[i])
    ensures Shows(Run(fl, Commit(fl, st, rows), later), (rows[i].block, rows[i].index), full) ==> Own(fl, rows[i], full)
  {
    ExpectedIsOwn(fl, rows[i]);
    var st1 := Commit(fl, st, rows);
    var st2, at := Run(fl, st1, later), (rows[i].block, rows[i].index);
    CommitKeeps(fl, st, rows);
    NoMiss(fl, st, rows, i);
    RunKeeps(fl, st1, later);
    var sid := SidOf(st1.sentences, rows[i]);
    var ls := LabelsOf(fl, st1.sentences, rows);
    assert ls[i] == LabelOf(fl, rows[i], sid);
    InsertHas(st.insights, rows, st1.labels.ids, ls, i);
    assert Holds(st2.labels, st2.insights[at].1, ls[i]) && Holds(st2.sentences, ls[i].sid, PairOf(rows[i]));
  }

  // ----- answers ---------------------------------------------------------------------------------

  /** What a round's last row for a sentence and model brings. */
  function Brought(rows: seq<Row>, k: Pair): Option<string> {
    if rows == [] then None
    else if PairOf(rows[|rows| - 1]) == k then rows[|rows| - 1].probabilities
    else Brought(rows[..|rows| - 1], k)
  }

  /** The insert of new pairs, and the update of those without an answer. */
  function Answers(answers: map<Pair, Option<string>>, rows: seq<Row>): map<Pair, Option<string>> {
    map k | k in answers.Keys + (set p | p in Pairs(rows)) ::
      if k in answers && answers[k].Some? then answers[k] else Brought(rows, k)
  }

  /** An answer once stored stays; a pair without one has one after the round exactly when its last row in the round brings it. */
  lemma AnswersStay(answers: map<Pair, Option<string>>, rows: seq<Row>, k: Pair)
    requires k in answers || k in Pairs(rows)
    ensures k in Answers(answers, rows)
    ensures k in answers && answers[k].Some? ==> Answers(answers, rows)[k] == answers[k]
    ensures !(k in answers && answers[k].Some?) ==>
              (Answers(answers, rows)[k].Some? <==>
               exists i :: 0 <= i < |rows| && PairOf(rows[i]) == k && rows[i].probabilities.Some? &&
                           forall j :: i < j < |rows| ==> PairOf(rows[j]) != k)
  {
    BroughtByLast(rows, k);
  }

  lemma {:induction false} BroughtByLast(rows: seq<Row>, k: Pair)
    ensures Brought(rows, k).Some? <==>
              exists i :: 0 <= i < |rows| && PairOf(rows[i]) == k && rows[i].probabilities.Some? &&
                          forall j :: i < j < |rows| ==> PairOf(rows[j]) != k
  {
    if rows != [] {
      var init, n := rows[..|rows| - 1], |rows| - 1;
      BroughtByLast(init, k);
      if PairOf(rows[n]) != k && Brought(init, k).Some? {
        var i :| 0 <= i < |init| && PairOf(init[i]) == k && init[i].probabilities.Some? &&
                 forall j :: i < j < |init| ==> PairOf(init[j]) != k;
        assert PairOf(rows[i]) == k && rows[i].probabilities.Some?;
        forall j | i < j < |rows|
          ensures PairOf(rows[j]) != k
        {
          assert j == n || rows[j] == init[j];
        }
      }
      if i :| 0 <= i < |rows| && PairOf(rows[i]) == k && rows[i].probabilities.Some? &&
              forall j :: i < j < |rows| ==> PairOf(rows[j]) != k {
        if i < n {
          assert init[i] == rows[i];
          assert forall j :: i < j < |init| ==> init[j] == rows[j];
        }
      }
    }
  }

  /** The answers after these rounds; one rolled back brings none. */
  function AnswersAfter(answers: map<Pair, Option<string>>, rounds: seq<Round>): map<Pair, Option<string>>
    decreases |rounds|
  {
    if rounds == [] then answers
    else AnswersAfter(if rounds[0].committed then Answers(answers, rounds[0].rows) else answers, rounds[1..])
  }

  /** What the first committed round whose last row for a pair brings an answer brings. */
  function FirstBrought(rounds: seq<Round>, k: Pair): Option<string>
    decreases |rounds|
  {
    if rounds == [] then None
    else if rounds[0].committed && Brought(rounds[0].rows, k).Some? then Brought(rounds[0].rows, k)
    else FirstBrought(rounds[1..], k)
  }

  predicate Brings(round: Round, k: Pair) {
    round.committed && Brought(round.rows, k).Some?
  }

  lemma {:induction false} FirstBroughtIsFirst(rounds: seq<Round>, k: Pair)
    ensures FirstBrought(rounds, k).Some? <==> exists i :: 0 <= i < |rounds| && Brings(rounds[i], k)
    decreases |rounds|
  {
    if rounds != [] {
      FirstBroughtIsFirst(rounds[1..], k);
      if i :| 0 <= i < |rounds[1..]| && Brings(rounds[1..][i], k) { assert Brings(rounds[i + 1], k); }
      if i :| 0 <= i < |rounds| && Brings(rounds[i], k) {
        if i > 0 { assert Brings(rounds[1..][i - 1], k); }
      }
    }
  }

  /** One round: what was stored stays, and what was not is what the round's last row for the pair brings. */
  lemma AnswersOne(answers: map<Pair, Option<string>>, rows: seq<Row>, k: Pair)
    ensures k in Answers(answers, rows) <==> k in answers || k in Pairs(rows)
    ensures k in Answers(answers, rows) ==>
              Answers(answers, rows)[k] == if k in answers && answers[k].Some? then answers[k] else Brought(rows, k)
    ensures Brought(rows, k).Some? ==> k in Pairs(rows)
  {
    BroughtByLast(rows, k);
    if i :| 0 <= i < |rows| && PairOf(rows[i]) == k { assert Pairs(rows)[i] == k; }
  }

  /**
   Over any rounds, committed or rolled back: an answer once stored is there after all later rounds; any
   other pair has the answer of the first committed round whose last row for it brings one, and none
   exactly where no committed round does so.
   */
  lemma {:induction false} AnswersOverRounds(answers: map<Pair, Option<string>>, rounds: seq<Round>, k: Pair)
    requires k in AnswersAfter(answers, rounds)
    ensures AnswersAfter(answers, rounds)[k] == if k in answers && answers[k].Some? then answers[k] else FirstBrought(rounds, k)
    ensures AnswersAfter(answers, rounds)[k].None? <==>
              !(k in answers && answers[k].Some?) && forall i :: 0 <= i < |rounds| ==> !Brings(rounds[i], k)
    decreases |rounds|
  {
    FirstBroughtIsFirst(rounds, k);
    if rounds != [] {
      AnswersOne(answers, rounds[0].rows, k);
      AnswersOverRounds(if rounds[0].committed then Answers(answers, rounds[0].rows) else answers, rounds[1..], k);
    }
  }

  /** And it is the stored sentences, of any run, that have answers or none. */
  lemma {:induction false} AnswersAreOfSentences(fl: Float, st: Store, answers: map<Pair, Option<string>>, rounds: seq<Round>, k: Pair)
    requires ValidStore(st) && (k in answers <==> k in st.sentences.ids)
    ensures k in AnswersAfter(answers, rounds) <==> k in Run(fl, st, rounds).sentences.ids
    decreases |rounds|
  {
    if rounds != [] {
      var tried := Commit(fl, st, rounds[0].rows);
      AnswersOne(answers, rounds[0].rows, k);
      CommitKeeps(fl, st, rounds[0].rows);
      InsertAllKeeps(st.sentences, Pairs(rounds[0].rows));
      AnswersAreOfSentences(fl, if rounds[0].committed then tried else RollBack(st, tried),
                            if rounds[0].committed then Answers(answers, rounds[0].rows) else answers, rounds[1..], k);
    }
  }

  /** So an answer can be lost in its own round, to a later row of the same sentence that was ruled without one. */
  lemma AnswerLostInRound(answered: Row, ruled: Row)
    requires PairOf(answered) == PairOf(ruled) && answered.probabilities.Some? && ruled.probabilities.None?
    ensures var k, rows := PairOf(answered), [answered, ruled];
            k in Answers(map[], rows) && Answers(map[], rows)[k].None?
  {
    var rows := [answered, ruled];
    assert Pairs(rows)[0] == PairOf(answered);
  }
}
