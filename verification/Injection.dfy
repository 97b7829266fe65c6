/**
 * The capped, memoised, single-flight injection decisions of plugin/hooks/inject.ts.
 *
 * A decision is taken and debited at once, then its publish is awaited; renders of the same text that
 * come meanwhile share it. It lands later, possibly after a /clear, and then belongs to the memo and
 * the flights of the session that asked. Sessions are numbered by `gen`, which a /clear raises.
 */
module Injection {
  import opened Base

  const SESSION_CAP_BYTES: nat := 2048

  /** `site|name|text` of a describe or compose decision. */
  datatype Key = Key(site: string, name: string, text: string)

  datatype Fate = Pending | Landed | Rejected

  datatype Decision = Decision(gen: nat, key: Key, verdict: bool, fate: Fate)

  /** A verdict given in an identified session: to a render from the memo, or to all that shared a decision. */
  datatype Answer = Answer(gen: nat, key: Key, verdict: bool)

  /** `admitted` lists the texts admitted in this session; `decisions`, `answers`, `admitted` and `gen` are history. */
  datatype State = State(
    session: string, bytes: nat, sections: nat, memo: map<Key, bool>, flights: map<Key, nat>,
    gen: nat, decisions: seq<Decision>, answers: seq<Answer>, admitted: seq<string>)

  const Init := State("", 0, 0, map[], map[], 0, [], [], [])

  datatype Event =
    | Identify(id: string)
    | Render(key: Key)
    | Skill(text: string)
    | Land(d: nat, published: bool)
    | Clear

  /** Length of the UTF-8 encoding. */
  function Utf8Bytes(text: string): nat {
    if text == "" then 0 else CharBytes(text[0]) + Utf8Bytes(text[1..])
  }

  function CharBytes(c: char): nat {
    var n := c as int;
    if n < 0x80 then 1 else if n < 0x800 then 2 else if n < 0x1_0000 then 3 else 4
  }

  // ---------------------------------------------------------------- operations

  predicate Admits(s: State, holdout: string -> bool, text: string) {
    s.session != "" && !holdout(s.session) && s.bytes + Utf8Bytes(text) <= SESSION_CAP_BYTES
  }

  /** `admit` up to its await: arm, cap and debit. */
  function DoAdmit(s: State, holdout: string -> bool, text: string): State {
    if Admits(s, holdout, text)
    then s.(bytes := s.bytes + Utf8Bytes(text), sections := s.sections + 1, admitted := s.admitted + [text])
    else s
  }

  function DoRender(s: State, holdout: string -> bool, key: Key): State {
    if key in s.memo then s.(answers := s.answers + [Answer(s.gen, key, s.memo[key])])
    else if s.session == "" || key in s.flights then s
    else
      DoAdmit(s, holdout, key.text).(
        decisions := s.decisions + [Decision(s.gen, key, Admits(s, holdout, key.text), Pending)],
        flights := s.flights[key := |s.decisions|])
  }

  /** What the renders that shared a settled decision get: a rejected publish withholds an admitted text. */
  predicate Outcome(d: Decision) {
    d.verdict && d.fate == Landed
  }

  /** The decision's promise settles; only an admitted one awaits a publish, which may be rejected. */
  function DoLand(s: State, d: nat, published: bool): State
    requires d < |s.decisions|
  {
    var x := s.decisions[d];
    var ok := published || !x.verdict;
    var s1 := s.(decisions := s.decisions[d := x.(fate := if ok then Landed else Rejected)],
                 answers := s.answers + [Answer(x.gen, x.key, ok && x.verdict)]);
    if x.gen == s.gen
    then s1.(memo := if ok then s.memo[x.key := x.verdict] else s.memo, flights := s.flights - {x.key})
    else s1
  }

  /** `endSession` and `endInjection` of a /clear or resume. */
  function DoClear(s: State): State {
    s.(session := "", bytes := 0, sections := 0, memo := map[], flights := map[], gen := s.gen + 1, admitted := [])
  }

  predicate CanHappen(s: State, e: Event) {
    e.Land? ==> e.d < |s.decisions| && s.decisions[e.d].fate == Pending
  }

  function Next(s: State, holdout: string -> bool, e: Event): State
    requires CanHappen(s, e)
  {
    match e
    case Identify(id) => if s.session == "" then s.(session := id) else s
    case Render(key) => DoRender(s, holdout, key)
    case Skill(text) => DoAdmit(s, holdout, text)
    case Land(d, published) => DoLand(s, d, published)
    case Clear => DoClear(s)
  }

  predicate Happens(holdout: string -> bool, es: seq<Event>)
    decreases es, 0
  {
    es != [] ==> Happens(holdout, es[..|es| - 1]) && CanHappen(Run(holdout, es[..|es| - 1]), es[|es| - 1])
  }

  function Run(holdout: string -> bool, es: seq<Event>): State
    requires Happens(holdout, es)
    decreases es, 1
  {
    if es == [] then Init else Next(Run(holdout, es[..|es| - 1]), holdout, es[|es| - 1])
  }

  lemma RunOneMore(holdout: string -> bool, es: seq<Event>, e: Event)
    requires Happens(holdout, es) && CanHappen(Run(holdout, es), e)
    ensures Happens(holdout, es + [e]) && Run(holdout, es + [e]) == Next(Run(holdout, es), holdout, e)
  {
    assert (es + [e])[..|es|] == es;
  }

  // ---------------------------------------------------------------- the budget

  function SumBytes(texts: seq<string>): nat {
    if texts == [] then 0 else SumBytes(texts[..|texts| - 1]) + Utf8Bytes(texts[|texts| - 1])
  }

  ghost predicate Budget(s: State, holdout: string -> bool) {
    && s.bytes == SumBytes(s.admitted) && s.bytes <= SESSION_CAP_BYTES && s.sections == |s.admitted|
    && (s.session == "" || holdout(s.session) ==> s.admitted == [])
  }

  lemma AdmitBudget(s: State, holdout: string -> bool, text: string)
    requires Budget(s, holdout)
    ensures Budget(DoAdmit(s, holdout, text), holdout)
  {
    assert (s.admitted + [text])[..|s.admitted|] == s.admitted;
  }

  lemma BudgetNext(s: State, holdout: string -> bool, e: Event)
    requires Budget(s, holdout) && CanHappen(s, e)
    ensures Budget(Next(s, holdout, e), holdout)
  {
    match e
    case Render(key) => AdmitBudget(s, holdout, key.text);
    case Skill(text) => AdmitBudget(s, holdout, text);
    case _ =>
  }

  /**
   * In every run of overlapping renders, landings and clears, the injected bytes are the UTF-8 size of
   * the texts admitted in this session and never pass the cap; a holdout or unidentified session admits nothing.
   */
  lemma {:induction false} BudgetRun(holdout: string -> bool, es: seq<Event>)
    requires Happens(holdout, es)
    ensures Budget(Run(holdout, es), holdout)
  {
    if es != [] {
      BudgetRun(holdout, es[..|es| - 1]);
      BudgetNext(Run(holdout, es[..|es| - 1]), holdout, es[|es| - 1]);
    }
  }

  // ---------------------------------------------------------------- one decision per text and session

  predicate Same(a: Decision, b: Decision) {
    a.gen == b.gen && a.key == b.key
  }

  /** Of the decisions on one text in one session, all but the last were rejected. */
  ghost predicate AllButLastRejected(s: State) {
    forall i, j :: 0 <= i < j < |s.decisions| && Same(s.decisions[i], s.decisions[j]) ==> s.decisions[i].fate == Rejected
  }

  predicate InFlight(d: Decision, gen: nat, key: Key) {
    d.gen == gen && d.key == key && d.fate == Pending
  }

  ghost predicate FlightsPending(s: State) {
    forall k :: k in s.flights ==> s.flights[k] < |s.decisions| && InFlight(s.decisions[s.flights[k]], s.gen, k)
  }

  ghost predicate PendingFlown(s: State) {
    forall i: nat :: i < |s.decisions| && s.decisions[i].gen == s.gen && s.decisions[i].fate == Pending ==>
      s.decisions[i].key in s.flights && s.flights[s.decisions[i].key] == i
  }

  ghost predicate LandedRemembered(s: State) {
    forall i: nat :: i < |s.decisions| && s.decisions[i].gen == s.gen && s.decisions[i].fate == Landed ==>
      s.decisions[i].key in s.memo && s.memo[s.decisions[i].key] == s.decisions[i].verdict
  }

  ghost predicate MemoLanded(s: State) {
    forall k :: k in s.memo ==> LandedWith(s, s.gen, k, s.memo[k])
  }

  /** No decision is from a session yet to come, and only a debited text's publish is rejected. */
  ghost predicate Dated(s: State) {
    forall i: nat :: i < |s.decisions| ==>
      s.decisions[i].gen <= s.gen && (s.decisions[i].fate == Rejected ==> s.decisions[i].verdict)
  }

  /** The flights of this session are its pending decisions, its memo the landed ones. */
  ghost predicate Tables(s: State) {
    FlightsPending(s) && PendingFlown(s) && LandedRemembered(s) && MemoLanded(s) && Dated(s)
  }

  predicate LandedWith(s: State, gen: nat, key: Key, verdict: bool) {
    exists i :: 0 <= i < |s.decisions| && s.decisions[i] == Decision(gen, key, verdict, Landed)
  }

  predicate GivenBy(s: State, i: nat, a: Answer)
    requires i < |s.decisions|
  {
    var d := s.decisions[i];
    d.fate != Pending && Answer(d.gen, d.key, Outcome(d)) == a
  }

  ghost predicate Given(s: State, a: Answer) {
    exists i: nat :: i < |s.decisions| && GivenBy(s, i, a)
  }

  /** Every verdict is the outcome of a settled decision, and every settled decision gave its outcome. */
  ghost predicate Answered(s: State) {
    && (forall a :: a in s.answers ==> Given(s, a))
    && (forall i: nat :: i < |s.decisions| && s.decisions[i].fate != Pending ==>
          Answer(s.decisions[i].gen, s.decisions[i].key, Outcome(s.decisions[i])) in s.answers)
  }

  ghost predicate SettledStay(s: State, s': State) {
    && |s.decisions| <= |s'.decisions|
    && forall i: nat :: i < |s.decisions| && s.decisions[i].fate != Pending ==> s'.decisions[i] == s.decisions[i]
  }

  lemma GivenStays(s: State, s': State, a: Answer)
    requires SettledStay(s, s') && Given(s, a)
    ensures Given(s', a)
  {
    var i: nat :| i < |s.decisions| && GivenBy(s, i, a);
    assert GivenBy(s', i, a);
  }

  lemma AllGivenStay(s: State, s': State)
    requires SettledStay(s, s')
    ensures forall a :: Given(s, a) ==> Given(s', a)
  {
    forall a | Given(s, a) ensures Given(s', a) { GivenStays(s, s', a); }
  }

  lemma AllLandedStay(s: State, s': State)
    requires SettledStay(s, s')
    ensures forall g, k, v :: LandedWith(s, g, k, v) ==> LandedWith(s', g, k, v)
  {
    forall g, k, v | LandedWith(s, g, k, v) ensures LandedWith(s', g, k, v) {
      var i :| 0 <= i < |s.decisions| && s.decisions[i] == Decision(g, k, v, Landed);
      assert s'.decisions[i] == s.decisions[i];
    }
  }

  /** A new decision is started only on a text that has neither a standing verdict nor a flight. */
  lemma StartOnlyWhenRejected(s: State, key: Key)
    requires AllButLastRejected(s) && PendingFlown(s) && LandedRemembered(s) && key !in s.memo && key !in s.flights
    ensures forall i :: 0 <= i < |s.decisions| && s.decisions[i].gen == s.gen && s.decisions[i].key == key ==>
      s.decisions[i].fate == Rejected
  {
    forall i: nat | i < |s.decisions| && s.decisions[i].gen == s.gen && s.decisions[i].key == key
      ensures s.decisions[i].fate == Rejected
    {
    }
  }

  lemma StartAnswered(s: State, s': State)
    requires Answered(s) && |s'.decisions| == |s.decisions| + 1 && s'.decisions[..|s.decisions|] == s.decisions
    requires s'.decisions[|s.decisions|].fate == Pending && s'.answers == s.answers
    ensures Answered(s')
  {
    forall i: nat | i < |s.decisions| ensures s'.decisions[i] == s.decisions[i] {
      assert s'.decisions[..|s.decisions|][i] == s.decisions[i];
    }
    AllGivenStay(s, s');
  }

  lemma StartTables(s: State, s': State, key: Key, verdict: bool)
    requires AllButLastRejected(s) && Tables(s) && Answered(s) && key !in s.memo && key !in s.flights
    requires s'.decisions == s.decisions + [Decision(s.gen, key, verdict, Pending)] && s'.flights == s.flights[key := |s.decisions|]
    requires s'.memo == s.memo && s'.answers == s.answers && s'.gen == s.gen
    ensures AllButLastRejected(s') && Tables(s') && Answered(s')
  {
    StartOnlyWhenRejected(s, key);
    AllLandedStay(s, s');
    StartAnswered(s, s');
    assert FlightsPending(s') by {
      forall k | k in s'.flights ensures s'.flights[k] < |s'.decisions| && InFlight(s'.decisions[s'.flights[k]], s'.gen, k) {
        if k != key { assert k in s.flights; }
      }
    }
    assert PendingFlown(s') by {
      forall i: nat | i < |s'.decisions| && s'.decisions[i].gen == s'.gen && s'.decisions[i].fate == Pending
        ensures s'.decisions[i].key in s'.flights && s'.flights[s'.decisions[i].key] == i
      {
        if i < |s.decisions| { assert s'.decisions[i] == s.decisions[i]; }
      }
    }
    assert LandedRemembered(s') by {
      forall i: nat | i < |s'.decisions| && s'.decisions[i].gen == s'.gen && s'.decisions[i].fate == Landed
        ensures s'.decisions[i].key in s'.memo && s'.memo[s'.decisions[i].key] == s'.decisions[i].verdict
      {
        assert s'.decisions[i] == s.decisions[i];
      }
    }
  }

  lemma AnswerAnswered(s: State, s': State, key: Key)
    requires MemoLanded(s) && Answered(s) && key in s.memo
    requires s' == s.(answers := s.answers + [Answer(s.gen, key, s.memo[key])])
    ensures Answered(s')
  {
    AllGivenStay(s, s');
    assert LandedWith(s, s.gen, key, s.memo[key]);
    var i: nat :| i < |s.decisions| && s.decisions[i] == Decision(s.gen, key, s.memo[key], Landed);
    assert GivenBy(s', i, Answer(s.gen, key, s.memo[key]));
  }

  lemma AnswerTables(s: State, s': State)
    requires AllButLastRejected(s) && Tables(s) && s' == s.(answers := s'.answers)
    ensures AllButLastRejected(s') && Tables(s')
  {
    AllLandedStay(s, s');
  }

  lemma RenderTables(s: State, holdout: string -> bool, key: Key)
    requires AllButLastRejected(s) && Tables(s) && Answered(s)
    ensures AllButLastRejected(DoRender(s, holdout, key)) && Tables(DoRender(s, holdout, key)) && Answered(DoRender(s, holdout, key))
  {
    var s' := DoRender(s, holdout, key);
    if key in s.memo {
      AnswerTables(s, s');
      AnswerAnswered(s, s', key);
    } else if s.session != "" && key !in s.flights {
      StartTables(s, s', key, Admits(s, holdout, key.text));
    }
  }

  /** What landing does to the tables, without the case split on the session. */
  lemma LandKeepsOrder(s: State, s': State, d: nat, f: Fate)
    requires AllButLastRejected(s) && d < |s.decisions| && s.decisions[d].fate == Pending && f != Pending
    requires s'.decisions == s.decisions[d := s.decisions[d].(fate := f)]
    ensures AllButLastRejected(s')
  {
    forall i, j | 0 <= i < j < |s'.decisions| && Same(s'.decisions[i], s'.decisions[j])
      ensures s'.decisions[i].fate == Rejected
    {
      assert Same(s.decisions[i], s.decisions[j]);
    }
  }

  lemma LandFlights(s: State, d: nat, published: bool)
    requires Tables(s) && CanHappen(s, Land(d, published))
    ensures FlightsPending(DoLand(s, d, published)) && PendingFlown(DoLand(s, d, published))
  {
    var s' := DoLand(s, d, published);
    forall k | k in s'.flights ensures s'.flights[k] < |s'.decisions| && InFlight(s'.decisions[s'.flights[k]], s'.gen, k) {
      assert k in s.flights;
      assert InFlight(s.decisions[s.flights[k]], s.gen, k);
      assert s.flights[k] != d;
    }
    forall i: nat | i < |s'.decisions| && s'.decisions[i].gen == s'.gen && s'.decisions[i].fate == Pending
      ensures s'.decisions[i].key in s'.flights && s'.flights[s'.decisions[i].key] == i
    {
      assert i != d && s.decisions[i] == s'.decisions[i];
    }
  }

  lemma LandMemo(s: State, d: nat, published: bool)
    requires AllButLastRejected(s) && PendingFlown(s) && LandedRemembered(s) && CanHappen(s, Land(d, published))
    ensures LandedRemembered(DoLand(s, d, published))
  {
    var s' := DoLand(s, d, published);
    forall i: nat | i < |s'.decisions| && s'.decisions[i].gen == s'.gen && s'.decisions[i].fate == Landed
      ensures s'.decisions[i].key in s'.memo && s'.memo[s'.decisions[i].key] == s'.decisions[i].verdict
    {
      if i != d {
        assert s'.decisions[i] == s.decisions[i];
        if i < d && s.decisions[d].gen == s.gen && s.decisions[i].key == s.decisions[d].key {
          assert false;
        }
        if d < i && s.decisions[d].gen == s.gen && s.decisions[i].key == s.decisions[d].key {
          assert false;
        }
      }
    }
  }

  lemma LandRemembers(s: State, d: nat, published: bool)
    requires MemoLanded(s) && Dated(s) && CanHappen(s, Land(d, published))
    ensures MemoLanded(DoLand(s, d, published)) && Dated(DoLand(s, d, published))
  {
    var s' := DoLand(s, d, published);
    var x := s.decisions[d];
    AllLandedStay(s, s');
    if published || !x.verdict {
      assert s'.decisions[d] == Decision(x.gen, x.key, x.verdict, Landed);
      assert LandedWith(s', x.gen, x.key, x.verdict);
    }
  }

  lemma LandAnswers(s: State, d: nat, published: bool)
    requires Answered(s) && CanHappen(s, Land(d, published))
    ensures Answered(DoLand(s, d, published))
  {
    var s' := DoLand(s, d, published);
    var x := s'.decisions[d];
    AllGivenStay(s, s');
    assert s'.answers == s.answers + [Answer(x.gen, x.key, Outcome(x))];
    assert GivenBy(s', d, Answer(x.gen, x.key, Outcome(x)));
  }

  lemma LandTables(s: State, d: nat, published: bool)
    requires AllButLastRejected(s) && Tables(s) && Answered(s) && CanHappen(s, Land(d, published))
    ensures AllButLastRejected(DoLand(s, d, published)) && Tables(DoLand(s, d, published)) && Answered(DoLand(s, d, published))
  {
    LandKeepsOrder(s, DoLand(s, d, published), d, if published || !s.decisions[d].verdict then Landed else Rejected);
    LandFlights(s, d, published);
    LandMemo(s, d, published);
    LandRemembers(s, d, published);
    LandAnswers(s, d, published);
  }

  lemma TablesNext(s: State, holdout: string -> bool, e: Event)
    requires AllButLastRejected(s) && Tables(s) && Answered(s) && CanHappen(s, e)
    ensures var s' := Next(s, holdout, e); AllButLastRejected(s') && Tables(s') && Answered(s')
  {
    match e
    case Render(key) => RenderTables(s, holdout, key);
    case Land(d, published) => LandTables(s, d, published);
    case Clear => OtherTables(s, DoClear(s));
    case Skill(text) => OtherTables(s, DoAdmit(s, holdout, text));
    case Identify(id) => OtherTables(s, Next(s, holdout, e));
  }

  lemma {:induction false} TablesRun(holdout: string -> bool, es: seq<Event>)
    requires Happens(holdout, es)
    ensures var s := Run(holdout, es); AllButLastRejected(s) && Tables(s) && Answered(s)
  {
    if es != [] {
      TablesRun(holdout, es[..|es| - 1]);
      TablesNext(Run(holdout, es[..|es| - 1]), holdout, es[|es| - 1]);
    }
  }

  lemma OtherTables(s: State, s': State)
    requires AllButLastRejected(s) && Tables(s) && Answered(s)
    requires s'.decisions == s.decisions && s'.answers == s.answers
    requires (s'.gen == s.gen && s'.memo == s.memo && s'.flights == s.flights)
          || (s'.gen == s.gen + 1 && s'.memo == map[] && s'.flights == map[])
    ensures AllButLastRejected(s') && Tables(s') && Answered(s')
  {
    AllLandedStay(s, s');
    AllGivenStay(s, s');
  }

  /** How often this text was debited in that session, and how often its publish was rejected there. */
  function Debits(ds: seq<Decision>, gen: nat, key: Key): nat {
    if ds == [] then 0
    else Debits(ds[..|ds| - 1], gen, key) + if ds[|ds| - 1].gen == gen && ds[|ds| - 1].key == key && ds[|ds| - 1].verdict then 1 else 0
  }

  function Rejections(ds: seq<Decision>, gen: nat, key: Key): nat {
    if ds == [] then 0
    else Rejections(ds[..|ds| - 1], gen, key) + if ds[|ds| - 1].gen == gen && ds[|ds| - 1].key == key && ds[|ds| - 1].fate == Rejected then 1 else 0
  }

  ghost predicate DecidedLive(ds: seq<Decision>, gen: nat, key: Key) {
    exists i :: 0 <= i < |ds| && ds[i].gen == gen && ds[i].key == key && ds[i].verdict && ds[i].fate != Rejected
  }

  lemma {:induction false} DebitsExactly(ds: seq<Decision>, gen: nat, key: Key)
    requires forall i, j :: 0 <= i < j < |ds| && Same(ds[i], ds[j]) ==> ds[i].fate == Rejected
    requires forall i :: 0 <= i < |ds| && ds[i].fate == Rejected ==> ds[i].verdict
    ensures Debits(ds, gen, key) == Rejections(ds, gen, key) + if DecidedLive(ds, gen, key) then 1 else 0
  {
    if ds != [] {
      var n := |ds| - 1;
      DebitsExactly(ds[..n], gen, key);
      LiveSplit(ds, gen, key);
      if DecidedLive(ds[..n], gen, key) && ds[n].gen == gen && ds[n].key == key {
        var i :| 0 <= i < n && ds[..n][i].gen == gen && ds[..n][i].key == key && ds[..n][i].verdict && ds[..n][i].fate != Rejected;
        assert Same(ds[i], ds[n]);
        assert false;
      }
    }
  }

  lemma LiveSplit(ds: seq<Decision>, gen: nat, key: Key)
    requires ds != []
    ensures var n := |ds| - 1;
      DecidedLive(ds, gen, key)
      <==> DecidedLive(ds[..n], gen, key) || (ds[n].gen == gen && ds[n].key == key && ds[n].verdict && ds[n].fate != Rejected)
  {
    var n := |ds| - 1;
    assert ds == ds[..n] + [ds[n]];
    if DecidedLive(ds[..n], gen, key) {
      var i :| 0 <= i < n && ds[..n][i].gen == gen && ds[..n][i].key == key && ds[..n][i].verdict && ds[..n][i].fate != Rejected;
      assert ds[i] == ds[..n][i];
    }
    if DecidedLive(ds, gen, key) {
      var i :| 0 <= i < |ds| && ds[i].gen == gen && ds[i].key == key && ds[i].verdict && ds[i].fate != Rejected;
      assert i == n || ds[..n][i] == ds[i];
    }
  }

  /**
   * Each text is debited at most once per session and once more for each publish that was rejected
   * after its debit: exactly as often as it was rejected, plus one if a decision admitting it stands.
   */
  lemma DebitedOncePerSession(holdout: string -> bool, es: seq<Event>, gen: nat, key: Key)
    requires Happens(holdout, es)
    ensures var ds := Run(holdout, es).decisions;
      && Debits(ds, gen, key) == Rejections(ds, gen, key) + (if DecidedLive(ds, gen, key) then 1 else 0)
      && (Rejections(ds, gen, key) == 0 ==> Debits(ds, gen, key) <= 1)
  {
    TablesRun(holdout, es);
    DebitsExactly(Run(holdout, es).decisions, gen, key);
  }

  ghost predicate VerdictsAgree(s: State, gen: nat, key: Key) {
    !(Answer(gen, key, true) in s.answers && Answer(gen, key, false) in s.answers)
  }

  /** The publish of a text's admission was rejected in this session. */
  predicate PublishRejected(s: State, gen: nat, key: Key) {
    exists i :: 0 <= i < |s.decisions| && s.decisions[i] == Decision(gen, key, true, Rejected)
  }

  lemma OneLandedVerdict(s: State, gen: nat, key: Key)
    requires AllButLastRejected(s)
    ensures !(LandedWith(s, gen, key, true) && LandedWith(s, gen, key, false))
  {
    if LandedWith(s, gen, key, true) && LandedWith(s, gen, key, false) {
      var i :| 0 <= i < |s.decisions| && s.decisions[i] == Decision(gen, key, true, Landed);
      var j :| 0 <= j < |s.decisions| && s.decisions[j] == Decision(gen, key, false, Landed);
      if i < j { assert Same(s.decisions[i], s.decisions[j]); }
      if j < i { assert Same(s.decisions[j], s.decisions[i]); }
    }
  }

  lemma TrueAnswers(s: State, gen: nat, key: Key)
    requires Answered(s)
    ensures Answer(gen, key, true) in s.answers <==> LandedWith(s, gen, key, true)
  {
    if Answer(gen, key, true) in s.answers {
      var i: nat :| i < |s.decisions| && GivenBy(s, i, Answer(gen, key, true));
    }
    if LandedWith(s, gen, key, true) {
      var i: nat :| i < |s.decisions| && s.decisions[i] == Decision(gen, key, true, Landed);
      assert Outcome(s.decisions[i]);
    }
  }

  lemma FalseAnswers(s: State, gen: nat, key: Key)
    requires Answered(s) && Dated(s)
    ensures Answer(gen, key, false) in s.answers <==> LandedWith(s, gen, key, false) || PublishRejected(s, gen, key)
  {
    if Answer(gen, key, false) in s.answers {
      var i: nat :| i < |s.decisions| && GivenBy(s, i, Answer(gen, key, false));
    }
    if LandedWith(s, gen, key, false) {
      var i: nat :| i < |s.decisions| && s.decisions[i] == Decision(gen, key, false, Landed);
      assert !Outcome(s.decisions[i]);
    }
    if PublishRejected(s, gen, key) {
      var i: nat :| i < |s.decisions| && s.decisions[i] == Decision(gen, key, true, Rejected);
      assert !Outcome(s.decisions[i]);
    }
  }

  /**
   * The verdicts a text gets in one session, from the memo and from settled decisions, are all the same
   * exactly unless a rejected publish withheld the text and a later decision admitted it after all.
   */
  lemma VerdictsAgreeExactly(holdout: string -> bool, es: seq<Event>, gen: nat, key: Key)
    requires Happens(holdout, es)
    ensures var s := Run(holdout, es);
      VerdictsAgree(s, gen, key) <==> !(PublishRejected(s, gen, key) && LandedWith(s, gen, key, true))
  {
    TablesRun(holdout, es);
    var s := Run(holdout, es);
    TrueAnswers(s, gen, key);
    FalseAnswers(s, gen, key);
    OneLandedVerdict(s, gen, key);
  }

  const RETRIED := Key("describe", "Agent", "x")

  const RETRIED_RUN := [Identify("s"), Render(RETRIED), Land(0, false), Render(RETRIED), Land(1, true)]

  /** A run whose first publish is rejected: the same text is withheld, debited again and then shown. */
  lemma RetriedTextChangesVerdict(holdout: string -> bool)
    requires !holdout("s")
    ensures Happens(holdout, RETRIED_RUN)
    ensures var s := Run(holdout, RETRIED_RUN);
      && s.answers == [Answer(0, RETRIED, false), Answer(0, RETRIED, true)]
      && Debits(s.decisions, 0, RETRIED) == 2 && s.bytes == 2
  {
    assert Utf8Bytes("x") == 1 by { assert "x"[1..] == ""; }
    var e1 := [Identify("s")];
    RunOneMore(holdout, [], Identify("s"));
    assert Run(holdout, e1) == Init.(session := "s") by { assert [] + e1 == e1; }
    var e2 := e1 + [Render(RETRIED)];
    RunOneMore(holdout, e1, Render(RETRIED));
    assert Run(holdout, e2).decisions == [Decision(0, RETRIED, true, Pending)];
    var e3 := e2 + [Land(0, false)];
    RunOneMore(holdout, e2, Land(0, false));
    assert Run(holdout, e3).decisions == [Decision(0, RETRIED, true, Rejected)] && RETRIED !in Run(holdout, e3).flights;
    var e4 := e3 + [Render(RETRIED)];
    RunOneMore(holdout, e3, Render(RETRIED));
    assert Run(holdout, e4).decisions == [Decision(0, RETRIED, true, Rejected), Decision(0, RETRIED, true, Pending)];
    RunOneMore(holdout, e4, Land(1, true));
    assert e4 + [Land(1, true)] == RETRIED_RUN;
    var ds := [Decision(0, RETRIED, true, Rejected), Decision(0, RETRIED, true, Landed)];
    assert Run(holdout, RETRIED_RUN).decisions == ds;
    assert ds[..1][..0] == [] && ds[..1] == [ds[0]];
    assert Debits([], 0, RETRIED) == 0;
    assert Debits(ds[..1], 0, RETRIED) == 1;
  }

  // ---------------------------------------------------------------- late landings

  predicate Stale(s: State, e: Event) {
    e.Land? && e.d < |s.decisions| && s.decisions[e.d].gen != s.gen
  }

  /** The run without the decisions that land after the session that asked was cleared. */
  function WithoutStale(holdout: string -> bool, es: seq<Event>): seq<Event>
    requires Happens(holdout, es)
  {
    if es == [] then []
    else
      WithoutStale(holdout, es[..|es| - 1])
      + if Stale(Run(holdout, es[..|es| - 1]), es[|es| - 1]) then [] else [es[|es| - 1]]
  }

  function AnswersIn(xs: seq<Answer>, gen: nat): seq<Answer> {
    if xs == [] then []
    else AnswersIn(xs[..|xs| - 1], gen) + if xs[|xs| - 1].gen == gen then [xs[|xs| - 1]] else []
  }

  lemma AnswersInAppend(xs: seq<Answer>, a: Answer, gen: nat)
    ensures AnswersIn(xs + [a], gen) == AnswersIn(xs, gen) + if a.gen == gen then [a] else []
  {
    assert (xs + [a])[..|xs|] == xs;
  }

  lemma {:induction false} NoneIn(xs: seq<Answer>, gen: nat)
    requires forall a :: a in xs ==> a.gen != gen
    ensures AnswersIn(xs, gen) == []
  {
    if xs != [] {
      NoneIn(xs[..|xs| - 1], gen);
    }
  }

  /** The same to everything the current session can see, with the same history of its own. */
  ghost predicate Alike(s: State, t: State) {
    && s.(decisions := t.decisions, answers := t.answers) == t
    && |s.decisions| == |t.decisions|
    && (forall i: nat :: i < |s.decisions| ==>
          && s.decisions[i].gen == t.decisions[i].gen
          && (s.decisions[i].gen == s.gen ==> s.decisions[i] == t.decisions[i]))
    && AnswersIn(s.answers, s.gen) == AnswersIn(t.answers, t.gen)
  }

  lemma StaleAlike(s: State, t: State, d: nat, published: bool)
    requires Alike(s, t) && CanHappen(s, Land(d, published)) && s.decisions[d].gen != s.gen
    ensures Alike(DoLand(s, d, published), t)
  {
    var x := s.decisions[d];
    AnswersInAppend(s.answers, Answer(x.gen, x.key, (published || !x.verdict) && x.verdict), s.gen);
  }

  lemma LandAlike(s: State, t: State, d: nat, published: bool)
    requires Alike(s, t) && CanHappen(s, Land(d, published)) && s.decisions[d].gen == s.gen
    ensures CanHappen(t, Land(d, published)) && Alike(DoLand(s, d, published), DoLand(t, d, published))
  {
    var x := s.decisions[d];
    assert t.decisions[d] == x;
    var a := Answer(x.gen, x.key, (published || !x.verdict) && x.verdict);
    AnswersInAppend(s.answers, a, s.gen);
    AnswersInAppend(t.answers, a, s.gen);
  }

  lemma RenderAlike(s: State, t: State, holdout: string -> bool, key: Key)
    requires Alike(s, t)
    ensures Alike(DoRender(s, holdout, key), DoRender(t, holdout, key))
  {
    if key in s.memo {
      AnswersInAppend(s.answers, Answer(s.gen, key, s.memo[key]), s.gen);
      AnswersInAppend(t.answers, Answer(s.gen, key, s.memo[key]), s.gen);
    }
  }

  lemma NothingYet(s: State)
    requires Answered(s) && Dated(s)
    ensures AnswersIn(s.answers, s.gen + 1) == []
  {
    forall a | a in s.answers ensures a.gen != s.gen + 1 {
      var i: nat :| i < |s.decisions| && GivenBy(s, i, a);
    }
    NoneIn(s.answers, s.gen + 1);
  }

  lemma ClearAlike(s: State, t: State)
    requires Alike(s, t) && Answered(s) && Dated(s) && Answered(t) && Dated(t)
    ensures Alike(DoClear(s), DoClear(t))
  {
    NothingYet(s);
    NothingYet(t);
  }

  lemma StepAlike(s: State, t: State, holdout: string -> bool, e: Event)
    requires Alike(s, t) && CanHappen(s, e) && !Stale(s, e)
    requires Answered(s) && Dated(s) && Answered(t) && Dated(t)
    ensures CanHappen(t, e) && Alike(Next(s, holdout, e), Next(t, holdout, e))
  {
    match e
    case Render(key) => RenderAlike(s, t, holdout, key);
    case Land(d, published) => LandAlike(s, t, d, published);
    case Clear => ClearAlike(s, t);
    case _ =>
  }

  /**
   * Decisions landing after a clear never reach the new session: the run without them can happen, and
   * it ends with the same session, budget, memo, flights, decisions and verdicts of the current session.
   */
  lemma {:induction false} LateLandingsAreInert(holdout: string -> bool, es: seq<Event>)
    requires Happens(holdout, es)
    ensures Happens(holdout, WithoutStale(holdout, es))
    ensures Alike(Run(holdout, es), Run(holdout, WithoutStale(holdout, es)))
  {
    if es != [] {
      var pre, e := es[..|es| - 1], es[|es| - 1];
      LateLandingsAreInert(holdout, pre);
      var ws := WithoutStale(holdout, pre);
      var s, t := Run(holdout, pre), Run(holdout, ws);
      if Stale(s, e) {
        StaleAlike(s, t, e.d, e.published);
        assert WithoutStale(holdout, es) == ws;
      } else {
        TablesRun(holdout, pre);
        TablesRun(holdout, ws);
        StepAlike(s, t, holdout, e);
        RunOneMore(holdout, ws, e);
      }
    }
  }

  // ---------------------------------------------------------------- the runtime's own fields

  /** What a render gets: a verdict now, or the decision it shares. */
  datatype Reply = Now(verdict: bool) | Wait(d: nat)

  class Injector {
    const holdout: string -> bool
    var sessionId: string
    var injectedBytes: nat
    var injectedSections: nat
    var injectDecisions: map<Key, bool>
    var inFlight: map<Key, nat>
    var started: nat  // decisions started so far; the promise's identity
    ghost var model: State

    ghost predicate Valid()
      reads this
    {
      && sessionId == model.session && injectedBytes == model.bytes && injectedSections == model.sections
      && injectDecisions == model.memo && inFlight == model.flights && started == |model.decisions|
    }

    constructor (holdout: string -> bool)
      ensures Valid() && model == Init && this.holdout == holdout
    {
      this.holdout := holdout;
      sessionId, injectedBytes, injectedSections, injectDecisions, inFlight, started := "", 0, 0, map[], map[], 0;
      model := Init;
    }

    method Admit(text: string) returns (admitted: bool)
      requires Valid()
      modifies `injectedBytes, `injectedSections, `model
      ensures Valid() && admitted == Admits(old(model), holdout, text) && model == DoAdmit(old(model), holdout, text)
    {
      if sessionId == "" || holdout(sessionId) { return false; }
      var bytes := Utf8Bytes(text);
      if injectedBytes + bytes > SESSION_CAP_BYTES { return false; }
      injectedBytes := injectedBytes + bytes;
      injectedSections := injectedSections + 1;
      model := DoAdmit(model, holdout, text);
      return true;
    }

    /** `admitOnce` up to its await. */
    method Render(key: Key) returns (r: Reply)
      requires Valid()
      modifies this
      ensures Valid() && model == DoRender(old(model), holdout, key)
      ensures r == if key in old(model).memo then Now(old(model).memo[key])
                   else if old(model).session == "" then Now(false)
                   else if key in old(model).flights then Wait(old(model).flights[key])
                   else Wait(|old(model).decisions|)
    {
      ghost var s := model;
      if key in injectDecisions {
        model := DoRender(model, holdout, key);
        return Now(injectDecisions[key]);
      }
      if sessionId == "" { return Now(false); }
      if key in inFlight { return Wait(inFlight[key]); }
      var verdict := Admit(key.text);
      inFlight := inFlight[key := started];
      started := started + 1;
      model := DoRender(s, holdout, key);
      return Wait(started - 1);
    }

    /** The decision's callbacks and what they give its renders; `gen` tells whether memo and flights are still the ones it captured. */
    method Land(d: nat, key: Key, verdict: bool, published: bool, current: bool) returns (shown: bool)
      requires Valid() && d < |model.decisions| && model.decisions[d].fate == Pending
      requires model.decisions[d].key == key && model.decisions[d].verdict == verdict && current == (model.decisions[d].gen == model.gen)
      modifies `injectDecisions, `inFlight, `model
      ensures Valid() && model == DoLand(old(model), d, published)
      ensures model.answers == old(model.answers) + [Answer(model.decisions[d].gen, key, shown)]
    {
      if current {
        if published || !verdict { injectDecisions := injectDecisions[key := verdict]; }
        inFlight := inFlight - {key};
      }
      model := DoLand(model, d, published);
      return published && verdict;
    }

    method Clear()
      requires Valid()
      modifies this
      ensures Valid() && model == DoClear(old(model))
    {
      sessionId, injectedBytes, injectedSections, injectDecisions, inFlight := "", 0, 0, map[], map[];
      model := DoClear(model);
    }
  }
}
