/**
 * The turn ledger of experiment E-D (plugin/hooks/ed.ts) as a state machine on values.
 *
 * Every `EdState` object the plugin ever creates is a `Turn` of `State.turns`; its index there is
 * its identity, so a place that holds a reference in the plugin holds an index here. A prompt
 * becomes a queued turn, then the open turn, then a closing one, then a row of the log.
 */
module EdLedger {
  import opened Base

  type AgentId = string

  datatype Arm = W0 | W2

  datatype Turn = Turn(
    turn: nat, arm: Arm, key: int, ts: int,
    tsStart: Option<int>, turnId: Option<string>, fanout: bool,
    tokMain: int, tokSub: int,
    agents: set<AgentId>, spawned: set<AgentId>, open: int,
    done: bool, tsEnd: Option<int>, aborted: bool, durationMs: Option<int>)

  /** One line of ed_arms.jsonl. */
  datatype Row = Row(
    ts: int, tsStart: Option<int>, tsEnd: Option<int>, session: string,
    turn: nat, turnId: Option<string>, arm: Arm, fanout: bool, aborted: bool,
    durationMs: Option<int>, tokMain: int, tokSub: int, subs: nat, subsOpen: int)

  /** One call of `write`; a row whose append fails is not `stored`, and no later call retries it. */
  datatype Entry = Entry(turn: nat, row: Row, stored: bool)

  /** What is fixed for the process: the option, the text hash, the arm draw and the holdout draw. */
  datatype Config = Config(ed: bool, hash: string -> int, armOf: (string, nat) -> Arm, holdout: string -> bool)

  datatype State = State(
    session: string, count: nat, turns: seq<Turn>,
    queue: seq<nat>, open: Option<nat>, closing: seq<nat>, agents: map<AgentId, nat>,
    log: seq<Entry>,
    bound: seq<nat>)  // turn numbers bound by turn.start since the session began; history only

  const MAX_QUEUE: nat := 8
  const MAX_CLOSING: nat := 32

  datatype Event =
    | Submit(text: string, midTurn: bool, ownOrigin: bool, now: int)
    | Drop(text: string)
    | Start(text: string, turnId: string, now: int)
    | Compose(offersFanout: bool)
    | Spawn(id: Option<AgentId>)
    | Step(agent: Option<AgentId>, tokens: int)
    | Complete(agent: Option<AgentId>, turnId: string, aborted: bool, durationMs: int, now: int, oks: seq<bool>)
    | Flush(oks: seq<bool>)
    | Reset
    | Identify(session: string)

  const Init := State("", 0, [], [], None, [], map[], [], [])

  // ---------------------------------------------------------------- operations

  predicate JsBlank(c: char) {
    c in "\t\n\r " || c as int in {0x0b, 0x0c, 0xa0, 0x1680, 0x2028, 0x2029, 0x202f, 0x205f, 0x3000, 0xfeff}
    || 0x2000 <= c as int <= 0x200a
  }

  /** The text is empty or white space only. */
  predicate Blank(text: string) {
    forall i :: 0 <= i < |text| ==> JsBlank(text[i])
  }

  predicate IsUserPrompt(text: string, midTurn: bool, ownOrigin: bool) {
    !Blank(text) && !midTurn && ownOrigin
  }

  function NewTurn(n: nat, arm: Arm, key: int, now: int): Turn {
    Turn(n, arm, key, now, None, None, false, 0, 0, {}, {}, 0, false, None, false, None)
  }

  /** The newest `cap` elements. */
  function KeepNewest<T>(xs: seq<T>, cap: nat): seq<T> {
    if |xs| > cap then xs[|xs| - cap..] else xs
  }

  predicate Admits(s: State, cfg: Config, text: string, midTurn: bool, ownOrigin: bool) {
    cfg.ed && s.session != "" && !cfg.holdout(s.session) && IsUserPrompt(text, midTurn, ownOrigin)
  }

  function DoSubmit(s: State, cfg: Config, text: string, midTurn: bool, ownOrigin: bool, now: int): State {
    if !Admits(s, cfg, text, midTurn, ownOrigin) then s
    else
      var n := s.count + 1;
      s.(count := n,
         turns := s.turns + [NewTurn(n, cfg.armOf(s.session, n), cfg.hash(text), now)],
         queue := KeepNewest(s.queue + [|s.turns|], MAX_QUEUE))
  }

  /** Position of the first queued turn with this key, or |queue|. */
  function FirstWithKey(turns: seq<Turn>, queue: seq<nat>, key: int): (i: nat)
    requires Below(queue, |turns|)
    ensures i <= |queue|
    ensures forall j :: 0 <= j < i ==> turns[queue[j]].key != key
    ensures i < |queue| ==> turns[queue[i]].key == key
  {
    if queue == [] then 0
    else if turns[queue[0]].key == key then 0
    else 1 + FirstWithKey(turns, queue[1..], key)
  }

  /** Position of the last queued turn with this key, or |queue|. */
  function LastWithKey(turns: seq<Turn>, queue: seq<nat>, key: int): (i: nat)
    requires Below(queue, |turns|)
    ensures i <= |queue|
    ensures i == |queue| ==> forall j :: 0 <= j < |queue| ==> turns[queue[j]].key != key
    ensures i < |queue| ==> turns[queue[i]].key == key
    ensures forall j :: i < j < |queue| ==> turns[queue[j]].key != key
  {
    if queue == [] then 0
    else if turns[queue[|queue| - 1]].key == key then |queue| - 1
    else
      var i := LastWithKey(turns, queue[..|queue| - 1], key);
      if i == |queue| - 1 then |queue| else i
  }

  function DoDrop(s: State, cfg: Config, text: string): State
    requires InRange(s)
  {
    var i := LastWithKey(s.turns, s.queue, cfg.hash(text));
    if i == |s.queue| then s else s.(queue := s.queue[..i] + s.queue[i + 1..])
  }

  function DoStart(s: State, cfg: Config, text: string, turnId: string, now: int): State
    requires InRange(s)
  {
    if !cfg.ed || Blank(text) then s
    else
      var i := FirstWithKey(s.turns, s.queue, cfg.hash(text));
      if i == |s.queue| then s
      else
        var q := s.queue[i];
        s.(turns := s.turns[q := s.turns[q].(turnId := Some(turnId), tsStart := Some(now))],
           queue := s.queue[i + 1..], open := Some(q),
           bound := s.bound + [s.turns[q].turn])
  }

  /** The open turn, while its main completion has not been seen. */
  predicate HasOpen(s: State)
    requires InRange(s)
  {
    s.open.Some? && !s.turns[s.open.value].done
  }

  function DoCompose(s: State, offersFanout: bool): State
    requires InRange(s)
  {
    if HasOpen(s) && offersFanout then
      var o := s.open.value;
      s.(turns := s.turns[o := s.turns[o].(fanout := true)])
    else s
  }

  function DoSpawn(s: State, id: Option<AgentId>): State
    requires InRange(s)
  {
    if !HasOpen(s) || id.None? || id.value == "" || id.value in s.turns[s.open.value].spawned then s
    else
      var o := s.open.value;
      var t := s.turns[o];
      s.(turns := s.turns[o := t.(agents := t.agents + {id.value}, spawned := t.spawned + {id.value}, open := t.open + 1)],
         agents := s.agents[id.value := o])
  }

  function DoStep(s: State, agent: Option<AgentId>, tokens: int): State
    requires InRange(s)
  {
    match agent
    case None =>
      if !HasOpen(s) then s
      else
        var o := s.open.value;
        s.(turns := s.turns[o := s.turns[o].(tokMain := s.turns[o].tokMain + tokens)])
    case Some(id) =>
      if id in s.agents then
        var i := s.agents[id];
        s.(turns := s.turns[i := s.turns[i].(tokSub := s.turns[i].tokSub + tokens)])
      else if !HasOpen(s) || id == "" then s
      else
        var o := s.open.value;
        var t := s.turns[o];
        s.(turns := s.turns[o := t.(agents := t.agents + {id}, tokSub := t.tokSub + tokens)],
           agents := s.agents[id := o])
  }

  function RowOf(t: Turn, session: string): Row {
    Row(t.ts, t.tsStart, t.tsEnd, session, t.turn, t.turnId, t.arm, t.fanout, t.aborted,
        t.durationMs, t.tokMain, t.tokSub, |t.agents|, t.open)
  }

  /** Whether the k-th append of a step goes through. */
  predicate AppendOk(oks: seq<bool>, k: nat) {
    k < |oks| && oks[k]
  }

  /** The agents the turn lists that are bound to it. */
  function BoundTo(s: State, i: nat): set<AgentId>
    requires i < |s.turns|
  {
    set id | id in s.turns[i].agents && id in s.agents && s.agents[id] == i
  }

  /** `write`: the turn's remaining agents are unbound and its row is handed to the append. */
  function Write(s: State, i: nat, ok: bool): State
    requires i < |s.turns|
  {
    s.(agents := s.agents - BoundTo(s, i), log := s.log + [Entry(i, RowOf(s.turns[i], s.session), ok)])
  }

  function WriteOldest(s: State, ok: bool): State
    requires InRange(s) && s.closing != []
  {
    Write(s.(closing := s.closing[1..]), s.closing[0], ok)
  }

  function Without(xs: seq<nat>, x: nat): (ys: seq<nat>)
    ensures x !in ys
    ensures forall y :: y in ys <==> y in xs && y != x
    ensures |ys| <= |xs|
  {
    if xs == [] then []
    else if xs[0] == x then Without(xs[1..], x)
    else [xs[0]] + Without(xs[1..], x)
  }

  function CompleteAgent(s: State, id: AgentId, oks: seq<bool>): State
    requires InRange(s)
  {
    if id !in s.agents then s
    else
      var i := s.agents[id];
      var s1 := s.(agents := s.agents - {id});
      if id !in s.turns[i].spawned then s1
      else
        var t := s.turns[i].(open := if s.turns[i].open - 1 > 0 then s.turns[i].open - 1 else 0);
        var s2 := s1.(turns := s.turns[i := t]);
        if t.done && t.open == 0 then Write(s2.(closing := Without(s.closing, i)), i, AppendOk(oks, 0))
        else s2
  }

  function CompleteMain(s: State, turnId: string, aborted: bool, durationMs: int, now: int, oks: seq<bool>): State
    requires InRange(s)
  {
    if s.open.None? || s.turns[s.open.value].turnId != Some(turnId) then s
    else
      var o := s.open.value;
      var t := s.turns[o].(done := true, tsEnd := Some(now), aborted := aborted, durationMs := Some(durationMs));
      var s1 := s.(open := None, turns := s.turns[o := t]);
      if t.open == 0 then Write(s1, o, AppendOk(oks, 0))
      else
        var s2 := s1.(closing := s.closing + [o]);
        if |s2.closing| > MAX_CLOSING then WriteOldest(s2, AppendOk(oks, 0)) else s2
  }

  /** `flushEd`, taken as one step: the closing turns are written oldest first. */
  function DoFlush(s: State, oks: seq<bool>): State
    requires InRange(s)
    decreases |s.closing|
  {
    if s.closing == [] then s
    else DoFlush(WriteOldest(s, AppendOk(oks, 0)), if oks == [] then [] else oks[1..])
  }

  /** `endSession` followed by `endEd`: the session id, the queue, the open turn, the agents and the count go. */
  function DoReset(s: State): State {
    s.(session := "", count := 0, queue := [], open := None, closing := [], agents := map[], bound := [])
  }

  function DoIdentify(s: State, id: string): State {
    if s.session == "" then s.(session := id) else s
  }

  function Next(s: State, cfg: Config, e: Event): State
    requires InRange(s)
  {
    match e
    case Submit(text, midTurn, own, now) => DoSubmit(s, cfg, text, midTurn, own, now)
    case Drop(text) => DoDrop(s, cfg, text)
    case Start(text, turnId, now) => DoStart(s, cfg, text, turnId, now)
    case Compose(f) => DoCompose(s, f)
    case Spawn(id) => DoSpawn(s, id)
    case Step(agent, tokens) => DoStep(s, agent, tokens)
    case Complete(agent, turnId, aborted, d, now, oks) =>
      if agent.Some? then CompleteAgent(s, agent.value, oks) else CompleteMain(s, turnId, aborted, d, now, oks)
    case Flush(oks) => DoFlush(s, oks)
    case Reset => DoReset(s)
    case Identify(id) => DoIdentify(s, id)
  }

  // ---------------------------------------------------------------- invariant

  predicate Below(xs: seq<nat>, n: nat) {
    forall k :: 0 <= k < |xs| ==> xs[k] < n
  }

  /** Every index held anywhere is the index of a turn. */
  predicate InRange(s: State) {
    && Below(s.queue, |s.turns|) && Below(s.closing, |s.turns|)
    && (s.open.Some? ==> s.open.value < |s.turns|)
    && (forall id :: id in s.agents ==> s.agents[id] < |s.turns|)
  }

  predicate Logged(log: seq<Entry>, i: nat) {
    exists k :: 0 <= k < |log| && log[k].turn == i
  }

  predicate IsOpen(s: State, i: nat) {
    s.open == Some(i)
  }

  /** A turn sits in at most one place, and there once. */
  ghost predicate Places(s: State) {
    && |s.queue| <= MAX_QUEUE && |s.closing| <= MAX_CLOSING
    && NoDup(s.queue) && NoDup(s.closing)
    && LogOnce(s.log, |s.turns|)
    && (forall i: nat :: i in s.queue ==> i !in s.closing && !IsOpen(s, i) && !Logged(s.log, i))
    && (forall i: nat :: i in s.closing ==> !IsOpen(s, i) && !Logged(s.log, i))
    && (s.open.Some? ==> !Logged(s.log, s.open.value))
  }

  ghost predicate LogOnce(log: seq<Entry>, n: nat) {
    && (forall j, k :: 0 <= j < k < |log| ==> log[j].turn != log[k].turn)
    && (forall k :: 0 <= k < |log| ==> log[k].turn < n)
  }

  /** `done` is set exactly on the way from open to closing or written; a closing turn waits for somebody. */
  ghost predicate Flags(s: State)
    requires InRange(s)
  {
    && (forall i :: 0 <= i < |s.turns| && s.turns[i].done ==> !IsOpen(s, i) && i !in s.queue)
    && (s.open.Some? ==> s.turns[s.open.value].turnId.Some?)
    && (forall i: nat :: i in s.closing ==> s.turns[i].done && s.turns[i].open > 0)
    && (forall k :: 0 <= k < |s.log| && s.log[k].turn < |s.turns| ==> s.turns[s.log[k].turn].done)
  }

  /** An agent is bound only to a turn that lists it, and never to one that is queued, written or lost. */
  ghost predicate Bindings(s: State)
    requires InRange(s)
  {
    && (forall i :: 0 <= i < |s.turns| ==> s.turns[i].spawned <= s.turns[i].agents && 0 <= s.turns[i].open <= |s.turns[i].spawned|)
    && (forall i: nat :: i in s.queue ==> s.turns[i].agents == {})
    && (forall id :: id in s.agents ==> id in s.turns[s.agents[id]].agents)
    && (forall id :: id in s.agents ==> s.turns[s.agents[id]].done ==> s.agents[id] in s.closing)
  }

  ghost predicate Increasing(xs: seq<nat>) {
    forall i, j :: 0 <= i < j < |xs| ==> xs[i] < xs[j]
  }

  function Numbers(turns: seq<Turn>, queue: seq<nat>): (ns: seq<nat>)
    requires Below(queue, |turns|)
  {
    seq(|queue|, k requires 0 <= k < |queue| => turns[queue[k]].turn)
  }

  /** Turn numbers grow along what turn.start bound and then along what is queued, up to the count. */
  ghost predicate Numbered(s: State)
    requires InRange(s)
  {
    var ns := s.bound + Numbers(s.turns, s.queue);
    Increasing(ns) && forall k :: 0 <= k < |ns| ==> ns[k] <= s.count
  }

  /** A written row is final: it is still the row of its turn. */
  ghost predicate Final(s: State) {
    forall k :: 0 <= k < |s.log| && s.log[k].turn < |s.turns| ==>
      s.log[k].row == RowOf(s.turns[s.log[k].turn], s.log[k].row.session)
  }

  ghost predicate Inv(s: State) {
    InRange(s) && Places(s) && Flags(s) && Bindings(s) && Numbered(s) && Final(s)
  }

  // ---------------------------------------------------------------- every step keeps the invariant

  /** Two states with the same places; only turn contents and agent bindings may differ. */
  ghost predicate SamePlaces(s: State, s': State) {
    && s'.queue == s.queue && s'.closing == s.closing && s'.open == s.open && s'.log == s.log
    && s'.count == s.count && s'.bound == s.bound && |s'.turns| == |s.turns|
  }

  /** A turn changes only in what Compose, Spawn and Step may touch. */
  ghost predicate SameIdentity(t: Turn, t': Turn) {
    t'.done == t.done && t'.turn == t.turn && t'.turnId == t.turnId
  }

  /** An update of one turn that is in no queue and in no log line. */
  lemma TouchInv(s: State, s': State, o: nat)
    requires Inv(s) && InRange(s') && SamePlaces(s, s')
    requires o < |s.turns| && SameIdentity(s.turns[o], s'.turns[o])
    requires s'.turns == s.turns[o := s'.turns[o]]
    requires o !in s.queue && !Logged(s.log, o)
    requires o in s.closing ==> s'.turns[o].open > 0
    requires Bindings(s')
    ensures Inv(s')
  {
    assert Places(s');
    assert Flags(s');
    assert Numbers(s'.turns, s'.queue) == Numbers(s.turns, s.queue);
    assert Final(s');
  }

  /** A new turn joins the queue, whose `a` oldest entries go. */
  function Enqueue(s: State, t: Turn, a: nat): State
    requires a <= |s.queue| + 1
  {
    s.(count := s.count + 1, turns := s.turns + [t], queue := (s.queue + [|s.turns|])[a..])
  }

  lemma SubmitInv(s: State, cfg: Config, text: string, midTurn: bool, own: bool, now: int)
    requires Inv(s)
    ensures Inv(DoSubmit(s, cfg, text, midTurn, own, now))
  {
    if Admits(s, cfg, text, midTurn, own) {
      var n := s.count + 1;
      var q := s.queue + [|s.turns|];
      var t := NewTurn(n, cfg.armOf(s.session, n), cfg.hash(text), now);
      var a := if |q| > MAX_QUEUE then |q| - MAX_QUEUE else 0;
      assert q == q[0..];
      assert Enqueue(s, t, a) == DoSubmit(s, cfg, text, midTurn, own, now);
      EnqueueInv(s, t, a);
    }
  }

  lemma EnqueueInv(s: State, t: Turn, a: nat)
    requires Inv(s) && a <= |s.queue| < MAX_QUEUE + a
    requires t.turn == s.count + 1 && !t.done && t.agents == {} == t.spawned && t.open == 0
    ensures Inv(Enqueue(s, t, a))
  {
    EnqueuePlaces(s, t, a);
    EnqueueFlags(s, t, a);
    EnqueueNumbers(s, t, a);
  }

  lemma EnqueuePlaces(s: State, t: Turn, a: nat)
    requires InRange(s) && Places(s) && a <= |s.queue| < MAX_QUEUE + a
    ensures InRange(Enqueue(s, t, a)) && Places(Enqueue(s, t, a))
  {
    var q := s.queue + [|s.turns|];
    var s' := Enqueue(s, t, a);
    assert forall k :: 0 <= k < |s'.queue| ==> s'.queue[k] == q[k + a];
    assert forall i: nat :: i in s'.queue ==> i in s.queue || i == |s.turns|;
    assert !Logged(s.log, |s.turns|);
  }

  lemma EnqueueFlags(s: State, t: Turn, a: nat)
    requires InRange(s) && Flags(s) && Bindings(s) && Final(s) && LogOnce(s.log, |s.turns|)
    requires a <= |s.queue| && InRange(Enqueue(s, t, a)) && !t.done && t.agents == {} == t.spawned && t.open == 0
    ensures Flags(Enqueue(s, t, a)) && Bindings(Enqueue(s, t, a)) && Final(Enqueue(s, t, a))
  {
    var q := s.queue + [|s.turns|];
    var s' := Enqueue(s, t, a);
    assert forall k :: 0 <= k < |s'.queue| ==> s'.queue[k] == q[k + a];
    assert forall i: nat :: i in s'.queue ==> i in s.queue || i == |s.turns|;
  }

  lemma EnqueueNumbers(s: State, t: Turn, a: nat)
    requires InRange(s) && Numbered(s) && a <= |s.queue| && t.turn == s.count + 1
    ensures InRange(Enqueue(s, t, a)) && Numbered(Enqueue(s, t, a))
  {
    var s' := Enqueue(s, t, a);
    var ns := Numbers(s.turns, s.queue) + [t.turn];
    assert Numbers(s'.turns, s'.queue) == ns[a..];
    assert s.bound + ns == s.bound + Numbers(s.turns, s.queue) + [t.turn];
    DropGap(s.bound, ns, 0, a, s'.count);
    assert ns[..0] + ns[a..] == ns[a..];
  }

  /** Cutting a stretch out of a growing sequence leaves it growing, under the same bound. */
  lemma DropGap(xs: seq<nat>, ys: seq<nat>, a: nat, b: nat, top: nat)
    requires a <= b <= |ys|
    requires Increasing(xs + ys) && forall k :: 0 <= k < |xs + ys| ==> (xs + ys)[k] <= top
    ensures var zs := xs + (ys[..a] + ys[b..]);
      Increasing(zs) && forall k :: 0 <= k < |zs| ==> zs[k] <= top
  {
    var zs := xs + (ys[..a] + ys[b..]);
    assert forall k :: 0 <= k < |zs| ==> zs[k] == (xs + ys)[if k < |xs| + a then k else k - a + b];
  }

  /** Queue entries may go, from anywhere. */
  lemma ShrinkQueueInv(s: State, a: nat, b: nat)
    requires Inv(s) && a <= b <= |s.queue|
    ensures Inv(s.(queue := s.queue[..a] + s.queue[b..]))
  {
    ShrinkQueuePlaces(s, a, b);
    var s' := s.(queue := s.queue[..a] + s.queue[b..]);
    var ns := Numbers(s.turns, s.queue);
    assert Numbers(s'.turns, s'.queue) == ns[..a] + ns[b..];
    DropGap(s.bound, ns, a, b, s.count);
  }

  lemma ShrinkQueuePlaces(s: State, a: nat, b: nat)
    requires InRange(s) && Places(s) && Flags(s) && Bindings(s) && Final(s) && a <= b <= |s.queue|
    ensures var s' := s.(queue := s.queue[..a] + s.queue[b..]);
      InRange(s') && Places(s') && Flags(s') && Bindings(s') && Final(s')
  {
    ShrinkQueueItems(s.queue, a, b);
  }

  lemma ShrinkQueueItems(xs: seq<nat>, a: nat, b: nat)
    requires a <= b <= |xs|
    ensures var q := xs[..a] + xs[b..];
      |q| <= |xs| && (forall i: nat :: i in q ==> i in xs) && (NoDup(xs) ==> NoDup(q))
  {
    var q := xs[..a] + xs[b..];
    assert forall k :: 0 <= k < |q| ==> q[k] == xs[if k < a then k else k - a + b];
  }

  lemma DropInv(s: State, cfg: Config, text: string)
    requires Inv(s)
    ensures Inv(DoDrop(s, cfg, text))
  {
    var i := LastWithKey(s.turns, s.queue, cfg.hash(text));
    if i < |s.queue| { ShrinkQueueInv(s, i, i + 1); }
  }

  /** The first queued turn is bound. */
  function OpenFirst(s: State, turnId: string, now: int): State
    requires InRange(s) && s.queue != []
  {
    var q := s.queue[0];
    s.(turns := s.turns[q := s.turns[q].(turnId := Some(turnId), tsStart := Some(now))],
       queue := s.queue[1..], open := Some(q), bound := s.bound + [s.turns[q].turn])
  }

  lemma StartInv(s: State, cfg: Config, text: string, turnId: string, now: int)
    requires Inv(s)
    ensures Inv(DoStart(s, cfg, text, turnId, now))
  {
    var i := FirstWithKey(s.turns, s.queue, cfg.hash(text));
    if i < |s.queue| {
      ShrinkQueueInv(s, 0, i);
      var s1 := s.(queue := s.queue[..0] + s.queue[i..]);
      StartIsOpenFirst(s, cfg, text, turnId, now);
      OpenFirstInv(s1, turnId, now);
    }
  }

  lemma StartIsOpenFirst(s: State, cfg: Config, text: string, turnId: string, now: int)
    requires InRange(s)
    ensures var i := FirstWithKey(s.turns, s.queue, cfg.hash(text));
      i < |s.queue| && cfg.ed && !Blank(text) ==>
        var s1 := s.(queue := s.queue[..0] + s.queue[i..]);
        InRange(s1) && s1.queue != [] && DoStart(s, cfg, text, turnId, now) == OpenFirst(s1, turnId, now)
  {
    var i := FirstWithKey(s.turns, s.queue, cfg.hash(text));
    if i < |s.queue| {
      assert s.queue[..0] + s.queue[i..] == s.queue[i..];
      assert s.queue[i..][1..] == s.queue[i + 1..];
    }
  }

  lemma OpenFirstInv(s: State, turnId: string, now: int)
    requires Inv(s) && s.queue != []
    ensures Inv(OpenFirst(s, turnId, now))
  {
    OpenFirstPlaces(s, turnId, now);
    OpenFirstFlags(s, turnId, now);
    var s' := OpenFirst(s, turnId, now);
    assert s'.bound + Numbers(s'.turns, s'.queue) == s.bound + Numbers(s.turns, s.queue);
  }

  lemma OpenFirstPlaces(s: State, turnId: string, now: int)
    requires InRange(s) && Places(s) && s.queue != []
    ensures InRange(OpenFirst(s, turnId, now)) && Places(OpenFirst(s, turnId, now))
  {
    var s' := OpenFirst(s, turnId, now);
    assert s.queue[0] in s.queue;
    assert forall k :: 0 <= k < |s'.queue| ==> s'.queue[k] == s.queue[k + 1];
    assert forall i: nat :: i in s'.queue ==> i in s.queue && i != s.queue[0];
  }

  lemma OpenFirstFlags(s: State, turnId: string, now: int)
    requires Inv(s) && s.queue != [] && InRange(OpenFirst(s, turnId, now))
    ensures Flags(OpenFirst(s, turnId, now)) && Bindings(OpenFirst(s, turnId, now)) && Final(OpenFirst(s, turnId, now))
  {
    var s' := OpenFirst(s, turnId, now);
    assert s.queue[0] in s.queue;
    assert forall k :: 0 <= k < |s'.queue| ==> s'.queue[k] == s.queue[k + 1];
    assert forall i: nat :: i in s'.queue ==> i in s.queue && i != s.queue[0];
    assert forall k :: 0 <= k < |s.log| ==> Logged(s.log, s.log[k].turn);
  }

  lemma ComposeInv(s: State, f: bool)
    requires Inv(s)
    ensures Inv(DoCompose(s, f))
  {
    var s' := DoCompose(s, f);
    if s' != s {
      TouchInv(s, s', s.open.value);
    }
  }

  lemma SpawnInv(s: State, id: Option<AgentId>)
    requires Inv(s)
    ensures Inv(DoSpawn(s, id))
  {
    var s' := DoSpawn(s, id);
    if s' != s {
      TouchInv(s, s', s.open.value);
    }
  }

  lemma StepInv(s: State, agent: Option<AgentId>, tokens: int)
    requires Inv(s)
    ensures Inv(DoStep(s, agent, tokens))
  {
    if agent.Some? && agent.value in s.agents {
      BoundStepInv(s, agent.value, tokens);
    } else {
      OpenStepInv(s, agent, tokens);
    }
  }

  lemma BoundStepInv(s: State, id: AgentId, tokens: int)
    requires Inv(s) && id in s.agents
    ensures Inv(DoStep(s, Some(id), tokens))
  {
    BoundNotLogged(s, id);
    TouchInv(s, DoStep(s, Some(id), tokens), s.agents[id]);
  }

  lemma OpenStepInv(s: State, agent: Option<AgentId>, tokens: int)
    requires Inv(s) && (agent.Some? ==> agent.value !in s.agents)
    ensures Inv(DoStep(s, agent, tokens))
  {
    var s' := DoStep(s, agent, tokens);
    if s' != s { TouchInv(s, s', s.open.value); }
  }

  lemma BoundNotLogged(s: State, id: AgentId)
    requires Inv(s) && id in s.agents
    ensures !Logged(s.log, s.agents[id]) && s.agents[id] !in s.queue
  {
  }

  /** A done turn that is in no place, with no agent bound to it. */
  ghost predicate Adrift(s: State, i: nat) {
    && i < |s.turns| && s.turns[i].done
    && i !in s.closing && !Logged(s.log, i)
    && forall id :: id in s.agents ==> s.agents[id] != i
  }

  /** Handing the row of such a turn to the log. */
  lemma LogInv(s: State, i: nat, ok: bool)
    requires Inv(s) && Adrift(s, i)
    ensures Inv(s.(log := s.log + [Entry(i, RowOf(s.turns[i], s.session), ok)]))
  {
    var s' := s.(log := s.log + [Entry(i, RowOf(s.turns[i], s.session), ok)]);
    LoggedAppend(s.log, s'.log[|s.log|]);
  }

  lemma LoggedAppend(log: seq<Entry>, e: Entry)
    ensures forall j: nat :: Logged(log + [e], j) <==> Logged(log, j) || j == e.turn
  {
    assert (log + [e])[|log|] == e;
    forall j: nat | Logged(log, j) ensures Logged(log + [e], j) {
      var k :| 0 <= k < |log| && log[k].turn == j;
      assert (log + [e])[k].turn == j;
    }
  }

  /** Taking a turn out of `closing` and unbinding its agents sets it adrift. */
  lemma LeaveClosingInv(s: State, i: nat, closing: seq<nat>)
    requires Inv(s) && i in s.closing && NoDup(closing) && |closing| <= |s.closing|
    requires forall j: nat :: j in closing <==> j in s.closing && j != i
    ensures i < |s.turns|
    ensures var s' := s.(closing := closing, agents := s.agents - BoundTo(s, i)); Inv(s') && Adrift(s', i)
  {
    var s' := s.(closing := closing, agents := s.agents - BoundTo(s, i));
    assert forall k :: 0 <= k < |closing| ==> closing[k] in closing;
  }

  lemma WriteOldestInv(s: State, ok: bool)
    requires Inv(s) && s.closing != []
    ensures Inv(WriteOldest(s, ok))
  {
    var i := s.closing[0];
    assert forall k :: 0 <= k < |s.closing[1..]| ==> s.closing[1..][k] == s.closing[k + 1];
    assert i in s.closing;
    LeaveClosingInv(s, i, s.closing[1..]);
    LogInv(s.(closing := s.closing[1..], agents := s.agents - BoundTo(s, i)), i, ok);
  }

  lemma {:induction false} FlushInv(s: State, oks: seq<bool>)
    requires Inv(s)
    ensures Inv(DoFlush(s, oks)) && DoFlush(s, oks).closing == []
    decreases |s.closing|
  {
    if s.closing != [] {
      WriteOldestInv(s, AppendOk(oks, 0));
      FlushInv(WriteOldest(s, AppendOk(oks, 0)), if oks == [] then [] else oks[1..]);
    }
  }

  lemma {:induction false} WithoutNoDup(xs: seq<nat>, x: nat)
    requires NoDup(xs)
    ensures NoDup(Without(xs, x))
  {
    if xs != [] {
      WithoutNoDup(xs[1..], x);
      assert xs[0] !in xs[1..];
    }
  }

  lemma CompleteAgentInv(s: State, id: AgentId, oks: seq<bool>)
    requires Inv(s)
    ensures Inv(CompleteAgent(s, id, oks))
  {
    if id in s.agents {
      var i := s.agents[id];
      if id !in s.turns[i].spawned {
        UnboundInv(s, id);
      } else if s.turns[i].done && s.turns[i].open <= 1 {
        LastAgentInv(s, id, AppendOk(oks, 0));
      } else {
        CountDownInv(s, id);
      }
    }
  }

  /** Forgetting a bound agent. */
  lemma UnboundInv(s: State, id: AgentId)
    requires Inv(s) && id in s.agents
    ensures Inv(s.(agents := s.agents - {id}))
  {
  }

  /** A completion that leaves something to wait for, or comes before the main one. */
  lemma CountDownInv(s: State, id: AgentId)
    requires Inv(s) && id in s.agents && !(s.turns[s.agents[id]].done && s.turns[s.agents[id]].open <= 1)
    ensures var i := s.agents[id]; var t := s.turns[i];
      Inv(s.(agents := s.agents - {id}, turns := s.turns[i := t.(open := if t.open - 1 > 0 then t.open - 1 else 0)]))
  {
    var i := s.agents[id];
    var t := s.turns[i].(open := if s.turns[i].open - 1 > 0 then s.turns[i].open - 1 else 0);
    BoundNotLogged(s, id);
    TouchInv(s, s.(agents := s.agents - {id}, turns := s.turns[i := t]), i);
  }

  /** The completion that brings a closing turn to zero writes it. */
  lemma LastAgentInv(s: State, id: AgentId, ok: bool)
    requires Inv(s) && id in s.agents && s.turns[s.agents[id]].done
    ensures var i := s.agents[id];
      Inv(Write(s.(agents := s.agents - {id}, closing := Without(s.closing, i),
                   turns := s.turns[i := s.turns[i].(open := 0)]), i, ok))
  {
    var i := s.agents[id];
    var t := s.turns[i].(open := 0);
    WithoutNoDup(s.closing, i);
    LeaveClosingInv(s, i, Without(s.closing, i));
    var s1 := s.(closing := Without(s.closing, i), agents := s.agents - BoundTo(s, i));
    var s2 := s1.(turns := s.turns[i := t]);
    TouchInv(s1, s2, i);
    LogInv(s2, i, ok);
    UnbindLast(s, id, t);
  }

  /** Unbinding the completed agent first and the turn's other agents on writing, or all of them at once. */
  lemma UnbindLast(s: State, id: AgentId, t: Turn)
    requires InRange(s) && Bindings(s) && id in s.agents && t.agents == s.turns[s.agents[id]].agents
    ensures var i := s.agents[id];
      var s3 := s.(agents := s.agents - {id}, turns := s.turns[i := t]);
      s3.agents - BoundTo(s3, i) == s.agents - BoundTo(s, i)
  {
  }

  function Finished(t: Turn, aborted: bool, durationMs: int, now: int): Turn {
    t.(done := true, tsEnd := Some(now), aborted := aborted, durationMs := Some(durationMs))
  }

  lemma CompleteMainInv(s: State, turnId: string, aborted: bool, durationMs: int, now: int, oks: seq<bool>)
    requires Inv(s)
    ensures Inv(CompleteMain(s, turnId, aborted, durationMs, now, oks))
  {
    if s.open.Some? && s.turns[s.open.value].turnId == Some(turnId) {
      var o := s.open.value;
      var t := Finished(s.turns[o], aborted, durationMs, now);
      if t.open == 0 {
        WriteAtOnceInv(s, t, AppendOk(oks, 0));
      } else if |s.closing| < MAX_CLOSING {
        CloseInv(s, t);
      } else {
        WriteOldestInv(s, AppendOk(oks, 0));
        CloseInv(WriteOldest(s, AppendOk(oks, 0)), t);
        OverflowCommutes(s, t, AppendOk(oks, 0));
      }
    }
  }

  lemma OpenAdrift(s: State, t: Turn)
    requires Inv(s) && s.open.Some? && t.done
    requires t.agents == s.turns[s.open.value].agents && t.spawned == s.turns[s.open.value].spawned && t.open == 0
    requires t.turn == s.turns[s.open.value].turn
    ensures var o := s.open.value;
      var s1 := s.(open := None, turns := s.turns[o := t], agents := s.agents - BoundTo(s, o));
      Adrift(s1, o)
  {
  }

  lemma OpenGoneInv(s: State, t: Turn)
    requires Inv(s) && s.open.Some? && t.done
    requires t.agents == s.turns[s.open.value].agents && t.spawned == s.turns[s.open.value].spawned && t.open == 0
    requires t.turn == s.turns[s.open.value].turn
    ensures var o := s.open.value; Inv(s.(open := None, turns := s.turns[o := t], agents := s.agents - BoundTo(s, o)))
  {
    var o := s.open.value;
    var s1 := s.(open := None, turns := s.turns[o := t], agents := s.agents - BoundTo(s, o));
    assert Numbers(s1.turns, s1.queue) == Numbers(s.turns, s.queue);
    assert forall k :: 0 <= k < |s.log| ==> Logged(s.log, s.log[k].turn);
  }

  /** The open turn's main completion with nothing left to wait for. */
  lemma WriteAtOnceInv(s: State, t: Turn, ok: bool)
    requires Inv(s) && s.open.Some? && t.done
    requires t.agents == s.turns[s.open.value].agents && t.spawned == s.turns[s.open.value].spawned && t.open == 0
    requires t.turn == s.turns[s.open.value].turn
    ensures var o := s.open.value; Inv(Write(s.(open := None, turns := s.turns[o := t]), o, ok))
  {
    var o := s.open.value;
    var s1 := s.(open := None, turns := s.turns[o := t], agents := s.agents - BoundTo(s, o));
    OpenGoneInv(s, t);
    OpenAdrift(s, t);
    LogInv(s1, o, ok);
    var s2 := s.(open := None, turns := s.turns[o := t]);
    assert BoundTo(s2, o) == BoundTo(s, o);
  }

  /** The open turn becomes a closing one. */
  function Close(s: State, t: Turn): State
    requires InRange(s) && s.open.Some?
  {
    s.(open := None, turns := s.turns[s.open.value := t], closing := s.closing + [s.open.value])
  }

  lemma CloseInv(s: State, t: Turn)
    requires Inv(s) && s.open.Some? && t.done && |s.closing| < MAX_CLOSING
    requires t.agents == s.turns[s.open.value].agents && t.spawned == s.turns[s.open.value].spawned
    requires t.turn == s.turns[s.open.value].turn && t.open == s.turns[s.open.value].open > 0
    ensures Inv(Close(s, t))
  {
    var s' := Close(s, t);
    ClosePlaces(s, t);
    assert Numbers(s'.turns, s'.queue) == Numbers(s.turns, s.queue);
    assert forall k :: 0 <= k < |s.log| ==> Logged(s.log, s.log[k].turn);
    assert forall i: nat :: i in s'.closing <==> i in s.closing || i == s.open.value;
  }

  lemma ClosePlaces(s: State, t: Turn)
    requires InRange(s) && Places(s) && s.open.Some? && |s.closing| < MAX_CLOSING
    ensures InRange(Close(s, t)) && Places(Close(s, t))
  {
    var s' := Close(s, t);
    assert forall i: nat :: i in s'.closing <==> i in s.closing || i == s.open.value;
    assert forall k :: 0 <= k < |s.closing| ==> s.closing[k] in s.closing;
  }

  lemma OverflowCommutes(s: State, t: Turn, ok: bool)
    requires Inv(s) && s.open.Some? && s.closing != []
    ensures InRange(Close(s, t)) && InRange(WriteOldest(s, ok))
    ensures WriteOldest(Close(s, t), ok) == Close(WriteOldest(s, ok), t)
  {
    var s' := Close(s, t);
    assert s.closing[0] in s.closing;
    assert s'.closing[0] == s.closing[0] && s'.closing[1..] == s.closing[1..] + [s.open.value];
    assert BoundTo(s', s.closing[0]) == BoundTo(s, s.closing[0]);
    var o := s.open.value;
  }

  lemma ResetInv(s: State)
    requires Inv(s)
    ensures Inv(DoReset(s))
  {
  }

  lemma NextInv(s: State, cfg: Config, e: Event)
    requires Inv(s)
    ensures Inv(Next(s, cfg, e))
  {
    match e
    case Submit(_, _, _, _) => PromptInv(s, cfg, e);
    case Drop(_) => PromptInv(s, cfg, e);
    case Start(_, _, _) => PromptInv(s, cfg, e);
    case Complete(agent, turnId, aborted, d, now, oks) =>
      if agent.Some? { CompleteAgentInv(s, agent.value, oks); } else { CompleteMainInv(s, turnId, aborted, d, now, oks); }
    case _ => OtherInv(s, cfg, e);
  }

  lemma PromptInv(s: State, cfg: Config, e: Event)
    requires Inv(s) && (e.Submit? || e.Drop? || e.Start?)
    ensures Inv(Next(s, cfg, e))
  {
    match e
    case Submit(text, midTurn, own, now) => SubmitInv(s, cfg, text, midTurn, own, now);
    case Drop(text) => DropInv(s, cfg, text);
    case Start(text, turnId, now) => StartInv(s, cfg, text, turnId, now);
  }

  lemma OtherInv(s: State, cfg: Config, e: Event)
    requires Inv(s) && !(e.Submit? || e.Drop? || e.Start? || e.Complete?)
    ensures Inv(Next(s, cfg, e))
  {
    match e
    case Compose(f) => ComposeInv(s, f);
    case Spawn(id) => SpawnInv(s, id);
    case Step(agent, tokens) => StepInv(s, agent, tokens);
    case Flush(oks) => FlushInv(s, oks);
    case Reset => ResetInv(s);
    case Identify(id) => IdentifyInv(s, id);
  }

  lemma IdentifyInv(s: State, id: string)
    requires Inv(s)
    ensures Inv(DoIdentify(s, id))
  {
    assert DoIdentify(s, id).queue == s.queue;
  }
}
