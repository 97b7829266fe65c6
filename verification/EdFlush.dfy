/**
 * A flush of the closing turns that other events interleave with (flushEd in plugin/hooks/ed.ts): it
 * takes all of them out and writes the first at once, and then awaits one write after the other, while
 * agents may complete.
 */
module EdFlush {
  import opened Base
  import opened EdLedger
  import opened EdRuns

  /** The ledger and the turns the running flush has taken but not yet come to. */
  datatype Flushing = Flushing(s: State, pending: seq<nat>)

  datatype Move = Meanwhile(e: Event) | WriteNext(ok: bool)

  predicate Sound(f: Flushing) {
    InRange(f.s) && Below(f.pending, |f.s.turns|)
  }

  function Begin(s: State, ok: bool): Flushing
    requires InRange(s)
  {
    var s1 := s.(closing := []);
    if s.closing == [] then Flushing(s1, []) else Flushing(Write(s1, s.closing[0], ok), s.closing[1..])
  }

  function MoveOn(f: Flushing, cfg: Config, m: Move): Flushing
    requires Sound(f)
  {
    match m
    case Meanwhile(e) => f.(s := Next(f.s, cfg, e))
    case WriteNext(ok) => if f.pending == [] then f else Flushing(Write(f.s, f.pending[0], ok), f.pending[1..])
  }

  function After(cfg: Config, s: State, ok: bool, ms: seq<Move>): (f: Flushing)
    requires InRange(s)
    ensures Sound(f)
  {
    if ms == [] then Begin(s, ok)
    else
      var f := After(cfg, s, ok, ms[..|ms| - 1]);
      SoundNext(f, cfg, ms[|ms| - 1]);
      MoveOn(f, cfg, ms[|ms| - 1])
  }

  lemma AfterStep(cfg: Config, s: State, ok: bool, ms: seq<Move>, m: Move)
    requires InRange(s)
    ensures After(cfg, s, ok, ms + [m]) == MoveOn(After(cfg, s, ok, ms), cfg, m)
  {
    assert (ms + [m])[..|ms|] == ms;
  }

  // ---------------------------------------------------------------- every index stays that of a turn

  lemma {:induction false} FlushInRange(s: State, oks: seq<bool>)
    requires InRange(s)
    ensures InRange(DoFlush(s, oks)) && DoFlush(s, oks).turns == s.turns
    decreases |s.closing|
  {
    if s.closing != [] { FlushInRange(WriteOldest(s, AppendOk(oks, 0)), if oks == [] then [] else oks[1..]); }
  }

  lemma NextInRange(s: State, cfg: Config, e: Event)
    requires InRange(s)
    ensures InRange(Next(s, cfg, e)) && |s.turns| <= |Next(s, cfg, e).turns|
  {
    match e
    case Flush(oks) => FlushInRange(s, oks);
    case Complete(agent, turnId, aborted, d, now, oks) =>
      if agent.Some? { AgentInRange(s, agent.value, oks); } else { MainInRange(s, turnId, aborted, d, now, oks); }
    case _ => RestInRange(s, cfg, e);
  }

  lemma MainInRange(s: State, turnId: string, aborted: bool, d: int, now: int, oks: seq<bool>)
    requires InRange(s)
    ensures var s' := CompleteMain(s, turnId, aborted, d, now, oks); InRange(s') && |s'.turns| == |s.turns|
  {
  }

  lemma RestInRange(s: State, cfg: Config, e: Event)
    requires InRange(s) && !e.Flush? && !e.Complete?
    ensures InRange(Next(s, cfg, e)) && |s.turns| <= |Next(s, cfg, e).turns|
  {
  }

  lemma AgentInRange(s: State, id: AgentId, oks: seq<bool>)
    requires InRange(s)
    ensures InRange(CompleteAgent(s, id, oks)) && |CompleteAgent(s, id, oks).turns| == |s.turns|
  {
    if id in s.agents {
      var left := Without(s.closing, s.agents[id]);
      assert forall k :: 0 <= k < |left| ==> left[k] in left;
    }
  }

  lemma SoundNext(f: Flushing, cfg: Config, m: Move)
    requires Sound(f)
    ensures Sound(MoveOn(f, cfg, m))
  {
    if m.Meanwhile? { NextInRange(f.s, cfg, m.e); }
  }

  // ---------------------------------------------------------------- one taken turn

  /** A done turn a flush has taken: `loops` says whether the loop has come to it. */
  ghost predicate InGap(s: State, i: nat, loops: nat)
    requires InRange(s)
  {
    && i < |s.turns| && s.turns[i].done && s.turns[i].open >= 0
    && i !in s.queue && i !in s.closing && !IsOpen(s, i)
    && (forall id :: id in s.agents && s.agents[id] == i ==>
          id in s.turns[i].agents && loops == 0 && s.turns[i].open > 0)
    && Writes(s.log, i) == loops + if s.turns[i].open == 0 then 1 else 0
  }

  lemma {:induction false} WritesSnoc(log: seq<Entry>, x: Entry, i: nat)
    ensures Writes(log + [x], i) == Writes(log, i) + if x.turn == i then 1 else 0
  {
    if log != [] {
      assert (log + [x])[1..] == log[1..] + [x];
      WritesSnoc(log[1..], x, i);
    }
  }

  /** A write of another turn. */
  lemma OtherWrite(s: State, s': State, i: nat, loops: nat, x: Entry)
    requires InRange(s) && InGap(s, i, loops) && InRange(s') && x.turn != i
    requires |s'.turns| == |s.turns| && s'.turns[i] == s.turns[i] && s'.log == s.log + [x]
    requires i !in s'.closing && i !in s'.queue && !IsOpen(s', i)
    requires forall id :: id in s'.agents ==> id in s.agents && s'.agents[id] == s.agents[id]
    ensures InGap(s', i, loops)
  {
    WritesSnoc(s.log, x, i);
  }

  lemma {:induction false} FlushKeepsGap(s: State, oks: seq<bool>, i: nat, loops: nat)
    requires InRange(s) && InGap(s, i, loops)
    ensures InRange(DoFlush(s, oks)) && InGap(DoFlush(s, oks), i, loops)
    decreases |s.closing|
  {
    if s.closing != [] {
      var s1 := WriteOldest(s, AppendOk(oks, 0));
      assert s.closing[0] in s.closing;
      OtherWrite(s, s1, i, loops, s1.log[|s.log|]);
      FlushKeepsGap(s1, if oks == [] then [] else oks[1..], i, loops);
    }
  }

  /** An agent's completion may bring the taken turn itself to zero, which writes it. */
  lemma AgentKeepsGap(s: State, id: AgentId, oks: seq<bool>, i: nat, loops: nat)
    requires InRange(s) && InGap(s, i, loops)
    ensures InRange(CompleteAgent(s, id, oks)) && InGap(CompleteAgent(s, id, oks), i, loops)
  {
    AgentInRange(s, id, oks);
    var s' := CompleteAgent(s, id, oks);
    if s'.log != s.log {
      WritesSnoc(s.log, s'.log[|s.log|], i);
    }
  }

  lemma MainKeepsGap(s: State, turnId: string, aborted: bool, d: int, now: int, oks: seq<bool>, i: nat, loops: nat)
    requires InRange(s) && InGap(s, i, loops)
    ensures var s' := CompleteMain(s, turnId, aborted, d, now, oks); InRange(s') && InGap(s', i, loops)
  {
    var s' := CompleteMain(s, turnId, aborted, d, now, oks);
    if s'.log != s.log {
      var o := s.open.value;
      var pushed := s.closing + [o];
      assert pushed[0] in pushed;
      OtherWrite(s, s', i, loops, s'.log[|s.log|]);
    }
  }

  lemma NextKeepsGap(s: State, cfg: Config, e: Event, i: nat, loops: nat)
    requires InRange(s) && InGap(s, i, loops)
    ensures InRange(Next(s, cfg, e)) && InGap(Next(s, cfg, e), i, loops)
  {
    NextInRange(s, cfg, e);
    match e
    case Flush(oks) => FlushKeepsGap(s, oks, i, loops);
    case Complete(agent, turnId, aborted, d, now, oks) =>
      if agent.Some? { AgentKeepsGap(s, agent.value, oks, i, loops); }
      else { MainKeepsGap(s, turnId, aborted, d, now, oks, i, loops); }
    case Start(text, turnId, now) => StartKeepsGap(s, cfg, text, turnId, now, i, loops);
    case Spawn(id) => SpawnKeepsGap(s, id, i, loops);
    case Step(agent, tokens) => StepKeepsGap(s, agent, tokens, i, loops);
    case _ => RestKeepsGap(s, cfg, e, i, loops);
  }

  lemma SpawnKeepsGap(s: State, id: Option<AgentId>, i: nat, loops: nat)
    requires InRange(s) && InGap(s, i, loops)
    ensures InRange(DoSpawn(s, id)) && InGap(DoSpawn(s, id), i, loops)
  {
  }

  lemma StepKeepsGap(s: State, agent: Option<AgentId>, tokens: int, i: nat, loops: nat)
    requires InRange(s) && InGap(s, i, loops)
    ensures InRange(DoStep(s, agent, tokens)) && InGap(DoStep(s, agent, tokens), i, loops)
  {
  }

  lemma StartKeepsGap(s: State, cfg: Config, text: string, turnId: string, now: int, i: nat, loops: nat)
    requires InRange(s) && InGap(s, i, loops)
    ensures var s' := DoStart(s, cfg, text, turnId, now); InRange(s') && InGap(s', i, loops)
  {
    var k := FirstWithKey(s.turns, s.queue, cfg.hash(text));
    if k < |s.queue| { assert s.queue[k] in s.queue; }
  }

  lemma RestKeepsGap(s: State, cfg: Config, e: Event, i: nat, loops: nat)
    requires InRange(s) && InGap(s, i, loops) && InRange(Next(s, cfg, e))
    requires !e.Flush? && !e.Complete? && !e.Start? && !e.Spawn? && !e.Step?
    ensures InGap(Next(s, cfg, e), i, loops)
  {
  }

  /** The loop comes to the turn: it is written, and nobody is bound to it any more. */
  lemma LoopWrites(s: State, i: nat, ok: bool)
    requires InRange(s) && InGap(s, i, 0)
    ensures InRange(Write(s, i, ok)) && InGap(Write(s, i, ok), i, 1)
  {
    WritesSnoc(s.log, Write(s, i, ok).log[|s.log|], i);
  }

  lemma LoopKeepsGap(s: State, j: nat, ok: bool, i: nat, loops: nat)
    requires InRange(s) && j < |s.turns| && InGap(s, i, loops) && i != j
    ensures InRange(Write(s, j, ok)) && InGap(Write(s, j, ok), i, loops)
  {
    OtherWrite(s, Write(s, j, ok), i, loops, Write(s, j, ok).log[|s.log|]);
  }

  lemma TakenIsInGap(s: State, i: nat)
    requires Inv(s) && i in s.closing
    ensures InGap(s.(closing := []), i, 0)
  {
    WritesCount(s.log, i);
  }

  lemma BeginGap(s: State, ok: bool, i: nat)
    requires Inv(s) && i in s.closing
    ensures var f := Begin(s, ok); Sound(f) && NoDup(f.pending) && InGap(f.s, i, if i in f.pending then 0 else 1)
  {
    var first, rest := s.closing[0], s.closing[1..];
    TakenIsInGap(s, i);
    assert s.closing == [first] + rest;
    assert forall k :: 0 <= k < |rest| ==> rest[k] == s.closing[k + 1];
    if i == first {
      LoopWrites(s.(closing := []), i, ok);
    } else {
      LoopKeepsGap(s.(closing := []), first, ok, i, 0);
    }
  }

  lemma {:induction false} GapKept(cfg: Config, s: State, ok: bool, ms: seq<Move>, i: nat)
    requires Inv(s) && i in s.closing
    ensures var f := After(cfg, s, ok, ms);
      NoDup(f.pending) && InGap(f.s, i, if i in f.pending then 0 else 1)
  {
    if ms == [] {
      BeginGap(s, ok, i);
    } else {
      GapKept(cfg, s, ok, ms[..|ms| - 1], i);
      GapMove(After(cfg, s, ok, ms[..|ms| - 1]), cfg, ms[|ms| - 1], i);
    }
  }

  lemma GapMove(f: Flushing, cfg: Config, m: Move, i: nat)
    requires Sound(f) && NoDup(f.pending) && InGap(f.s, i, if i in f.pending then 0 else 1)
    ensures var f' := MoveOn(f, cfg, m);
      Sound(f') && NoDup(f'.pending) && InGap(f'.s, i, if i in f'.pending then 0 else 1)
  {
    SoundNext(f, cfg, m);
    if m.Meanwhile? {
      NextKeepsGap(f.s, cfg, m.e, i, if i in f.pending then 0 else 1);
    } else if f.pending != [] {
      var rest := f.pending[1..];
      assert forall k :: 0 <= k < |rest| ==> rest[k] == f.pending[k + 1];
      assert f.pending == [f.pending[0]] + rest;
      if i == f.pending[0] {
        LoopWrites(f.s, i, m.ok);
      } else {
        LoopKeepsGap(f.s, f.pending[0], m.ok, i, if i in f.pending then 0 else 1);
      }
    }
  }

  /** The completion of a subagent that turn `i` is counted to wait for. */
  predicate CountsDown(s: State, e: Event, i: nat)
    requires i < |s.turns|
  {
    && e.Complete? && e.agent.Some? && e.agent.value in s.agents && s.agents[e.agent.value] == i
    && e.agent.value in s.turns[i].spawned
  }

  lemma CountInGap(s: State, cfg: Config, e: Event, i: nat, loops: nat)
    requires InRange(s) && InGap(s, i, loops)
    ensures i < |Next(s, cfg, e).turns|
    ensures Next(s, cfg, e).turns[i].open == s.turns[i].open - if CountsDown(s, e, i) then 1 else 0
    ensures CountsDown(s, e, i) ==> loops == 0
  {
    match e
    case Flush(oks) => FlushInRange(s, oks);
    case Complete(agent, turnId, aborted, d, now, oks) =>
      if agent.Some? { AgentCountInGap(s, agent.value, oks, i, loops); } else { MainCountInGap(s, turnId, aborted, d, now, oks, i, loops); }
    case Start(text, turnId, now) => StartCountInGap(s, cfg, text, turnId, now, i, loops);
    case _ =>
  }

  lemma AgentCountInGap(s: State, id: AgentId, oks: seq<bool>, i: nat, loops: nat)
    requires InRange(s) && InGap(s, i, loops)
    ensures var s' := CompleteAgent(s, id, oks);
      |s'.turns| == |s.turns|
      && s'.turns[i].open == s.turns[i].open - if id in s.agents && s.agents[id] == i && id in s.turns[i].spawned then 1 else 0
  {
  }

  lemma MainCountInGap(s: State, turnId: string, aborted: bool, d: int, now: int, oks: seq<bool>, i: nat, loops: nat)
    requires InRange(s) && InGap(s, i, loops)
    ensures var s' := CompleteMain(s, turnId, aborted, d, now, oks); |s'.turns| == |s.turns| && s'.turns[i] == s.turns[i]
  {
  }

  lemma StartCountInGap(s: State, cfg: Config, text: string, turnId: string, now: int, i: nat, loops: nat)
    requires InRange(s) && InGap(s, i, loops)
    ensures var s' := DoStart(s, cfg, text, turnId, now); |s'.turns| == |s.turns| && s'.turns[i] == s.turns[i]
  {
    var k := FirstWithKey(s.turns, s.queue, cfg.hash(text));
    if k < |s.queue| { assert s.queue[k] in s.queue; }
  }

  /** While the loop has still to come to turn `i`, the last subagent it is counted to wait for completes. */
  predicate Overtakes(f: Flushing, m: Move, i: nat) {
    && i in f.pending && i < |f.s.turns| && m.Meanwhile? && CountsDown(f.s, m.e, i) && f.s.turns[i].open == 1
  }

  ghost predicate SomeOvertakes(cfg: Config, s: State, ok: bool, ms: seq<Move>, i: nat)
    requires InRange(s)
  {
    ms != [] &&
    (SomeOvertakes(cfg, s, ok, ms[..|ms| - 1], i) || Overtakes(After(cfg, s, ok, ms[..|ms| - 1]), ms[|ms| - 1], i))
  }

  lemma CountOnMove(f: Flushing, cfg: Config, m: Move, i: nat)
    requires Sound(f) && InGap(f.s, i, if i in f.pending then 0 else 1)
    ensures var f' := MoveOn(f, cfg, m);
      i < |f'.s.turns| && (f'.s.turns[i].open == 0 <==> f.s.turns[i].open == 0 || Overtakes(f, m, i))
  {
    if m.Meanwhile? { CountInGap(f.s, cfg, m.e, i, if i in f.pending then 0 else 1); }
  }

  lemma {:induction false} OpenByEvents(cfg: Config, s: State, ok: bool, ms: seq<Move>, i: nat)
    requires Inv(s) && i in s.closing
    ensures var f := After(cfg, s, ok, ms);
      i < |f.s.turns| && (f.s.turns[i].open == 0 <==> SomeOvertakes(cfg, s, ok, ms, i))
  {
    if ms != [] {
      OpenByEvents(cfg, s, ok, ms[..|ms| - 1], i);
      GapKept(cfg, s, ok, ms[..|ms| - 1], i);
      CountOnMove(After(cfg, s, ok, ms[..|ms| - 1]), cfg, ms[|ms| - 1], i);
    }
  }

  /**
   * A turn the flush took is written once by its loop, and once more exactly if the last subagent it
   * was counted to wait for completed before the loop came to it, whatever else happened meanwhile.
   */
  lemma DoubleWriteExactly(cfg: Config, es: seq<Event>, ok: bool, ms: seq<Move>, i: nat)
    requires i in Run(cfg, es).closing
    ensures InRange(Run(cfg, es))
    ensures var f := After(cfg, Run(cfg, es), ok, ms);
      Writes(f.s.log, i) == (if i in f.pending then 0 else 1) + if SomeOvertakes(cfg, Run(cfg, es), ok, ms, i) then 1 else 0
  {
    RunInv(cfg, es);
    GapKept(cfg, Run(cfg, es), ok, ms, i);
    OpenByEvents(cfg, Run(cfg, es), ok, ms, i);
  }

  /** After the turn that waits for "a", another one that is done before its agent "b" is. */
  const SECOND := [
    Submit("p", false, true, 3), Start("p", "u", 4), Spawn(Some("b")), Complete(None, "u", false, 9, 5, [])]

  const SECOND_TURN := Turn(2, W0, 1, 3, Some(4), Some("u"), false, 0, 0, {"b"}, {"b"}, 1, true, Some(5), false, Some(9))

  const SUBMITTED := State("s", 2, [CLOSED_TURN, NewTurn(2, W0, 1, 3)], [1], None, [0], map["a" := 0], [], [1])

  const STARTED_TURN := NewTurn(2, W0, 1, 3).(turnId := Some("u"), tsStart := Some(4))

  const STARTED := State("s", 2, [CLOSED_TURN, STARTED_TURN], [], Some(1), [0], map["a" := 0], [], [1, 2])

  const SPAWNED := State(
    "s", 2, [CLOSED_TURN, STARTED_TURN.(agents := {"b"}, spawned := {"b"}, open := 1)], [], Some(1), [0],
    map["a" := 0, "b" := 1], [], [1, 2])

  const TWO_CLOSED := State("s", 2, [CLOSED_TURN, SECOND_TURN], [], None, [0, 1], map["a" := 0, "b" := 1], [], [1, 2])

  lemma SecondSubmitted()
    ensures Next(State("s", 1, [CLOSED_TURN], [], None, [0], map["a" := 0], [], [1]), SAMPLE, SECOND[0]) == SUBMITTED
  {
    assert "p"[0] == 'p' && !Blank("p");
  }

  lemma SecondStarted()
    ensures InRange(SUBMITTED) && Next(SUBMITTED, SAMPLE, SECOND[1]) == STARTED
  {
    assert "p"[0] == 'p' && !Blank("p");
  }

  lemma SecondSpawns()
    ensures InRange(STARTED) && Next(STARTED, SAMPLE, SECOND[2]) == SPAWNED
  {
    assert {} + {"b"} == {"b"} && map["a" := 0]["b" := 1] == map["a" := 0, "b" := 1];
  }

  lemma SecondCloses()
    ensures InRange(SPAWNED) && Next(SPAWNED, SAMPLE, SECOND[3]) == TWO_CLOSED
  {
  }

  lemma TwoClosedReached()
    ensures Run(SAMPLE, ONE_TURN + CLOSED + SECOND) == TWO_CLOSED
  {
    var es := ONE_TURN + CLOSED;
    ClosedReached();
    assert es + SECOND[..0] == es;
    SecondSubmitted();
    RunSteps(es, SECOND, 0);
    SecondStarted();
    RunSteps(es, SECOND, 1);
    SecondSpawns();
    RunSteps(es, SECOND, 2);
    SecondCloses();
    RunSteps(es, SECOND, 3);
    assert SECOND[..4] == SECOND;
  }

  const OVERTAKEN := [Meanwhile(Complete(Some("b"), "", false, 1, 6, [true])), WriteNext(true)]

  lemma FirstTakenAndWritten()
    ensures InRange(TWO_CLOSED)
    ensures var f := Begin(TWO_CLOSED, true);
      f.pending == [1] && f.s.agents == map["b" := 1] && f.s.turns == TWO_CLOSED.turns && f.s.closing == []
  {
    var f := Begin(TWO_CLOSED, true);
    assert f.s.agents.Keys == {"b"};
  }

  /** While the flush awaits the first turn's write, the agent of the second completes: that turn is written twice. */
  lemma OvertakenTurnIsWrittenTwice()
    ensures InRange(Run(SAMPLE, ONE_TURN + CLOSED + SECOND)) && Run(SAMPLE, ONE_TURN + CLOSED + SECOND).closing == [0, 1]
    ensures var f := After(SAMPLE, Run(SAMPLE, ONE_TURN + CLOSED + SECOND), true, OVERTAKEN);
      f.pending == [] && Writes(f.s.log, 1) == 2
  {
    TwoClosedReached();
    FirstTakenAndWritten();
    var f := Begin(TWO_CLOSED, true);
    assert Overtakes(f, OVERTAKEN[0], 1);
    assert [] + [OVERTAKEN[0]] == OVERTAKEN[..1] && OVERTAKEN[..1] + [OVERTAKEN[1]] == OVERTAKEN;
    AfterStep(SAMPLE, TWO_CLOSED, true, [], OVERTAKEN[0]);
    AfterStep(SAMPLE, TWO_CLOSED, true, OVERTAKEN[..1], OVERTAKEN[1]);
    assert OVERTAKEN[..1][..0] == [] && SomeOvertakes(SAMPLE, TWO_CLOSED, true, OVERTAKEN[..1], 1);
    assert TWO_CLOSED.closing[1] == 1;
    DoubleWriteExactly(SAMPLE, ONE_TURN + CLOSED + SECOND, true, OVERTAKEN, 1);
  }
}
