/** What holds over whole runs of the E-D turn ledger. */
module EdRuns {
  import opened Base
  import opened EdLedger

  /** The state after a run that begins with a fresh runtime. */
  function Run(cfg: Config, es: seq<Event>): State
    decreases es, 1
  {
    if es == [] then Init
    else
      RunInv(cfg, es[..|es| - 1]);
      Next(Run(cfg, es[..|es| - 1]), cfg, es[|es| - 1])
  }

  /** The invariant holds after every run. */
  lemma {:induction false} RunInv(cfg: Config, es: seq<Event>)
    ensures Inv(Run(cfg, es))
    decreases es, 2
  {
    if es != [] {
      RunInv(cfg, es[..|es| - 1]);
      NextInv(Run(cfg, es[..|es| - 1]), cfg, es[|es| - 1]);
    }
  }

  lemma RunStep(cfg: Config, es: seq<Event>, e: Event)
    ensures InRange(Run(cfg, es)) && Run(cfg, es + [e]) == Next(Run(cfg, es), cfg, e)
  {
    RunInv(cfg, es);
    assert (es + [e])[..|es|] == es;
  }

  // ---------------------------------------------------------------- places

  datatype Place = Queued | Open | Closing | Written | Gone

  function PlaceOf(s: State, i: nat): Place {
    if i in s.queue then Queued
    else if IsOpen(s, i) then Open
    else if i in s.closing then Closing
    else if Logged(s.log, i) then Written
    else Gone
  }

  /** How often turn `i` was handed to the append. */
  function Writes(log: seq<Entry>, i: nat): nat {
    if log == [] then 0 else (if log[0].turn == i then 1 else 0) + Writes(log[1..], i)
  }

  lemma {:induction false} WritesCount(log: seq<Entry>, i: nat)
    requires forall j, k :: 0 <= j < k < |log| ==> log[j].turn != log[k].turn
    ensures Writes(log, i) == if Logged(log, i) then 1 else 0
  {
    if log != [] {
      WritesCount(log[1..], i);
      if Logged(log[1..], i) {
        var k :| 0 <= k < |log[1..]| && log[1..][k].turn == i;
        assert log[k + 1].turn == i;
      }
      if Logged(log, i) && log[0].turn != i {
        var k :| 0 <= k < |log| && log[k].turn == i;
        assert log[1..][k - 1].turn == i;
      }
    }
  }

  /** Which events may move a turn from one place to another. */
  predicate MayMove(from: Place, to: Place, e: Event) {
    match (from, to)
    case (Queued, Open) => e.Start?
    case (Queued, Gone) => e.Submit? || e.Drop? || e.Start? || e.Reset?
    case (Open, Closing) => e.Complete? && e.agent.None?
    case (Open, Written) => e.Complete? && e.agent.None?
    case (Open, Gone) => e.Start? || e.Reset?
    case (Closing, Written) => e.Complete? || e.Flush?
    case (Closing, Gone) => e.Reset?
    case (_, _) => from == to
  }

  lemma FlushLogs(s: State, oks: seq<bool>, i: nat)
    requires Inv(s)
    ensures var s' := DoFlush(s, oks);
      && s'.turns == s.turns && s'.queue == s.queue && s'.open == s.open && s'.count == s.count && s'.bound == s.bound
      && s'.closing == [] && s.log <= s'.log
      && (Logged(s'.log, i) <==> Logged(s.log, i) || i in s.closing)
    decreases |s.closing|
  {
    if s.closing != [] {
      var s1 := WriteOldest(s, AppendOk(oks, 0));
      WriteOldestInv(s, AppendOk(oks, 0));
      LoggedAppend(s.log, s1.log[|s.log|]);
      FlushLogs(s1, if oks == [] then [] else oks[1..], i);
    }
  }

  lemma AgentMoves(s: State, id: AgentId, oks: seq<bool>, i: nat)
    requires Inv(s) && i < |s.turns|
    ensures var s' := CompleteAgent(s, id, oks);
      && |s'.turns| == |s.turns| && s.log <= s'.log && s'.turns[i].done == s.turns[i].done
      && (PlaceOf(s', i) == PlaceOf(s, i) || (PlaceOf(s, i) == Closing && PlaceOf(s', i) == Written))
  {
    var s' := CompleteAgent(s, id, oks);
    if s'.log != s.log {
      LoggedAppend(s.log, s'.log[|s.log|]);
    }
  }

  lemma MainMoves(s: State, turnId: string, aborted: bool, d: int, now: int, oks: seq<bool>, i: nat)
    requires Inv(s) && i < |s.turns|
    ensures var s' := CompleteMain(s, turnId, aborted, d, now, oks);
      && |s'.turns| == |s.turns| && s.log <= s'.log
      && s'.turns[i].done == (s.turns[i].done || (PlaceOf(s, i) == Open && PlaceOf(s', i) != Open))
      && (PlaceOf(s', i) == PlaceOf(s, i)
          || (PlaceOf(s, i) == Open && (PlaceOf(s', i) == Closing || PlaceOf(s', i) == Written))
          || (PlaceOf(s, i) == Closing && PlaceOf(s', i) == Written))
  {
    var s' := CompleteMain(s, turnId, aborted, d, now, oks);
    if s'.log != s.log {
      LoggedAppend(s.log, s'.log[|s.log|]);
    }
    if s' != s && s'.closing != [] && s'.open != s.open {
      var pushed := s.closing + [s.open.value];
      assert |s'.closing| == |s.closing| || s'.closing == pushed;
      if |pushed| > MAX_CLOSING && s'.closing == pushed[1..] {
        assert forall j: nat :: j in pushed && j != pushed[0] ==> j in pushed[1..];
      }
    }
  }

  lemma SubmitMoves(s: State, cfg: Config, text: string, midTurn: bool, own: bool, now: int, i: nat)
    requires Inv(s) && i < |s.turns|
    ensures var s' := DoSubmit(s, cfg, text, midTurn, own, now);
      PlaceOf(s', i) == PlaceOf(s, i) || (PlaceOf(s, i) == Queued && PlaceOf(s', i) == Gone)
  {
  }

  lemma StartMoves(s: State, cfg: Config, text: string, turnId: string, now: int, i: nat)
    requires Inv(s) && i < |s.turns|
    ensures var s' := DoStart(s, cfg, text, turnId, now);
      && MayMove(PlaceOf(s, i), PlaceOf(s', i), Start(text, turnId, now)) && s'.turns[i].done == s.turns[i].done
  {
    var k := FirstWithKey(s.turns, s.queue, cfg.hash(text));
    if k < |s.queue| { assert s.queue[k] in s.queue; }
  }

  lemma OtherMoves(s: State, cfg: Config, e: Event, i: nat)
    requires InRange(s) && Places(s) && i < |s.turns| && (e.Drop? || e.Compose? || e.Spawn? || e.Step? || e.Reset? || e.Identify?)
    ensures var s' := Next(s, cfg, e);
      && |s'.turns| == |s.turns| && s'.log == s.log && s'.turns[i].done == s.turns[i].done
      && MayMove(PlaceOf(s, i), PlaceOf(s', i), e)
  {
    match e
    case Drop(text) => DropMoves(s, cfg, text, i);
    case Step(agent, tokens) => assert DoStep(s, agent, tokens).queue == s.queue;
    case _ =>
  }

  lemma DropMoves(s: State, cfg: Config, text: string, i: nat)
    requires InRange(s) && Places(s) && i < |s.turns|
    ensures var s' := DoDrop(s, cfg, text);
      && s' == s.(queue := s'.queue)
      && (PlaceOf(s', i) == PlaceOf(s, i) || (PlaceOf(s, i) == Queued && PlaceOf(s', i) == Gone))
  {
    var s' := DoDrop(s, cfg, text);
    assert forall j: nat :: j in s'.queue ==> j in s.queue;
  }

  /** Every turn moves only forward, and only on the events that may move it. Its main completion is noted on leaving Open for Closing or Written. */
  lemma PlacesMoveForward(s: State, cfg: Config, e: Event, i: nat)
    requires Inv(s) && i < |s.turns|
    ensures var s' := Next(s, cfg, e);
      && i < |s'.turns| && s.log <= s'.log
      && MayMove(PlaceOf(s, i), PlaceOf(s', i), e)
      && s'.turns[i].done == (s.turns[i].done || (PlaceOf(s, i) == Open && PlaceOf(s', i) in {Closing, Written}))
  {
    var s' := Next(s, cfg, e);
    match e
    case Flush(oks) => FlushLogs(s, oks, i);
    case Complete(agent, turnId, aborted, d, now, oks) =>
      if agent.Some? { AgentMoves(s, agent.value, oks, i); } else { MainMoves(s, turnId, aborted, d, now, oks, i); }
    case Submit(text, midTurn, own, now) => SubmitMoves(s, cfg, text, midTurn, own, now, i);
    case Start(text, turnId, now) => StartMoves(s, cfg, text, turnId, now, i);
    case _ => OtherMoves(s, cfg, e, i);
  }

  // ---------------------------------------------------------------- written exactly once

  /** A turn whose main completion was seen and that is in no place any more. */
  predicate Lost(s: State, i: nat) {
    i < |s.turns| && s.turns[i].done && PlaceOf(s, i) == Gone
  }

  /** The session is reset while turns still wait in `closing`, that is, not right after a flush. */
  predicate ResetOverClosing(s: State, e: Event) {
    e == Reset && s.closing != []
  }

  lemma LostStep(s: State, cfg: Config, e: Event, i: nat)
    requires Inv(s) && i < |s.turns|
    ensures Lost(Next(s, cfg, e), i) <==> Lost(s, i) || (e == Reset && i in s.closing)
  {
    PlacesMoveForward(s, cfg, e, i);
  }

  /** Some reset of the run came over a non-empty `closing`. */
  predicate SomeResetOverClosing(cfg: Config, es: seq<Event>) {
    es != [] &&
    (SomeResetOverClosing(cfg, es[..|es| - 1]) || ResetOverClosing(Run(cfg, es[..|es| - 1]), es[|es| - 1]))
  }

  lemma SomeLostStep(s: State, cfg: Config, e: Event)
    requires Inv(s)
    ensures (exists i: nat :: Lost(Next(s, cfg, e), i)) <==> (exists i: nat :: Lost(s, i)) || ResetOverClosing(s, e)
  {
    var s' := Next(s, cfg, e);
    if i: nat :| Lost(s, i) {
      LostStep(s, cfg, e, i);
    } else if ResetOverClosing(s, e) {
      assert s.closing[0] in s.closing;
      LostStep(s, cfg, e, s.closing[0]);
    }
    if i: nat :| Lost(s', i) {
      if i < |s.turns| {
        LostStep(s, cfg, e, i);
        if i in s.closing { assert s.closing != []; }
      } else {
        NewTurnQueued(s, cfg, e, i);
      }
    }
  }

  /** A turn that did not exist before the step is not done. */
  lemma NewTurnQueued(s: State, cfg: Config, e: Event, i: nat)
    requires InRange(s) && |s.turns| <= i < |Next(s, cfg, e).turns|
    ensures !Next(s, cfg, e).turns[i].done
  {
    match e
    case Flush(oks) => FlushLogGrows(s, oks);
    case _ =>
  }

  /** Some turn is lost exactly when some reset of the run came over a non-empty `closing`. */
  lemma {:induction false} LostExactlyByReset(cfg: Config, es: seq<Event>)
    ensures (exists i: nat :: Lost(Run(cfg, es), i)) <==> SomeResetOverClosing(cfg, es)
  {
    if es != [] {
      var n := |es| - 1;
      LostExactlyByReset(cfg, es[..n]);
      RunInv(cfg, es[..n]);
      SomeLostStep(Run(cfg, es[..n]), cfg, es[n]);
      assert Run(cfg, es) == Next(Run(cfg, es[..n]), cfg, es[n]);
      assert SomeResetOverClosing(cfg, es) <==>
             SomeResetOverClosing(cfg, es[..n]) || ResetOverClosing(Run(cfg, es[..n]), es[n]);
    } else {
      assert Run(cfg, es) == Init;
      assert forall i: nat :: !Lost(Init, i);
    }
  }

  /**
   * A turn is handed to the append at most once, and only if its main completion was seen. One
   * whose completion was seen has been written once, waits in `closing`, or was lost to a reset.
   */
  lemma WrittenOnce(cfg: Config, es: seq<Event>, i: nat)
    requires i < |Run(cfg, es).turns|
    ensures var s := Run(cfg, es);
      && Writes(s.log, i) <= 1
      && (Writes(s.log, i) == 1 <==> PlaceOf(s, i) == Written)
      && (s.turns[i].done <==> PlaceOf(s, i) == Closing || PlaceOf(s, i) == Written || Lost(s, i))
  {
    var s := Run(cfg, es);
    RunInv(cfg, es);
    WritesCount(s.log, i);
  }

  /**
   * `session.end` flushes first. If every reset of the run finds `closing` empty, then after a
   * flush every turn whose main completion was seen has been written exactly once.
   */
  lemma FlushCompletesTheLedger(cfg: Config, es: seq<Event>, oks: seq<bool>, i: nat)
    requires !SomeResetOverClosing(cfg, es) && i < |Run(cfg, es).turns|
    ensures var s := Run(cfg, es + [Flush(oks)]);
      i < |s.turns| && (s.turns[i].done <==> Writes(s.log, i) == 1)
  {
    RunStep(cfg, es, Flush(oks));
    RunInv(cfg, es);
    LostExactlyByReset(cfg, es);
    LostStep(Run(cfg, es), cfg, Flush(oks), i);
    FlushLogs(Run(cfg, es), oks, i);
    WrittenOnce(cfg, es + [Flush(oks)], i);
  }

  /** The log only grows, and every row in it is still what its turn would write: a written row is final. */
  lemma RowsAreFinal(cfg: Config, es: seq<Event>, more: seq<Event>)
    ensures var s := Run(cfg, es); var s' := Run(cfg, es + more);
      && s.log <= s'.log
      && forall k :: 0 <= k < |s.log| ==>
           s.log[k].turn < |s'.turns| && s.log[k].row == RowOf(s'.turns[s.log[k].turn], s.log[k].row.session)
  {
    LogGrows(cfg, es, more);
    RunInv(cfg, es + more);
    assert forall k :: 0 <= k < |Run(cfg, es).log| ==> Run(cfg, es).log[k] == Run(cfg, es + more).log[k];
  }

  lemma {:induction false} LogGrows(cfg: Config, es: seq<Event>, more: seq<Event>)
    ensures Run(cfg, es).log <= Run(cfg, es + more).log
    ensures |Run(cfg, es).turns| <= |Run(cfg, es + more).turns|
  {
    if more == [] {
      assert es + more == es;
    } else {
      var n := |more| - 1;
      LogGrows(cfg, es, more[..n]);
      assert es + more == es + more[..n] + [more[n]];
      RunStep(cfg, es + more[..n], more[n]);
      LogGrowsStep(Run(cfg, es + more[..n]), cfg, more[n]);
    }
  }

  lemma LogGrowsStep(s: State, cfg: Config, e: Event)
    requires InRange(s)
    ensures s.log <= Next(s, cfg, e).log && |s.turns| <= |Next(s, cfg, e).turns|
  {
    match e
    case Flush(oks) => FlushLogGrows(s, oks);
    case _ =>
  }

  lemma {:induction false} FlushLogGrows(s: State, oks: seq<bool>)
    requires InRange(s)
    ensures s.log <= DoFlush(s, oks).log && DoFlush(s, oks).turns == s.turns
    decreases |s.closing|
  {
    if s.closing != [] { FlushLogGrows(WriteOldest(s, AppendOk(oks, 0)), if oks == [] then [] else oks[1..]); }
  }

  /** The numbers turn.start bound since the session began grow, and a start binds a larger one than any of them. */
  lemma BoundNumbersGrow(cfg: Config, es: seq<Event>, text: string, turnId: string, now: int)
    ensures Increasing(Run(cfg, es).bound)
    ensures var s := Run(cfg, es); var s' := Run(cfg, es + [Start(text, turnId, now)]);
      InRange(s') && (s' == s || (s'.open.Some? && s'.bound == s.bound + [s'.turns[s'.open.value].turn]
                  && s'.turns[s'.open.value].key == cfg.hash(text)
                  && forall b :: b in s.bound ==> b < s'.turns[s'.open.value].turn))
  {
    var s := Run(cfg, es);
    RunStep(cfg, es, Start(text, turnId, now));
    RunInv(cfg, es);
    StartInv(Run(cfg, es), cfg, text, turnId, now);
    var s' := Run(cfg, es + [Start(text, turnId, now)]);
    assert forall k :: 0 <= k < |s.bound| ==> s.bound[k] == (s.bound + Numbers(s.turns, s.queue))[k];
    if s' != s {
      var i := FirstWithKey(s.turns, s.queue, cfg.hash(text));
      var ns := s'.bound + Numbers(s'.turns, s'.queue);
      assert forall k :: 0 <= k < |s'.bound| ==> s'.bound[k] == ns[k];
      assert s'.bound[|s.bound|] == s'.turns[s'.open.value].turn;
      forall b | b in s.bound ensures b < s'.turns[s'.open.value].turn {
        var k :| 0 <= k < |s.bound| && s.bound[k] == b;
        assert s'.bound[k] == b;
      }
    }
  }

  // ---------------------------------------------------------------- the count of waited-for subagents

  predicate Live(s: State, i: nat) {
    IsOpen(s, i) || i in s.closing
  }

  /** The subagents turn `i` still waits for: spawned in it and still bound to it. */
  function Waiting(s: State, i: nat): set<AgentId>
    requires i < |s.turns|
  {
    set id | id in s.turns[i].spawned && id in s.agents && s.agents[id] == i
  }

  /** `open` of every live turn is the number of subagents it waits for. */
  ghost predicate Counted(s: State)
    requires InRange(s)
  {
    forall i :: 0 <= i < |s.turns| && Live(s, i) ==> s.turns[i].open == |Waiting(s, i)|
  }

  /** The spawn names an agent that another turn, already closing, still waits for. */
  predicate Steals(s: State, e: Event)
    requires InRange(s)
  {
    && e.Spawn? && e.id.Some? && e.id.value != "" && HasOpen(s)
    && e.id.value !in s.turns[s.open.value].spawned
    && e.id.value in s.agents
    && s.agents[e.id.value] in s.closing
    && e.id.value in s.turns[s.agents[e.id.value]].spawned
  }

  /** The step is of an agent that was spawned in the open turn and has completed since. */
  predicate Revives(s: State, e: Event)
    requires InRange(s)
  {
    && e.Step? && e.agent.Some? && HasOpen(s)
    && e.agent.value !in s.agents
    && e.agent.value in s.turns[s.open.value].spawned && e.agent.value != ""
  }

  /** What the counting argument needs of the invariant. */
  ghost predicate Bound(s: State)
    requires InRange(s)
  {
    && (s.open.Some? ==> s.open.value !in s.closing && !s.turns[s.open.value].done)
    && (forall i :: 0 <= i < |s.turns| ==> s.turns[i].spawned <= s.turns[i].agents)
    && (forall id :: id in s.agents ==> id in s.turns[s.agents[id]].agents)
  }

  lemma CountedSpawn(s: State, id: Option<AgentId>)
    requires InRange(s) && Bound(s) && Counted(s)
    ensures InRange(DoSpawn(s, id)) && (Counted(DoSpawn(s, id)) <==> !Steals(s, Spawn(id)))
  {
    if id.Some? && id.value != "" && HasOpen(s) && id.value !in s.turns[s.open.value].spawned {
      if Steals(s, Spawn(id)) {
        StealMiscounts(s, id.value);
      } else {
        SpawnStaysCounted(s, id.value);
      }
    }
  }

  lemma SpawnStaysCounted(s: State, id: AgentId)
    requires InRange(s) && Bound(s) && Counted(s) && HasOpen(s) && id != "" && id !in s.turns[s.open.value].spawned
    requires !Steals(s, Spawn(Some(id)))
    ensures InRange(DoSpawn(s, Some(id))) && Counted(DoSpawn(s, Some(id)))
  {
    var s' := DoSpawn(s, Some(id));
    forall i | 0 <= i < |s'.turns| && Live(s', i) ensures s'.turns[i].open == |Waiting(s', i)| {
      SpawnWaiting(s, id);
      if i != s.open.value { SpawnKeepsOthers(s, id); }
    }
  }

  lemma SpawnWaiting(s: State, id: AgentId)
    requires InRange(s) && Bound(s) && HasOpen(s) && id != "" && id !in s.turns[s.open.value].spawned
    ensures var o := s.open.value; var s' := DoSpawn(s, Some(id));
      && Waiting(s', o) == Waiting(s, o) + {id}
      && forall i :: 0 <= i < |s.turns| && i != o ==> Waiting(s', i) == Waiting(s, i) - {id}
  {
  }

  lemma StealMiscounts(s: State, id: AgentId)
    requires InRange(s) && Bound(s) && Counted(s) && Steals(s, Spawn(Some(id)))
    ensures InRange(DoSpawn(s, Some(id))) && !Counted(DoSpawn(s, Some(id)))
  {
    var s' := DoSpawn(s, Some(id));
    var j := s.agents[id];
    assert id in Waiting(s, j);
    assert Waiting(s', j) == Waiting(s, j) - {id};
    assert Live(s, j) && Live(s', j) && s'.turns[j].open == s.turns[j].open;
  }

  lemma SpawnKeepsOthers(s: State, id: AgentId)
    requires InRange(s) && Bound(s) && HasOpen(s) && id != "" && id !in s.turns[s.open.value].spawned
    requires !Steals(s, Spawn(Some(id)))
    ensures forall i :: 0 <= i < |s.turns| && Live(s, i) && i != s.open.value ==> id !in Waiting(s, i) && Waiting(s, i) - {id} == Waiting(s, i)
  {
  }

  lemma CountedStep(s: State, agent: Option<AgentId>, tokens: int)
    requires InRange(s) && Bound(s) && Counted(s)
    ensures InRange(DoStep(s, agent, tokens)) && (Counted(DoStep(s, agent, tokens)) <==> !Revives(s, Step(agent, tokens)))
  {
    var s' := DoStep(s, agent, tokens);
    if s'.agents == s.agents {
      assert forall i :: 0 <= i < |s.turns| ==> Waiting(s', i) == Waiting(s, i);
    } else {
      LateStepWaiting(s, agent.value, tokens);
      BoundStepCounts(s, s', s.open.value, agent.value);
    }
  }

  /** Only the open turn's count can go wrong, and only by a newly bound agent it had spawned. */
  lemma BoundStepCounts(s: State, s': State, o: nat, id: AgentId)
    requires InRange(s) && InRange(s') && Counted(s) && IsOpen(s, o) && id !in s.agents && |s'.turns| == |s.turns|
    requires s'.open == s.open && s'.closing == s.closing
    requires forall i :: 0 <= i < |s.turns| ==> s'.turns[i].open == s.turns[i].open
    requires forall i :: 0 <= i < |s.turns| && i != o ==> Waiting(s', i) == Waiting(s, i)
    requires Waiting(s', o) == if id in s.turns[o].spawned then Waiting(s, o) + {id} else Waiting(s, o)
    ensures Counted(s') <==> id !in s.turns[o].spawned
  {
    assert Live(s, o) && Live(s', o) && id !in Waiting(s, o);
    forall i | 0 <= i < |s.turns| && i != o ensures Live(s', i) ==> s'.turns[i].open == |Waiting(s', i)| {
      assert Live(s', i) <==> Live(s, i);
    }
  }

  /** A step of an unbound agent binds it to the open turn, which waits for it only if it was spawned there. */
  lemma LateStepWaiting(s: State, id: AgentId, tokens: int)
    requires InRange(s) && HasOpen(s) && id !in s.agents && id != ""
    ensures var o := s.open.value; var s' := DoStep(s, Some(id), tokens);
      && (forall i :: 0 <= i < |s.turns| && i != o ==> Waiting(s', i) == Waiting(s, i))
      && Waiting(s', o) == if id in s.turns[o].spawned then Waiting(s, o) + {id} else Waiting(s, o)
  {
  }

  lemma CountedAgent(s: State, id: AgentId, oks: seq<bool>)
    requires InRange(s) && Bound(s) && Counted(s)
    ensures InRange(CompleteAgent(s, id, oks)) && Counted(CompleteAgent(s, id, oks))
  {
    var s' := CompleteAgent(s, id, oks);
    if id in s.agents {
      var i := s.agents[id];
      assert forall k :: 0 <= k < |s'.closing| ==> s'.closing[k] in s'.closing;
      forall j | 0 <= j < |s.turns| && j != i
        ensures Waiting(s', j) == Waiting(s, j)
      {
      }
      if Live(s', i) {
        assert Waiting(s', i) == Waiting(s, i) - {id};
      }
    }
  }

  lemma CountedMain(s: State, turnId: string, aborted: bool, d: int, now: int, oks: seq<bool>)
    requires InRange(s) && Bound(s) && NoDup(s.closing) && Counted(s)
    ensures var s' := CompleteMain(s, turnId, aborted, d, now, oks); InRange(s') && Counted(s')
  {
    var s' := CompleteMain(s, turnId, aborted, d, now, oks);
    if s' != s {
      forall j | 0 <= j < |s.turns| && Live(s', j)
        ensures Live(s, j) && Waiting(s', j) == Waiting(s, j)
      {
        MainStaysLive(s, turnId, aborted, d, now, oks, j);
        MainStillWaits(s, turnId, aborted, d, now, oks, j);
      }
    }
  }

  lemma MainStaysLive(s: State, turnId: string, aborted: bool, d: int, now: int, oks: seq<bool>, j: nat)
    requires InRange(s) && NoDup(s.closing) && j < |s.turns| && s.open.Some? && s.open.value !in s.closing
    ensures var s' := CompleteMain(s, turnId, aborted, d, now, oks);
      Live(s', j) ==> Live(s, j) && (s'.log != s.log ==> s'.log[|s'.log| - 1].turn != j)
  {
    var pushed := s.closing + [s.open.value];
    if |pushed| > 0 {
      assert forall k: nat :: k in pushed <==> k in s.closing || k == s.open.value;
      assert forall k :: 0 <= k < |pushed[1..]| ==> pushed[1..][k] == pushed[k + 1];
    }
  }

  lemma MainStillWaits(s: State, turnId: string, aborted: bool, d: int, now: int, oks: seq<bool>, j: nat)
    requires InRange(s) && j < |s.turns| && s.open.Some?
    ensures var s' := CompleteMain(s, turnId, aborted, d, now, oks);
      (s'.log != s.log ==> s'.log[|s'.log| - 1].turn != j) ==> |s'.turns| == |s.turns| && Waiting(s', j) == Waiting(s, j)
  {
  }

  lemma CountedStart(s: State, cfg: Config, text: string, turnId: string, now: int)
    requires InRange(s) && Bindings(s) && Counted(s)
    ensures var s' := DoStart(s, cfg, text, turnId, now); InRange(s') && Counted(s')
  {
    var s' := DoStart(s, cfg, text, turnId, now);
    var i := FirstWithKey(s.turns, s.queue, cfg.hash(text));
    if s' != s {
      var o := s'.open.value;
      assert s.queue[i] in s.queue;
      assert Waiting(s', o) == {};
      assert forall j :: 0 <= j < |s.turns| ==> Waiting(s', j) == Waiting(s, j);
      assert forall k :: 0 <= k < |s'.queue| ==> s'.queue[k] == s.queue[k + i + 1];
    }
  }

  lemma CountedRest(s: State, cfg: Config, e: Event)
    requires InRange(s) && Counted(s) && InRange(Next(s, cfg, e))
    requires e.Submit? || e.Drop? || e.Compose? || e.Reset? || e.Identify?
    ensures Counted(Next(s, cfg, e))
  {
    var s' := Next(s, cfg, e);
    if !e.Reset? {
      assert forall i :: 0 <= i < |s.turns| ==> Waiting(s', i) == Waiting(s, i);
      forall i | 0 <= i < |s'.turns| && Live(s', i) ensures i < |s.turns| {
        if i in s.closing { var k :| 0 <= k < |s.closing| && s.closing[k] == i; }
      }
    }
  }

  lemma {:induction false} CountedFlush(s: State, oks: seq<bool>)
    requires InRange(s) && Bound(s) && NoDup(s.closing) && Counted(s)
    ensures InRange(DoFlush(s, oks)) && Counted(DoFlush(s, oks))
    decreases |s.closing|
  {
    if s.closing != [] {
      var s1 := WriteOldest(s, AppendOk(oks, 0));
      assert forall k :: 0 <= k < |s1.closing| ==> s1.closing[k] == s.closing[k + 1];
      assert forall i: nat :: i in s1.closing ==> i in s.closing;
      forall i | 0 <= i < |s.turns| && Live(s1, i) ensures s1.turns[i].open == |Waiting(s1, i)| {
        assert Waiting(s1, i) == Waiting(s, i);
      }
      CountedFlush(s1, if oks == [] then [] else oks[1..]);
    }
  }

  /** A step keeps the count right exactly when it neither steals a waited-for agent nor revives a completed one. */
  lemma CountedExactly(s: State, cfg: Config, e: Event)
    requires Inv(s) && Counted(s)
    ensures InRange(Next(s, cfg, e))
    ensures Counted(Next(s, cfg, e)) <==> !Steals(s, e) && !Revives(s, e)
  {
    NextInv(s, cfg, e);
    BoundHolds(s);
    match e
    case Spawn(id) => CountedSpawn(s, id);
    case Step(agent, tokens) => CountedStep(s, agent, tokens);
    case Complete(agent, turnId, aborted, d, now, oks) =>
      if agent.Some? { CountedAgent(s, agent.value, oks); } else { CountedMain(s, turnId, aborted, d, now, oks); }
    case Start(text, turnId, now) => CountedStart(s, cfg, text, turnId, now);
    case Flush(oks) => CountedFlush(s, oks);
    case _ => CountedRest(s, cfg, e);
  }

  lemma BoundHolds(s: State)
    requires Inv(s)
    ensures Bound(s)
  {
  }

  /** No event of the run steals or revives an agent. */
  ghost predicate Undisturbed(cfg: Config, es: seq<Event>) {
    es != [] ==>
      var s := Run(cfg, es[..|es| - 1]);
      Undisturbed(cfg, es[..|es| - 1]) && InRange(s) && !Steals(s, es[|es| - 1]) && !Revives(s, es[|es| - 1])
  }

  /** In such a run `open` of every live turn is the number of subagents it waits for. */
  lemma {:induction false} OpenCountsWaiting(cfg: Config, es: seq<Event>)
    requires Undisturbed(cfg, es)
    ensures InRange(Run(cfg, es)) && Counted(Run(cfg, es))
  {
    RunInv(cfg, es);
    if es != [] {
      OpenCountsWaiting(cfg, es[..|es| - 1]);
      RunInv(cfg, es[..|es| - 1]);
      CountedExactly(Run(cfg, es[..|es| - 1]), cfg, es[|es| - 1]);
    }
  }

  /**
   * Then the clamp at zero never acts: a completion a live turn waits for takes one from a count of
   * at least one. An open turn stays open, and a closing one is written by exactly the last such completion.
   */
  lemma LastCompletionWrites(s: State, id: AgentId, oks: seq<bool>)
    requires Inv(s) && Counted(s) && id in s.agents
    requires Live(s, s.agents[id]) && id in s.turns[s.agents[id]].spawned
    ensures var i := s.agents[id]; var s' := CompleteAgent(s, id, oks);
      && s'.turns[i].open == s.turns[i].open - 1 == |Waiting(s, i) - {id}|
      && (IsOpen(s, i) ==> PlaceOf(s', i) == Open)
      && (i in s.closing ==> (PlaceOf(s', i) == Written <==> Waiting(s, i) == {id}))
  {
    var i := s.agents[id];
    var s' := CompleteAgent(s, id, oks);
    assert id in Waiting(s, i);
    if s'.log != s.log { LoggedAppend(s.log, s'.log[|s.log|]); }
    if s.turns[i].open == 1 {
      assert |Waiting(s, i) - {id}| == 0;
    }
  }

  /** And the main completion writes at once exactly when nothing is waited for. */
  lemma MainCompletionWrites(s: State, turnId: string, aborted: bool, d: int, now: int, oks: seq<bool>)
    requires Inv(s) && Counted(s) && s.open.Some? && s.turns[s.open.value].turnId == Some(turnId)
    ensures var o := s.open.value;
      PlaceOf(CompleteMain(s, turnId, aborted, d, now, oks), o) == if Waiting(s, o) == {} then Written else Closing
  {
    var o := s.open.value;
    assert Live(s, o);
    MainMoves(s, turnId, aborted, d, now, oks, o);
    var s' := CompleteMain(s, turnId, aborted, d, now, oks);
    if s.turns[o].open == 0 {
      LoggedAppend(s.log, s'.log[|s.log|]);
    } else {
      assert s'.closing[|s'.closing| - 1] == o;
    }
  }

  const SAMPLE := Config(true, (text: string) => |text|, (session: string, n: nat) => W0, (session: string) => false)

  /** One prompt and its turn. */
  const ONE_TURN := [Identify("s"), Submit("p", false, true, 0), Start("p", "t", 1)]

  /** Two agents; "a" completes, steps once more and completes again. */
  const LATE_STEP := [
    Spawn(Some("a")), Spawn(Some("b")),
    Complete(Some("a"), "", false, 0, 2, []), Step(Some("a"), 5), Complete(Some("a"), "", false, 0, 3, [])]

  const OPEN_TURN := Turn(1, W0, 1, 0, Some(1), Some("t"), false, 0, 0, {}, {}, 0, false, None, false, None)

  function WithTurn(t: Turn, agents: map<AgentId, nat>): State {
    State("s", 1, [t], [], Some(0), [], agents, [], [1])
  }

  lemma OneTurnReached()
    ensures Run(SAMPLE, ONE_TURN) == WithTurn(OPEN_TURN, map[])
  {
    var es := ONE_TURN;
    assert Run(SAMPLE, []) == Init;
    RunStep(SAMPLE, [], es[0]);
    assert [] + [es[0]] == es[..1];
    RunStep(SAMPLE, es[..1], es[1]);
    assert es[..1] + [es[1]] == es[..2];
    assert "p"[0] == 'p' && !Blank("p");
    assert Run(SAMPLE, es[..2]) == Init.(session := "s", count := 1, turns := [NewTurn(1, W0, 1, 0)], queue := [0]);
    RunStep(SAMPLE, es[..2], es[2]);
    assert es[..2] + [es[2]] == es;
  }

  lemma OneSpawn(t: Turn, agents: map<AgentId, nat>, id: AgentId)
    requires !t.done && id != "" && id !in t.spawned && forall a :: a in agents ==> agents[a] == 0
    ensures Next(WithTurn(t, agents), SAMPLE, Spawn(Some(id))) ==
            WithTurn(t.(agents := t.agents + {id}, spawned := t.spawned + {id}, open := t.open + 1), agents[id := 0])
  {
  }

  lemma OneCompletion(t: Turn, agents: map<AgentId, nat>, id: AgentId, e: Event)
    requires !t.done && id in agents && id in t.spawned && t.open > 0 && forall a :: a in agents ==> agents[a] == 0
    requires e.Complete? && e.agent == Some(id)
    ensures Next(WithTurn(t, agents), SAMPLE, e) == WithTurn(t.(open := t.open - 1), agents - {id})
  {
  }

  lemma OneLateStep(t: Turn, agents: map<AgentId, nat>, id: AgentId, tokens: int)
    requires !t.done && id !in agents && id in t.spawned && t.spawned <= t.agents && id != "" && forall a :: a in agents ==> agents[a] == 0
    ensures InRange(WithTurn(t, agents)) && Revives(WithTurn(t, agents), Step(Some(id), tokens))
    ensures Next(WithTurn(t, agents), SAMPLE, Step(Some(id), tokens)) ==
            WithTurn(t.(tokSub := t.tokSub + tokens), agents[id := 0])
  {
    assert t.agents + {id} == t.agents;
  }

  lemma RunSteps(es: seq<Event>, fs: seq<Event>, k: nat)
    requires k < |fs|
    ensures InRange(Run(SAMPLE, es + fs[..k]))
    ensures Run(SAMPLE, es + fs[..k + 1]) == Next(Run(SAMPLE, es + fs[..k]), SAMPLE, fs[k])
  {
    assert es + fs[..k] + [fs[k]] == es + fs[..k + 1];
    RunStep(SAMPLE, es + fs[..k], fs[k]);
  }

  const BOTH := OPEN_TURN.(agents := {"a", "b"}, spawned := {"a", "b"}, open := 2)

  lemma TwoSpawnsReached()
    ensures Run(SAMPLE, ONE_TURN + LATE_STEP[..2]) == WithTurn(BOTH, map["a" := 0, "b" := 0])
  {
    OneTurnReached();
    assert ONE_TURN + LATE_STEP[..0] == ONE_TURN;
    RunSteps(ONE_TURN, LATE_STEP, 0);
    RunSteps(ONE_TURN, LATE_STEP, 1);
    OneSpawn(OPEN_TURN, map[], "a");
    OneSpawn(OPEN_TURN.(agents := {} + {"a"}, spawned := {} + {"a"}, open := 1), map[]["a" := 0], "b");
    assert {} + {"a"} + {"b"} == {"a", "b"};
    assert map[]["a" := 0]["b" := 0] == map["a" := 0, "b" := 0];
  }

  lemma FirstCompletionReached()
    ensures Run(SAMPLE, ONE_TURN + LATE_STEP[..3]) == WithTurn(BOTH.(open := 1), map["b" := 0])
  {
    TwoSpawnsReached();
    RunSteps(ONE_TURN, LATE_STEP, 2);
    OneCompletion(BOTH, map["a" := 0, "b" := 0], "a", LATE_STEP[2]);
    assert map["a" := 0, "b" := 0] - {"a"} == map["b" := 0];
  }

  lemma SecondStepReached()
    ensures InRange(Run(SAMPLE, ONE_TURN + LATE_STEP[..3])) && Revives(Run(SAMPLE, ONE_TURN + LATE_STEP[..3]), LATE_STEP[3])
    ensures Run(SAMPLE, ONE_TURN + LATE_STEP[..4]) == WithTurn(BOTH.(open := 1, tokSub := 5), map["b" := 0]["a" := 0])
  {
    FirstCompletionReached();
    RunSteps(ONE_TURN, LATE_STEP, 3);
    OneLateStep(BOTH.(open := 1), map["b" := 0], "a", 5);
  }

  lemma LateStepReached()
    ensures Run(SAMPLE, ONE_TURN + LATE_STEP) == WithTurn(BOTH.(open := 0, tokSub := 5), map["b" := 0])
    ensures InRange(Run(SAMPLE, ONE_TURN + LATE_STEP[..3])) && Revives(Run(SAMPLE, ONE_TURN + LATE_STEP[..3]), LATE_STEP[3])
  {
    SecondStepReached();
    RunSteps(ONE_TURN, LATE_STEP, 4);
    OneCompletion(BOTH.(open := 1, tokSub := 5), map["b" := 0]["a" := 0], "a", LATE_STEP[4]);
    assert map["b" := 0]["a" := 0] - {"a"} == map["b" := 0];
    assert LATE_STEP[..5] == LATE_STEP;
  }

  /**
   * Fresh agent ids alone do not keep the count: an agent that completes, steps and completes again
   * is counted down twice, so the turn is then written with no subagent open while "b" still runs.
   */
  lemma LateStepMiscounts()
    ensures InRange(Run(SAMPLE, ONE_TURN + LATE_STEP)) && |Run(SAMPLE, ONE_TURN + LATE_STEP).turns| == 1
    ensures Waiting(Run(SAMPLE, ONE_TURN + LATE_STEP), 0) == {"b"}
    ensures PlaceOf(CompleteMain(Run(SAMPLE, ONE_TURN + LATE_STEP), "t", false, 9, 4, []), 0) == Written
  {
    LateStepReached();
    var s := Run(SAMPLE, ONE_TURN + LATE_STEP);
    RunInv(SAMPLE, ONE_TURN + LATE_STEP);
    var s' := CompleteMain(s, "t", false, 9, 4, []);
    assert s'.log[0].turn == 0;
  }

  /** A turn that spawns "a" and is done before "a" is. */
  const CLOSED := [Spawn(Some("a")), Complete(None, "t", false, 9, 2, [])]

  const CLOSED_TURN :=
    OPEN_TURN.(agents := {"a"}, spawned := {"a"}, open := 1, done := true, tsEnd := Some(2), durationMs := Some(9))

  lemma ClosedReached()
    ensures Run(SAMPLE, ONE_TURN + CLOSED) == State("s", 1, [CLOSED_TURN], [], None, [0], map["a" := 0], [], [1])
  {
    OneSpawnReached();
    RunSteps(ONE_TURN, CLOSED, 1);
    OneClosing(SPAWNED_TURN, map["a" := 0]);
    assert CLOSED[..2] == CLOSED;
  }

  const SPAWNED_TURN := OPEN_TURN.(agents := {"a"}, spawned := {"a"}, open := 1)

  lemma OneSpawnReached()
    ensures Run(SAMPLE, ONE_TURN + CLOSED[..1]) == WithTurn(SPAWNED_TURN, map["a" := 0])
  {
    OneTurnReached();
    assert ONE_TURN + CLOSED[..0] == ONE_TURN;
    RunSteps(ONE_TURN, CLOSED, 0);
    OneSpawn(OPEN_TURN, map[], "a");
    assert {} + {"a"} == {"a"} && map[]["a" := 0] == map["a" := 0];
  }

  lemma OneClosing(t: Turn, agents: map<AgentId, nat>)
    requires t.turnId == Some("t") && t.open > 0 && forall a :: a in agents ==> agents[a] == 0
    ensures Next(WithTurn(t, agents), SAMPLE, CLOSED[1])
         == State("s", 1, [Finished(t, false, 9, 2)], [], None, [0], agents, [], [1])
  {
  }

  /** A turn whose completion was seen is lost when the session is reset before its agent "a" completes. */
  lemma ResetLosesATurn()
    ensures var s := Run(SAMPLE, ONE_TURN + CLOSED + [Reset]); s.log == [] && Lost(s, 0)
  {
    ClosedReached();
    RunStep(SAMPLE, ONE_TURN + CLOSED, Reset);
  }

  // ---------------------------------------------------------------- attribution

  /** The agent is still bound to its turn, or that turn is written. */
  predicate StillBound(s: State, s': State, id: AgentId)
    requires id in s.agents
  {
    (id in s'.agents && s'.agents[id] == s.agents[id]) || Logged(s'.log, s.agents[id])
  }

  /**
   * A bound agent stays bound to its turn, however late, until it completes, the turn is written,
   * the session is reset, or the same id is spawned again.
   */
  lemma BindingSticks(s: State, cfg: Config, e: Event, id: AgentId)
    requires Inv(s) && id in s.agents
    ensures StillBound(s, Next(s, cfg, e), id) || e == Reset || e == Spawn(Some(id)) || (e.Complete? && e.agent == Some(id))
  {
    if e.Flush? {
      FlushSticks(s, e.oks, id);
    } else if e.Complete? {
      if e.agent != Some(id) { CompletionBindings(s, e, id); }
    } else if !e.Reset? && e != Spawn(Some(id)) {
      EasyBindings(s, cfg, e, id);
    }
  }

  lemma FlushSticks(s: State, oks: seq<bool>, id: AgentId)
    requires Inv(s) && id in s.agents
    ensures StillBound(s, DoFlush(s, oks), id)
  {
    FlushLogs(s, oks, s.agents[id]);
    if s.agents[id] !in s.closing { FlushBindings(s, oks, id); }
  }

  lemma EasyBindings(s: State, cfg: Config, e: Event, id: AgentId)
    requires InRange(s) && id in s.agents && !e.Flush? && !e.Complete? && !e.Reset? && e != Spawn(Some(id))
    ensures StillBound(s, Next(s, cfg, e), id)
  {
  }

  lemma CompletionBindings(s: State, e: Event, id: AgentId)
    requires InRange(s) && id in s.agents && e.Complete? && e.agent != Some(id)
    ensures var s' := if e.agent.Some? then CompleteAgent(s, e.agent.value, e.oks)
                      else CompleteMain(s, e.turnId, e.aborted, e.durationMs, e.now, e.oks);
      StillBound(s, s', id)
  {
    var s' := if e.agent.Some? then CompleteAgent(s, e.agent.value, e.oks)
              else CompleteMain(s, e.turnId, e.aborted, e.durationMs, e.now, e.oks);
    if s'.log != s.log { LoggedAppend(s.log, s'.log[|s.log|]); }
  }

  lemma {:induction false} FlushBindings(s: State, oks: seq<bool>, id: AgentId)
    requires InRange(s) && id in s.agents && s.agents[id] !in s.closing
    ensures id in DoFlush(s, oks).agents && DoFlush(s, oks).agents[id] == s.agents[id]
    decreases |s.closing|
  {
    if s.closing != [] {
      assert s.closing[0] in s.closing;
      FlushBindings(WriteOldest(s, AppendOk(oks, 0)), if oks == [] then [] else oks[1..], id);
    }
  }

  function TurnTokens(turns: seq<Turn>): int {
    if turns == [] then 0 else TurnTokens(turns[..|turns| - 1]) + turns[|turns| - 1].tokMain + turns[|turns| - 1].tokSub
  }

  lemma {:induction false} TurnTokensUpdate(turns: seq<Turn>, i: nat, t: Turn)
    requires i < |turns|
    ensures TurnTokens(turns[i := t]) == TurnTokens(turns) - turns[i].tokMain - turns[i].tokSub + t.tokMain + t.tokSub
  {
    var n := |turns| - 1;
    if i == n {
      assert turns[i := t][..n] == turns[..n];
    } else {
      assert turns[i := t][..n] == turns[..n][i := t];
      TurnTokensUpdate(turns[..n], i, t);
    }
  }

  /** The tokens a step reports. */
  function Noted(e: Event): int {
    if e.Step? then e.tokens else 0
  }

  /** A step belongs to some turn: of the main agent or an unknown one while a turn is open, or of a bound agent. */
  predicate Attributed(s: State, e: Event)
    requires InRange(s)
  {
    e.Step? && ((e.agent.Some? && e.agent.value in s.agents) || (HasOpen(s) && e.agent != Some("")))
  }

  function AllNoted(es: seq<Event>): int {
    if es == [] then 0 else AllNoted(es[..|es| - 1]) + Noted(es[|es| - 1])
  }

  function Unattributed(cfg: Config, es: seq<Event>): int {
    if es == [] then 0
    else
      RunInv(cfg, es[..|es| - 1]);
      var e := es[|es| - 1];
      Unattributed(cfg, es[..|es| - 1]) + if Attributed(Run(cfg, es[..|es| - 1]), e) then 0 else Noted(e)
  }

  /** A step that changes at most one turn's tokens, by `d`. */
  lemma OneTurnTokens(turns: seq<Turn>, turns': seq<Turn>, i: nat, d: int)
    requires i < |turns| == |turns'| && turns' == turns[i := turns'[i]]
    requires turns'[i].tokMain + turns'[i].tokSub == turns[i].tokMain + turns[i].tokSub + d
    ensures TurnTokens(turns') == TurnTokens(turns) + d
  {
    TurnTokensUpdate(turns, i, turns'[i]);
  }

  lemma TokensStep(s: State, cfg: Config, e: Event)
    requires InRange(s)
    ensures TurnTokens(Next(s, cfg, e).turns) == TurnTokens(s.turns) + if Attributed(s, e) then Noted(e) else 0
  {
    var s' := Next(s, cfg, e);
    if e.Flush? {
      FlushLogGrows(s, e.oks);
    } else if e.Submit? {
      SubmitTokens(s, cfg, e);
    } else if s'.turns != s.turns {
      var i := Touched(s, cfg, e);
      OneTurnTokens(s.turns, s'.turns, i, if Attributed(s, e) then Noted(e) else 0);
    }
  }

  lemma SubmitTokens(s: State, cfg: Config, e: Event)
    requires InRange(s) && e.Submit?
    ensures TurnTokens(Next(s, cfg, e).turns) == TurnTokens(s.turns)
  {
    assert Next(s, cfg, e).turns[..|s.turns|] == s.turns;
  }

  /** The one turn a step changes. */
  lemma Touched(s: State, cfg: Config, e: Event) returns (i: nat)
    requires InRange(s) && !e.Flush? && |Next(s, cfg, e).turns| == |s.turns| && Next(s, cfg, e).turns != s.turns
    ensures
      var ts := Next(s, cfg, e).turns;
      && i < |s.turns| && ts == s.turns[i := ts[i]]
      && ts[i].tokMain + ts[i].tokSub == s.turns[i].tokMain + s.turns[i].tokSub + if Attributed(s, e) then Noted(e) else 0
  {
    if e.Start? {
      i := Next(s, cfg, e).open.value;
    } else if (e.Step? || e.Complete?) && e.agent.Some? && e.agent.value in s.agents {
      i := s.agents[e.agent.value];
    } else {
      i := s.open.value;
    }
  }

  /** Over every run, the tokens of all turns and the unattributed ones add up to all tokens reported. */
  lemma {:induction false} TokensConserved(cfg: Config, es: seq<Event>)
    ensures TurnTokens(Run(cfg, es).turns) + Unattributed(cfg, es) == AllNoted(es)
  {
    if es != [] {
      var n := |es| - 1;
      TokensConserved(cfg, es[..n]);
      RunInv(cfg, es[..n]);
      TokensStep(Run(cfg, es[..n]), cfg, es[n]);
    }
  }
}
