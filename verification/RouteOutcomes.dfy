/**
 * Whose row a completion buffers, and with what outcome: the route-row ledger of
 * plugin/hooks/router.ts followed from an accepted spawn to its one row.
 */
module RouteOutcomes {
  import opened Base
  import opened RouteLedger
  import opened RouteRuns

  // ---------------------------------------------------------------- a pending entry's dispatch runs

  /** Trimming and overwriting never take the running dispatch of a pending entry away. */
  ghost predicate PendingRuns(s: State) {
    forall k :: k in s.routes && !s.routes[k].done ==> k in s.dispatches && s.dispatches[k].running
  }

  /** An agent is bound only to a key that was issued. */
  ghost predicate BoundIssued(s: State) {
    forall a :: a in s.byAgent ==> s.byAgent[a] in s.issued
  }

  lemma {:induction false} TrimSparesRunning(order: seq<string>, d: map<string, Dispatch>, excess: int, k: string)
    requires k in order && k in d && d[k].running
    ensures k in TrimOrder(order, d, excess)
  {
    if excess > 0 && order[0] != k {
      TrimSparesRunning(order[1..], d, if order[0] in d && d[order[0]].running then excess else excess - 1, k);
    }
  }

  lemma TrimPending(s: State)
    requires PendingRuns(s) && Ordered(s)
    ensures PendingRuns(TrimDispatches(s))
  {
    forall k | k in s.routes && !s.routes[k].done
      ensures k in TrimDispatches(s).dispatches && TrimDispatches(s).dispatches[k].running
    {
      TrimSparesRunning(s.dispatchOrder, s.dispatches, |s.dispatchOrder| - DISPATCH_KEEP_MAX, k);
    }
  }

  lemma SetPending(s: State, key: string, d: Dispatch)
    requires PendingRuns(s) && (d.running || key !in s.routes || s.routes[key].done)
    ensures PendingRuns(SetDispatch(s, key, d))
  {
  }

  lemma PruneMarkPending(s: State, desc: string, tier: Option<Tier>, byId: string, now: int)
    requires PendingRuns(s)
    ensures PendingRuns(MarkEscalations(PruneRoutes(s, now), desc, tier, byId, now))
  {
  }

  lemma AcceptPending(s: State, id: string, agent: Option<string>, desc: string, requested: string, resolved: string, now: int)
    requires PendingRuns(s) && id in s.dispatches && s.dispatches[id].running
    ensures PendingRuns(AcceptSpawn(s, id, agent, desc, requested, resolved, now))
  {
    PruneMarkPending(s, desc, EscalationTierOf(requested, resolved), id, now);
  }

  lemma SpawnPending(s: State, e: Event)
    requires OneRowEach(s) && Ordered(s) && PendingRuns(s) && e.Spawned? && Fresh(s, e)
    ensures PendingRuns(Next(s, e))
  {
    var agent := if e.resolved.Some? then e.agentId else None;
    var d := Dispatch(agent, e.resolved, e.resolved.Some?, false);
    var s0 := s.(clock := e.now);
    SetPending(s0, e.toolUseId, d);
    OrderedSet(s0, e.toolUseId, d);
    var s1 := SetDispatch(s0, e.toolUseId, d);
    if e.resolved.Some? {
      AcceptPending(s1, e.toolUseId, agent, e.desc, e.requested, e.resolved.value, e.now);
      OrderedRoutes(s1, e.toolUseId, agent, e.desc, e.requested, e.resolved.value, e.now);
      TrimPending(AcceptSpawn(s1, e.toolUseId, agent, e.desc, e.requested, e.resolved.value, e.now));
    } else {
      TrimPending(s1);
    }
  }

  lemma FinishPending(s: State, key: string, d: Dispatch, end: End)
    requires forall k :: k in s.routes && !s.routes[k].done && k != key ==> k in s.dispatches && s.dispatches[k].running
    ensures PendingRuns(FinishRun(s, key, d, end))
  {
  }

  lemma CompletePending(s: State, e: Event)
    requires PendingRuns(s) && e.Completed?
    ensures PendingRuns(Next(s, e))
  {
    if e.agent in s.byAgent {
      KnownPending(s, e);
    } else {
      var s1 := s.(clock := e.now, workflows := Unexpired(s.workflows, e.now));
      var runs := RunsBefore(s1.workflows, e.now - e.durationMs);
      var run := if |runs| == 1 then Some(runs[0].toolUseId) else None;
      WorkflowAgentPending(s1, e.agent, run, e.end, e.model, e.now);
      StrangerStep(s, e);
    }
  }

  lemma KnownPending(s: State, e: Event)
    requires PendingRuns(s) && e.Completed? && e.agent in s.byAgent
    ensures PendingRuns(Next(s, e))
  {
    var key := s.byAgent[e.agent];
    if key in s.dispatches { FinishPending(s.(clock := e.now), key, s.dispatches[key], e.end); }
  }

  lemma WorkflowAgentPending(s: State, agent: string, run: Option<string>, end: End, model: Option<string>, now: int)
    requires PendingRuns(s)
    ensures PendingRuns(FinishWorkflowAgent(s, agent, run, end, model, now))
  {
    var key := WF + agent;
    var r := RouteEntry(WorkflowRow(agent, model, run, now), "unknown", "", now, false);
    FinishPending(AddRoute(s.(byAgent := s.byAgent[agent := key]), key, r), key, Dispatch(Some(agent), model, true, false), end);
  }

  /** What the completion of an unknown agent does. */
  lemma StrangerStep(s: State, e: Event)
    requires e.Completed? && e.agent !in s.byAgent
    ensures var s1 := s.(clock := e.now, workflows := Unexpired(s.workflows, e.now));
      var runs := RunsBefore(s1.workflows, e.now - e.durationMs);
      var run := if |runs| == 1 then Some(runs[0].toolUseId) else None;
      Next(s, e) == if runs == [] then s1 else FinishWorkflowAgent(s1, e.agent, run, e.end, e.model, e.now)
  {
  }

  lemma BoundIssuedNext(s: State, e: Event)
    requires BoundIssued(s)
    ensures BoundIssued(Next(s, e))
  {
  }

  lemma {:induction false} PendingRunsRun(es: seq<Event>)
    requires FreshRun(es)
    ensures PendingRuns(Run(es)) && BoundIssued(Run(es))
  {
    if es != [] {
      var s, e := Run(es[..|es| - 1]), es[|es| - 1];
      PendingRunsRun(es[..|es| - 1]);
      OneRowRun(es[..|es| - 1]);
      BoundIssuedNext(s, e);
      match e
      case Spawned(_, _, _, _, _, _) => SpawnPending(s, e);
      case Completed(_, _, _, _, _) => CompletePending(s, e);
      case _ =>
    }
  }

  // ---------------------------------------------------------------- the row a completion buffers

  /** The row a completion owes: of the pending entry its agent is bound to, or of an unknown agent while a workflow runs. */
  function Owed(s: State, agent: string, end: End, durationMs: int, model: Option<string>, now: int): seq<Row> {
    if agent in s.byAgent then
      var k := s.byAgent[agent];
      if k in s.routes && !s.routes[k].done then [FinishRow(s.routes[k].row, end)] else []
    else
      var runs := RunsBefore(Unexpired(s.workflows, now), now - durationMs);
      if runs == [] then []
      else [FinishRow(WorkflowRow(agent, model, if |runs| == 1 then Some(runs[0].toolUseId) else None, now), end)]
  }

  lemma FinishBuffers(s: State, key: string, d: Dispatch, end: End)
    ensures FinishRun(s, key, d, end).rows
            == s.rows + if key in s.routes && !s.routes[key].done then [FinishRow(s.routes[key].row, end)] else []
    ensures key in s.routes ==> key in FinishRun(s, key, d, end).routes && FinishRun(s, key, d, end).routes[key].done
  {
  }

  /**
   * A completion buffers exactly the row it owes: whatever was trimmed or overwritten in the dispatch
   * view, the pending entry of its agent gets its row, with this outcome, and is done.
   */
  lemma CompletionBuffersItsRow(es: seq<Event>, agent: string, end: End, durationMs: int, model: Option<string>, now: int)
    requires FreshRun(es)
    ensures var s := Run(es); var s' := Next(s, Completed(agent, end, durationMs, model, now));
      && s'.rows == s.rows + Owed(s, agent, end, durationMs, model, now)
      && (agent in s.byAgent && s.byAgent[agent] in s.routes ==>
            s.byAgent[agent] in s'.routes && s'.routes[s.byAgent[agent]].done)
  {
    PendingRunsRun(es);
    if agent in Run(es).byAgent {
      KnownBuffers(Run(es), agent, end, durationMs, model, now);
    } else {
      StrangerBuffers(Run(es), agent, end, durationMs, model, now);
    }
  }

  lemma KnownBuffers(s: State, agent: string, end: End, durationMs: int, model: Option<string>, now: int)
    requires PendingRuns(s) && agent in s.byAgent
    ensures var s' := OnComplete(s, agent, end, durationMs, model, now); var key := s.byAgent[agent];
      && s'.rows == s.rows + (if key in s.routes && !s.routes[key].done then [FinishRow(s.routes[key].row, end)] else [])
      && (key in s.routes ==> key in s'.routes && s'.routes[key].done)
  {
    var key := s.byAgent[agent];
    if key in s.dispatches {
      FinishBuffers(s.(clock := now), key, s.dispatches[key], end);
    }
  }

  lemma StrangerBuffers(s: State, agent: string, end: End, durationMs: int, model: Option<string>, now: int)
    requires agent !in s.byAgent
    ensures OnComplete(s, agent, end, durationMs, model, now).rows == s.rows + Owed(s, agent, end, durationMs, model, now)
  {
    var key := WF + agent;
    var s1 := s.(clock := now, workflows := Unexpired(s.workflows, now), byAgent := s.byAgent[agent := key]);
    var runs := RunsBefore(s1.workflows, now - durationMs);
    var run := if |runs| == 1 then Some(runs[0].toolUseId) else None;
    var r := RouteEntry(WorkflowRow(agent, model, run, now), "unknown", "", now, false);
    FinishBuffers(AddRoute(s1, key, r), key, Dispatch(Some(agent), model, true, false), end);
  }

  // ---------------------------------------------------------------- the outcome of a spawn's one row

  /** A spawn waits for the agent it is bound to, or its row is settled. */
  datatype Status = Waiting(agent: Option<string>) | Settled(outcome: Outcome)

  /** An accepted spawn that takes over the agent id. */
  predicate Rebinds(e: Event, agent: Option<string>) {
    e.Spawned? && e.resolved.Some? && agent.Some? && e.agentId == agent
  }

  function NextStatus(st: Status, e: Event): Status {
    match st
    case Settled(_) => st
    case Waiting(agent) =>
      if e == SessionEnd then Settled(Async)
      else if e.Completed? && agent == Some(e.agent) then Settled(OutcomeOf(e.end))
      else if Rebinds(e, agent) then Waiting(None)
      else st
  }

  /** What the events after spawn `i` make of it; nothing of the ledger is looked at. */
  function StatusOf(es: seq<Event>, i: nat): Status
    requires i < |es| && es[i].Spawned?
    decreases |es|
  {
    if i == |es| - 1 then Waiting(es[i].agentId) else NextStatus(StatusOf(es[..|es| - 1], i), es[|es| - 1])
  }

  /** The rows ever buffered: those taken and those still in the buffer. */
  ghost predicate HasRow(s: State, r: Row) {
    (exists j :: 0 <= j < |s.taken| && s.taken[j].row == r) || r in s.rows
  }

  /** The ledger agrees: a waiting spawn is pending and bound to that agent alone, a settled one has its row with that outcome. */
  ghost predicate Agrees(s: State, k: string, st: Status) {
    match st
    case Waiting(agent) =>
      && k in s.routes && !s.routes[k].done && s.routes[k].row.outcome == Async
      && (agent.Some? ==> agent.value in s.byAgent && s.byAgent[agent.value] == k)
      && (forall a :: a in s.byAgent && s.byAgent[a] == k ==> agent == Some(a))
    case Settled(outcome) =>
      k in Keys(s) && forall r :: HasRow(s, r) && RowKey(r) == k ==> r.outcome == outcome
  }

  /** What every step may rely on about the key it follows. */
  ghost predicate Sound(s: State, k: string) {
    OneRowEach(s) && Ordered(s) && PendingRuns(s) && BoundIssued(s) && PendingAsync(s) && k in s.issued && !(WF <= k)
  }

  lemma NoRowWhilePending(s: State, k: string, r: Row)
    requires OneRowEach(s) && k in s.routes && !s.routes[k].done && HasRow(s, r)
    ensures RowKey(r) != k
  {
    KeyOfRow(s, r);
  }

  lemma KeyOfRow(s: State, r: Row)
    requires HasRow(s, r)
    ensures RowKey(r) in Keys(s)
  {
    if r in s.rows {
      var j :| 0 <= j < |s.rows| && s.rows[j] == r;
      assert Keys(s)[|s.taken| + j] == RowKey(r);
    } else {
      var j :| 0 <= j < |s.taken| && s.taken[j].row == r;
      assert Keys(s)[j] == RowKey(r);
    }
  }

  /** Every row of a step's result is an earlier row, at most marked, or newly buffered. */
  lemma RowOrigin(s: State, e: Event, r: Row)
    requires PendingAsync(s) && HasRow(Next(s, e), r)
    ensures (exists r0 :: HasRow(s, r0) && SameButMark(r0, r)) || (e != Take && r in Next(s, e).rows[|s.rows|..])
  {
    var s' := Next(s, e);
    if e == Take {
      TakeKeepsRows(s, r);
      assert SameButMark(r, r);
    } else {
      RowsStep(s, e);
      assert s'.taken == s.taken;
      if r in s'.rows {
        var j :| 0 <= j < |s'.rows| && s'.rows[j] == r;
        if j < |s.rows| {
          assert s.rows[j] in s.rows && HasRow(s, s.rows[j]) && SameButMark(s.rows[j], r);
        } else {
          assert s'.rows[|s.rows|..][j - |s.rows|] == r;
        }
      } else {
        assert HasRow(s, r) && SameButMark(r, r);
      }
    }
  }

  lemma TakeKeepsRows(s: State, r: Row)
    requires HasRow(TakeRows(s), r)
    ensures HasRow(s, r)
  {
    var t := TakeRows(s).taken;
    var j :| 0 <= j < |t| && t[j].row == r;
    if j >= |s.taken| {
      assert t[j].row == s.rows[j - |s.taken|];
    } else {
      assert s.taken[j].row == r;
    }
  }

  lemma MarkKeepsKey(r: Row, r': Row)
    requires SameButMark(r, r')
    ensures RowKey(r') == RowKey(r) && r'.outcome == r.outcome
  {
  }

  /** A key that has its row gets no other one. */
  lemma NewRowHasNewKey(s: State, s': State, k: string, r: Row)
    requires OneRowEach(s') && Keys(s) <= Keys(s') && k in Keys(s)
    requires |s'.taken| == |s.taken| && |s.rows| <= |s'.rows| && r in s'.rows[|s.rows|..]
    ensures RowKey(r) != k
  {
    var j: nat :| j < |s'.rows[|s.rows|..]| && s'.rows[|s.rows|..][j] == r;
    var n := |s.taken| + |s.rows| + j;
    assert Keys(s')[n] == RowKey(s'.rows[|s.rows| + j]) == RowKey(r);
    var i: nat :| i < |Keys(s)| && Keys(s)[i] == k;
    assert Keys(s')[i] == k && i < n;
  }

  lemma SettledStays(s: State, k: string, outcome: Outcome, e: Event)
    requires Sound(s, k) && Fresh(s, e) && Agrees(s, k, Settled(outcome))
    ensures Agrees(Next(s, e), k, Settled(outcome))
  {
    var s' := Next(s, e);
    OneRowNext(s, e);
    assert k in Keys(s');
    forall r | HasRow(s', r) && RowKey(r) == k ensures r.outcome == outcome {
      SettledRow(s, k, outcome, e, r);
    }
  }

  lemma SettledRow(s: State, k: string, outcome: Outcome, e: Event, r: Row)
    requires PendingAsync(s) && OneRowEach(Next(s, e)) && Keys(s) <= Keys(Next(s, e)) && Agrees(s, k, Settled(outcome))
    requires HasRow(Next(s, e), r) && RowKey(r) == k
    ensures r.outcome == outcome
  {
    RowOrigin(s, e, r);
    if r0 :| HasRow(s, r0) && SameButMark(r0, r) {
      MarkKeepsKey(r0, r);
    } else {
      RowsStep(s, e);
      TakenUnchanged(s, e);
      NewRowHasNewKey(s, Next(s, e), k, r);
    }
  }

  lemma TakenUnchanged(s: State, e: Event)
    requires e != Take
    ensures Next(s, e).taken == s.taken
  {
  }

  /** The step that buffers the row of a pending key settles it, with the outcome of what it buffers. */
  lemma SettlesNow(s: State, k: string, outcome: Outcome, e: Event)
    requires Sound(s, k) && k in s.routes && !s.routes[k].done && e != Take && k in Keys(Next(s, e))
    requires |s.rows| <= |Next(s, e).rows|
    requires forall r :: r in Next(s, e).rows[|s.rows|..] && RowKey(r) == k ==> r.outcome == outcome
    ensures Agrees(Next(s, e), k, Settled(outcome))
  {
    var s' := Next(s, e);
    forall r | HasRow(s', r) && RowKey(r) == k ensures r.outcome == outcome {
      RowOrigin(s, e, r);
      if r0 :| HasRow(s, r0) && SameButMark(r0, r) {
        MarkKeepsKey(r0, r);
        NoRowWhilePending(s, k, r0);
      }
    }
  }

  lemma EndSettles(s: State, k: string)
    requires Sound(s, k) && k in s.routes && !s.routes[k].done
    ensures Agrees(AtEnd(s), k, Settled(Async))
  {
    EndOnce(s);
    EndRows(s);
    assert k in PendingKeys(s.routeOrder, s.routes);
    var s' := AtEnd(s);
    forall r | r in s'.rows[|s.rows|..] ensures r.outcome == Async {
      var j :| 0 <= j < |s'.rows[|s.rows|..]| && s'.rows[|s.rows|..][j] == r;
      assert s'.rows[|s.rows| + j] == r;
    }
    SettlesNow(s, k, Async, SessionEnd);
  }

  lemma OwnCompletionSettles(s: State, k: string, e: Event)
    requires Sound(s, k) && e.Completed? && Fresh(s, e) && Agrees(s, k, Waiting(Some(e.agent)))
    ensures Agrees(Next(s, e), k, Settled(OutcomeOf(e.end)))
  {
    KnownBuffers(s, e.agent, e.end, e.durationMs, e.model, e.now);
    OneRowNext(s, e);
    var s' := Next(s, e);
    assert s'.rows[|s.rows|..] == [FinishRow(s.routes[k].row, e.end)];
    SettlesNow(s, k, OutcomeOf(e.end), e);
  }

  lemma OtherCompletionLeaves(s: State, k: string, agent: Option<string>, e: Event)
    requires Sound(s, k) && e.Completed? && Agrees(s, k, Waiting(agent)) && agent != Some(e.agent)
    ensures Agrees(Next(s, e), k, Waiting(agent))
  {
    if e.agent in s.byAgent {
      OtherKnownLeaves(s, k, agent, e);
    } else {
      assert WF + e.agent != k;
      StrangerLeaves(s, k, agent, e);
    }
  }

  lemma OtherKnownLeaves(s: State, k: string, agent: Option<string>, e: Event)
    requires e.Completed? && e.agent in s.byAgent && Agrees(s, k, Waiting(agent)) && agent != Some(e.agent)
    ensures Agrees(Next(s, e), k, Waiting(agent))
  {
    assert s.byAgent[e.agent] != k;
  }

  lemma StrangerLeaves(s: State, k: string, agent: Option<string>, e: Event)
    requires e.Completed? && WF + e.agent != k && e.agent !in s.byAgent && Agrees(s, k, Waiting(agent))
    ensures Agrees(Next(s, e), k, Waiting(agent))
  {
    var s1 := s.(clock := e.now, workflows := Unexpired(s.workflows, e.now));
    var runs := RunsBefore(s1.workflows, e.now - e.durationMs);
    WorkflowAgentLeaves(s1, e.agent, if |runs| == 1 then Some(runs[0].toolUseId) else None, e.end, e.model, e.now, k, agent);
    StrangerStep(s, e);
  }

  lemma WorkflowAgentLeaves(s: State, a: string, run: Option<string>, end: End, model: Option<string>, now: int, k: string, agent: Option<string>)
    requires a !in s.byAgent && WF + a != k && Agrees(s, k, Waiting(agent))
    ensures Agrees(FinishWorkflowAgent(s, a, run, end, model, now), k, Waiting(agent))
  {
  }

  lemma AcceptLeaves(s: State, k: string, x: Event)
    requires x.Spawned? && x.resolved.Some? && x.toolUseId != k && k in s.routes && !s.routes[k].done
    ensures var s' := AcceptSpawn(s, x.toolUseId, x.agentId, x.desc, x.requested, x.resolved.value, x.now);
      && k in s'.routes && !s'.routes[k].done && s'.routes[k].row.outcome == s.routes[k].row.outcome
      && s'.byAgent == if x.agentId.Some? then s.byAgent[x.agentId.value := x.toolUseId] else s.byAgent
  {
  }

  lemma SpawnLeaves(s: State, k: string, agent: Option<string>, e: Event)
    requires Sound(s, k) && e.Spawned? && Fresh(s, e) && Agrees(s, k, Waiting(agent))
    ensures Agrees(Next(s, e), k, NextStatus(Waiting(agent), e))
  {
    var d := Dispatch(if e.resolved.Some? then e.agentId else None, e.resolved, e.resolved.Some?, false);
    if e.resolved.Some? {
      AcceptLeaves(SetDispatch(s.(clock := e.now), e.toolUseId, d), k, e);
    }
    RouteKept(s, Next(s, e), k, agent, e);
  }

  lemma RouteKept(s: State, s': State, k: string, agent: Option<string>, e: Event)
    requires Agrees(s, k, Waiting(agent)) && e.Spawned? && e.toolUseId != k
    requires k in s'.routes && !s'.routes[k].done && s'.routes[k].row.outcome == Async
    requires s'.byAgent == if e.resolved.Some? && e.agentId.Some? then s.byAgent[e.agentId.value := e.toolUseId] else s.byAgent
    ensures Agrees(s', k, NextStatus(Waiting(agent), e))
  {
  }

  lemma StatusNext(s: State, k: string, st: Status, e: Event)
    requires Sound(s, k) && Fresh(s, e) && Agrees(s, k, st)
    ensures Agrees(Next(s, e), k, NextStatus(st, e))
  {
    if st.Settled? {
      SettledStays(s, k, st.outcome, e);
    } else {
      match e
      case SessionEnd => EndSettles(s, k);
      case Spawned(_, _, _, _, _, _) => SpawnLeaves(s, k, st.agent, e);
      case Completed(a, _, _, _, _) =>
        if st.agent == Some(a) { OwnCompletionSettles(s, k, e); } else { OtherCompletionLeaves(s, k, st.agent, e); }
      case _ =>
    }
  }

  /** Right after it was accepted a spawn waits for its agent. */
  lemma StartsWaiting(s: State, e: Event)
    requires OneRowEach(s) && BoundIssued(s) && e.Spawned? && e.resolved.Some? && Fresh(s, e)
    ensures Agrees(Next(s, e), e.toolUseId, Waiting(e.agentId))
  {
  }

  lemma {:induction false} StatusAgrees(es: seq<Event>, i: nat)
    requires FreshRun(es) && i < |es| && es[i].Spawned? && es[i].resolved.Some?
    ensures Sound(Run(es), es[i].toolUseId) && Agrees(Run(es), es[i].toolUseId, StatusOf(es, i))
    decreases |es|
  {
    var before, e, k := es[..|es| - 1], es[|es| - 1], es[i].toolUseId;
    OneRowRun(es);
    PendingRunsRun(es);
    AsyncRun(es);
    OneRowRun(before);
    PendingRunsRun(before);
    if i == |es| - 1 {
      SpawnOnce(Run(before), e);
      StartsWaiting(Run(before), e);
    } else {
      StatusAgrees(before, i);
      StatusNext(Run(before), k, StatusOf(before, i), e);
      IssuedStays(Run(before), e, k);
    }
  }

  lemma IssuedStays(s: State, e: Event, k: string)
    requires k in s.issued
    ensures k in Next(s, e).issued
  {
  }

  /**
   * Over every run the one row of an accepted spawn is what the events after it make of it: the entry
   * is pending as long as neither its agent completed nor the session ended, and the row carries the
   * outcome of whichever of the two came first.
   */
  lemma RowOutcomeExactly(es: seq<Event>, i: nat)
    requires FreshRun(es) && i < |es| && es[i].Spawned? && es[i].resolved.Some?
    ensures var s, k, st := Run(es), es[i].toolUseId, StatusOf(es, i);
      && (st.Waiting? <==> k !in Keys(s))
      && (st.Settled? ==> CountOf(Keys(s), k) == 1 && forall r :: HasRow(s, r) && RowKey(r) == k ==> r.outcome == st.outcome)
  {
    StatusAgrees(es, i);
    CountNoDup(Keys(Run(es)), es[i].toolUseId);
  }

  predicate Completes(e: Event, agent: Option<string>) {
    e.Completed? && agent == Some(e.agent)
  }

  /** The session end, the agent's completion, and another spawn's taking over its id end a spawn's claim on the agent. */
  predicate Breaks(e: Event, agent: Option<string>) {
    e == SessionEnd || Completes(e, agent) || Rebinds(e, agent)
  }

  ghost predicate Quiet(es: seq<Event>, i: nat)
    requires i < |es| && es[i].Spawned?
  {
    forall x :: i < x < |es| ==> !Breaks(es[x], es[i].agentId)
  }

  /** Event `m` is the agent's completion, and came before anything else that ends the claim. */
  ghost predicate CompletedInTime(es: seq<Event>, i: nat, m: nat)
    requires i < |es| && es[i].Spawned?
  {
    i < m < |es| && Completes(es[m], es[i].agentId) && Quiet(es[..m], i)
  }

  ghost predicate EndedAfter(es: seq<Event>, i: nat) {
    exists x :: i < x < |es| && es[x] == SessionEnd
  }

  /** What a status says about the events themselves. */
  ghost predicate Explains(es: seq<Event>, i: nat, st: Status)
    requires i < |es| && es[i].Spawned?
  {
    match st
    case Waiting(agent) =>
      agent == (if Quiet(es, i) then es[i].agentId else None) && !EndedAfter(es, i) && forall m: nat :: !CompletedInTime(es, i, m)
    case Settled(outcome) =>
      && !Quiet(es, i)
      && (outcome == Async ==> EndedAfter(es, i) && forall m: nat :: !CompletedInTime(es, i, m))
      && (outcome != Async ==> exists m: nat :: CompletedInTime(es, i, m) && outcome == OutcomeOf(es[m].end))
  }

  lemma InTimeSnoc(es: seq<Event>, i: nat, m: nat)
    requires i < |es| - 1 && es[i].Spawned?
    ensures CompletedInTime(es, i, m) <==>
      CompletedInTime(es[..|es| - 1], i, m) || (m == |es| - 1 && Completes(es[m], es[i].agentId) && Quiet(es[..m], i))
    ensures Quiet(es, i) <==> Quiet(es[..|es| - 1], i) && !Breaks(es[|es| - 1], es[i].agentId)
    ensures EndedAfter(es, i) <==> EndedAfter(es[..|es| - 1], i) || es[|es| - 1] == SessionEnd
  {
    var front := es[..|es| - 1];
    assert forall x :: 0 <= x < |front| ==> front[x] == es[x];
    if m < |es| - 1 {
      assert front[..m] == es[..m];
    }
    if EndedAfter(front, i) {
      var x :| i < x < |front| && front[x] == SessionEnd;
      assert es[x] == SessionEnd;
    }
  }

  lemma ExplainsSettled(es: seq<Event>, i: nat, outcome: Outcome)
    requires i < |es| - 1 && es[i].Spawned? && Explains(es[..|es| - 1], i, Settled(outcome))
    ensures Explains(es, i, Settled(outcome))
  {
    forall m: nat ensures CompletedInTime(es, i, m) <==> CompletedInTime(es[..|es| - 1], i, m) {
      InTimeSnoc(es, i, m);
    }
    InTimeSnoc(es, i, 0);
    if outcome != Async {
      var m: nat :| CompletedInTime(es[..|es| - 1], i, m) && outcome == OutcomeOf(es[..|es| - 1][m].end);
      assert CompletedInTime(es, i, m) && es[m] == es[..|es| - 1][m];
    }
  }

  lemma ExplainsWaiting(es: seq<Event>, i: nat, agent: Option<string>)
    requires i < |es| - 1 && es[i].Spawned? && Explains(es[..|es| - 1], i, Waiting(agent))
    ensures Explains(es, i, NextStatus(Waiting(agent), es[|es| - 1]))
  {
    var n := |es| - 1;
    forall m: nat ensures CompletedInTime(es, i, m) <==> m == n && Completes(es[n], es[i].agentId) && Quiet(es[..n], i) {
      InTimeSnoc(es, i, m);
    }
    InTimeSnoc(es, i, n);
    assert es[..n][i] == es[i];
  }

  lemma {:induction false} StatusExplained(es: seq<Event>, i: nat)
    requires i < |es| && es[i].Spawned?
    ensures Explains(es, i, StatusOf(es, i))
    decreases |es|
  {
    if i < |es| - 1 {
      StatusExplained(es[..|es| - 1], i);
      var st := StatusOf(es[..|es| - 1], i);
      if st.Settled? { ExplainsSettled(es, i, st.outcome); } else { ExplainsWaiting(es, i, st.agent); }
    }
  }

  /**
   * Once the session ended, the one row of an accepted spawn is 'async' exactly when its agent did not
   * complete before; else it carries the outcome of that completion.
   */
  lemma AsyncExactly(es: seq<Event>, i: nat, r: Row)
    requires FreshRun(es) && i < |es| && es[i].Spawned? && es[i].resolved.Some? && EndedAfter(es, i)
    requires HasRow(Run(es), r) && RowKey(r) == es[i].toolUseId
    ensures CountOf(Keys(Run(es)), es[i].toolUseId) == 1
    ensures r.outcome == Async <==> forall m: nat :: !CompletedInTime(es, i, m)
    ensures r.outcome != Async ==> exists m: nat :: CompletedInTime(es, i, m) && r.outcome == OutcomeOf(es[m].end)
  {
    RowOutcomeExactly(es, i);
    StatusExplained(es, i);
  }
}
