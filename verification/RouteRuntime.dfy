/**
 * The route ledger in the form plugin/hooks/router.ts gives it: maps and a row buffer that the hooks
 * update in place. `model` is the abstract state; the real fields are its parts, and its history
 * parts (taken rows, accepted spawns, issued keys, session, clock) have no field.
 */
module RouteRuntime {
  import opened Base
  import opened RouteLedger

  class Runtime {
    var routes: map<string, RouteEntry>
    var routeOrder: seq<string>
    var dispatches: map<string, Dispatch>
    var dispatchOrder: seq<string>
    var byAgent: map<string, string>
    var workflows: seq<Launch>
    var routeRows: seq<Row>
    ghost var model: State

    constructor ()
      ensures Valid() && model == Init
    {
      routes, routeOrder, dispatches, dispatchOrder := map[], [], map[], [];
      byAgent, workflows, routeRows := map[], [], [];
      model := Init;
    }

    ghost predicate Coupled()
      reads this
    {
      && model.routes == routes && model.routeOrder == routeOrder
      && model.dispatches == dispatches && model.dispatchOrder == dispatchOrder
      && model.byAgent == byAgent && model.workflows == workflows && model.rows == routeRows
    }

    ghost predicate Valid()
      reads this
    {
      Coupled() && Ordered(model) && OneRowEach(model)
    }

    method PruneRoutes(now: int)
      requires Valid()
      modifies `routes, `routeOrder, `model
      ensures Coupled() && model == RouteLedger.PruneRoutes(old(model), now)
    {
      OrderedNames(model);
      routes, routeOrder := PruneLoop(routes, routeOrder, now, Expired(routes, now));
      model := RouteLedger.PruneRoutes(model, now);
    }

    method MarkEscalations(desc: string, tier: Option<Tier>, toolUseId: string, now: int)
      requires Coupled() && Ordered(model) && DistinctKeys(model.rows)
      requires forall k :: k in routes ==> RowKey(routes[k].row) == k
      modifies `routes, `routeRows, `model
      ensures Coupled() && model == RouteLedger.MarkEscalations(old(model), desc, tier, toolUseId, now)
    {
      routes, routeRows := MarkLoop(routes, routeOrder, routeRows, desc, tier, toolUseId, now);
      model := RouteLedger.MarkEscalations(model, desc, tier, toolUseId, now);
    }

    method SetDispatch(key: string, d: Dispatch)
      requires Coupled()
      modifies `dispatches, `dispatchOrder, `model
      ensures Coupled() && model == RouteLedger.SetDispatch(old(model), key, d)
    {
      dispatchOrder := Inserted(dispatchOrder, dispatches, key);
      dispatches := dispatches[key := d];
      model := RouteLedger.SetDispatch(model, key, d);
    }

    method AddRoute(key: string, e: RouteEntry)
      requires Coupled()
      modifies `routes, `routeOrder, `model
      ensures Coupled() && model == RouteLedger.AddRoute(old(model), key, e)
    {
      routeOrder := Inserted(routeOrder, routes, key);
      routes := routes[key := e];
      model := RouteLedger.AddRoute(model, key, e);
    }

    method TrimDispatches()
      requires Coupled() && forall j :: 0 <= j < |dispatchOrder| ==> dispatchOrder[j] in dispatches
      modifies `dispatches, `dispatchOrder, `model
      ensures Coupled() && model == RouteLedger.TrimDispatches(old(model))
    {
      dispatches, dispatchOrder := TrimLoop(dispatches, dispatchOrder);
      model := model.(dispatches := dispatches, dispatchOrder := dispatchOrder);
    }

    /** afterSpawn for a spawn the engine accepted: pruning, escalation marks, the new entry, the agent's binding. */
    method AcceptSpawn(toolUseId: string, agentId: Option<string>, desc: string, requested: string, resolved: string, now: int)
      requires Valid()
      modifies this
      ensures Coupled() && model == RouteLedger.AcceptSpawn(old(model), toolUseId, agentId, desc, requested, resolved, now)
    {
      var tier := EscalationTierOf(requested, resolved);
      PruneAndMark(desc, tier, toolUseId, now);
      AddRoute(toolUseId, RouteEntry(SpawnRow(toolUseId, agentId, requested, resolved, now), requested, desc, now, false));
      NoteAccepted(agentId, Accepted(toolUseId, desc, requested, tier, now, model.session), toolUseId);
    }

    /** Binds the agent to its dispatch; the history line is ghost. */
    method NoteAccepted(agentId: Option<string>, ghost x: Accepted, toolUseId: string)
      requires Coupled() && x.key == toolUseId
      modifies `byAgent, `model
      ensures Coupled()
      ensures model == old(model).(byAgent := if agentId.Some? then old(model).byAgent[agentId.value := toolUseId] else old(model).byAgent,
                                   spawns := old(model).spawns + [x])
    {
      if agentId.Some? { byAgent := byAgent[agentId.value := toolUseId]; }
      model := model.(byAgent := byAgent, spawns := model.spawns + [x]);
    }

    method PruneAndMark(desc: string, tier: Option<Tier>, toolUseId: string, now: int)
      requires Valid()
      modifies `routes, `routeOrder, `routeRows, `model
      ensures Coupled()
      ensures model == RouteLedger.MarkEscalations(RouteLedger.PruneRoutes(old(model), now), desc, tier, toolUseId, now)
    {
      PruneMarkOnce(model, desc, tier, toolUseId, now);
      OrderedPrune(model, now);
      PruneRoutes(now);
      RowKeysDiffer(model);
      MarkEscalations(desc, tier, toolUseId, now);
    }

    method AfterSpawn(toolUseId: string, agentId: Option<string>, desc: string, requested: string, resolved: Option<string>, now: int)
      requires Valid() && Fresh(model, Spawned(toolUseId, agentId, desc, requested, resolved, now))
      modifies this
      ensures Valid() && model == Next(old(model), Spawned(toolUseId, agentId, desc, requested, resolved, now))
    {
      ghost var e := Spawned(toolUseId, agentId, desc, requested, resolved, now);
      SpawnOnce(model, e);
      OrderedNext(model, e);
      var agent := if resolved.Some? then agentId else None;
      var d := Dispatch(agent, resolved, resolved.Some?, false);
      model := model.(clock := now);
      SetDispatch(toolUseId, d);
      SetOnce(old(model).(clock := now), toolUseId, d);
      if resolved.Some? {
        OrderedRoutes(model, toolUseId, agent, desc, requested, resolved.value, now);
        AcceptSpawn(toolUseId, agent, desc, requested, resolved.value, now);
      }
      OrderedCovers(model);
      TrimDispatches();
    }

    method WorkflowStarted(run: string, now: int)
      requires Valid()
      modifies `workflows, `model
      ensures Valid() && model == Next(old(model), RouteLedger.WorkflowStarted(run, now))
    {
      workflows := SetLaunch(workflows, run, now);
      model := model.(workflows := workflows, clock := now);
      SameAccounts(old(model), model);
    }

    /** `queue`: the entry is done and its row joins the buffer. */
    method QueueEntry(key: string)
      requires Coupled() && key in routes
      modifies `routes, `routeRows, `model
      ensures Coupled() && key in old(model).routes && model == RouteLedger.QueueEntry(old(model), key)
    {
      var e := routes[key].(done := true);
      routes := routes[key := e];
      routeRows := routeRows + [e.row];
      model := RouteLedger.QueueEntry(model, key);
    }

    method FinishRun(key: string, d: Dispatch, end: End)
      requires Coupled()
      modifies `dispatches, `dispatchOrder, `routes, `routeRows, `model
      ensures Coupled() && model == RouteLedger.FinishRun(old(model), key, d, end)
    {
      SetDispatch(key, d.(running := false, ok := OutcomeOf(end) == Answered));
      if key in routes && !routes[key].done {
        routes := routes[key := routes[key].(row := FinishRow(routes[key].row, end))];
        model := model.(routes := routes);
        QueueEntry(key);
      }
    }

    /** turn.complete of a subagent. */
    method OnComplete(agent: string, end: End, durationMs: int, usageModel: Option<string>, now: int)
      requires Valid()
      modifies this
      ensures Valid() && model == Next(old(model), Completed(agent, end, durationMs, usageModel, now))
    {
      CompleteOnce(model, Completed(agent, end, durationMs, usageModel, now));
      OrderedNext(model, Completed(agent, end, durationMs, usageModel, now));
      model := model.(clock := now);
      if agent in byAgent {
        var key := byAgent[agent];
        if key !in dispatches || !dispatches[key].running { return; }
        FinishRun(key, dispatches[key], end);
      } else {
        CompleteStranger(agent, end, durationMs, usageModel, now);
      }
    }

    method BindStranger(agent: string, key: string)
      requires Coupled()
      modifies `byAgent, `model
      ensures Coupled() && model == old(model).(byAgent := old(model).byAgent[agent := key])
    {
      byAgent := byAgent[agent := key];
      model := model.(byAgent := byAgent);
    }

    /** An agent nobody spawned: of a workflow while a run is active, else ignored. */
    method CompleteStranger(agent: string, end: End, durationMs: int, usageModel: Option<string>, now: int)
      requires Coupled() && agent !in byAgent && model.clock == now
      modifies this
      ensures Coupled() && model == RouteLedger.OnComplete(old(model), agent, end, durationMs, usageModel, now)
    {
      var live, runs := WorkflowsBefore(workflows, now - durationMs, now);
      workflows := live;
      model := model.(workflows := live);
      if runs == [] { return; }
      var key := WF + agent;
      BindStranger(agent, key);
      var run := if |runs| == 1 then Some(runs[0].toolUseId) else None;
      AddRoute(key, RouteEntry(WorkflowRow(agent, usageModel, run, now), "unknown", "", now, false));
      FinishRun(key, Dispatch(Some(agent), usageModel, true, false), end);
    }

    /** The session ends: the row of each unfinished agent is buffered as it stands. */
    method AtEnd()
      requires Valid()
      modifies `routes, `routeOrder, `routeRows, `workflows, `model
      ensures Valid() && model == Next(old(model), SessionEnd)
    {
      EndOnce(model);
      routeRows := EndLoop(routes, routeOrder, routeRows);
      routes, routeOrder, workflows := map[], [], [];
      model := RouteLedger.AtEnd(model);
    }

    /** A flush takes all buffered rows. */
    method TakeRows() returns (batch: seq<Row>)
      requires Valid()
      modifies `routeRows, `model
      ensures Valid() && batch == old(model).rows && model == Next(old(model), Take)
    {
      TakeOnce(model);
      batch := routeRows;
      routeRows := [];
      model := RouteLedger.TakeRows(model);
    }
  }

  ghost predicate DistinctKeys(rows: seq<Row>) {
    forall i, j :: 0 <= i < j < |rows| ==> RowKey(rows[i]) != RowKey(rows[j])
  }

  lemma RowKeysDiffer(s: State)
    requires OneRowEach(s)
    ensures DistinctKeys(s.rows)
  {
    forall i, j | 0 <= i < j < |s.rows| ensures RowKey(s.rows[i]) != RowKey(s.rows[j]) {
      assert Keys(s)[|s.taken| + i] == RowKey(s.rows[i]);
      assert Keys(s)[|s.taken| + j] == RowKey(s.rows[j]);
    }
  }

  /** Walks the entries in order and deletes each finished one that is too old to be escalated. */
  method PruneLoop(routes: map<string, RouteEntry>, order: seq<string>, now: int, ghost gone: set<string>)
    returns (left: map<string, RouteEntry>, kept: seq<string>)
    requires forall j :: 0 <= j < |order| ==> order[j] in routes
    requires gone == Expired(routes, now) && forall k :: k in routes ==> k in order
    ensures left == routes - gone && kept == Minus(order, gone)
  {
    ghost var dropped: set<string> := {};
    kept, left := [], routes;
    var i := 0;
    while i < |order|
      invariant i <= |order| && left == routes - dropped && dropped <= gone
      invariant forall j :: 0 <= j < i && order[j] in gone ==> order[j] in dropped
      invariant kept == Minus(order[..i], gone)
    {
      var k := order[i];
      MinusPrefix(order, i, gone);
      if routes[k].done && now - routes[k].at > ESCALATION_WINDOW_MS {
        assert left - {k} == routes - (dropped + {k});
        left, dropped := left - {k}, dropped + {k};
      } else {
        kept := kept + [k];
      }
      i := i + 1;
    }
    assert order[..i] == order;
    AllDropped(order, gone, dropped);
  }

  lemma AllDropped(order: seq<string>, gone: set<string>, dropped: set<string>)
    requires dropped <= gone && (forall k :: k in gone ==> k in order)
    requires forall j :: 0 <= j < |order| && order[j] in gone ==> order[j] in dropped
    ensures dropped == gone
  {
  }

  lemma MinusPrefix(order: seq<string>, i: nat, gone: set<string>)
    requires i < |order|
    ensures Minus(order[..i + 1], gone) == Minus(order[..i], gone) + if order[i] in gone then [] else [order[i]]
  {
    MinusSnoc(order[..i], order[i], gone);
    assert order[..i + 1] == order[..i] + [order[i]];
  }

  lemma {:induction false} MinusSnoc(order: seq<string>, k: string, gone: set<string>)
    ensures Minus(order + [k], gone) == Minus(order, gone) + if k in gone then [] else [k]
  {
    if order != [] {
      MinusSnoc(order[1..], k, gone);
      assert (order + [k])[1..] == order[1..] + [k];
    }
  }

  /** `rows.indexOf(row)`, |rows| when it is not there. */
  method IndexOf(rows: seq<Row>, row: Row) returns (j: nat)
    ensures j <= |rows| && (j < |rows| ==> rows[j] == row)
    ensures forall i :: 0 <= i < j ==> rows[i] != row
  {
    j := 0;
    while j < |rows| && rows[j] != row
      invariant j <= |rows| && forall i :: 0 <= i < j ==> rows[i] != row
    {
      j := j + 1;
    }
  }

  /** What the loop of markEscalations has made of the entries named in `seen`. */
  ghost predicate EntriesSoFar(routes: map<string, RouteEntry>, routes': map<string, RouteEntry>, seen: set<string>,
                               desc: string, tier: Option<Tier>, id: string, now: int) {
    && routes'.Keys == routes.Keys
    && forall k :: k in routes ==> routes'[k] == if k in seen then MarkEntry(routes[k], desc, tier, id, now) else routes[k]
  }

  ghost predicate RowsSoFar(routes: map<string, RouteEntry>, rows: seq<Row>, rows': seq<Row>, seen: set<string>,
                            desc: string, tier: Option<Tier>, id: string, now: int) {
    && |rows'| == |rows|
    && forall j :: 0 <= j < |rows| ==>
         rows'[j] == if RowKey(rows[j]) in seen then MarkRow(rows[j], routes, desc, tier, id, now) else rows[j]
  }

  method MarkLoop(routes: map<string, RouteEntry>, order: seq<string>, rows: seq<Row>,
                  desc: string, tier: Option<Tier>, id: string, now: int)
    returns (routes': map<string, RouteEntry>, rows': seq<Row>)
    requires NoDup(order) && (forall k :: k in order <==> k in routes) && DistinctKeys(rows)
    requires forall k :: k in routes ==> RowKey(routes[k].row) == k
    ensures routes' == map k | k in routes :: MarkEntry(routes[k], desc, tier, id, now)
    ensures rows' == seq(|rows|, i requires 0 <= i < |rows| => MarkRow(rows[i], routes, desc, tier, id, now))
  {
    routes', rows' := routes, rows;
    var i := 0;
    ghost var seen: set<string> := {};
    while i < |order|
      invariant i <= |order| && seen == set k | k in order[..i]
      invariant EntriesSoFar(routes, routes', seen, desc, tier, id, now)
      invariant RowsSoFar(routes, rows, rows', seen, desc, tier, id, now)
    {
      var k := order[i];
      assert k in order && k !in order[..i];
      assert order[..i + 1] == order[..i] + [k];
      var a := routes'[k];
      if Escalates(a, desc, tier, now) {
        EntryMarked(routes, routes', seen, desc, tier, id, now, k);
        routes' := routes'[k := a.(row := Mark(a.row, id))];
        if a.done {
          var j := IndexOf(rows', a.row);
          MarkAt(routes, rows, rows', seen, desc, tier, id, now, k, j);
          if j < |rows'| { rows' := rows'[j := Mark(a.row, id)]; }
        } else {
          UnfinishedRows(routes, rows, rows', seen, desc, tier, id, now, k);
        }
      } else {
        NothingToMark(routes, routes', rows, rows', seen, desc, tier, id, now, k);
      }
      seen := seen + {k};
      i := i + 1;
    }
    assert order[..i] == order;
    AllMarked(routes, routes', rows, rows', seen, desc, tier, id, now);
  }

  lemma AllMarked(routes: map<string, RouteEntry>, routes': map<string, RouteEntry>, rows: seq<Row>, rows': seq<Row>,
                  seen: set<string>, desc: string, tier: Option<Tier>, id: string, now: int)
    requires EntriesSoFar(routes, routes', seen, desc, tier, id, now) && RowsSoFar(routes, rows, rows', seen, desc, tier, id, now)
    requires seen == routes.Keys
    ensures routes' == map k | k in routes :: MarkEntry(routes[k], desc, tier, id, now)
    ensures rows' == seq(|rows|, i requires 0 <= i < |rows| => MarkRow(rows[i], routes, desc, tier, id, now))
  {
  }

  /** An entry that the test passes over changes neither itself nor a row. */
  lemma NothingToMark(routes: map<string, RouteEntry>, routes': map<string, RouteEntry>, rows: seq<Row>, rows': seq<Row>,
                      seen: set<string>, desc: string, tier: Option<Tier>, id: string, now: int, k: string)
    requires EntriesSoFar(routes, routes', seen, desc, tier, id, now) && RowsSoFar(routes, rows, rows', seen, desc, tier, id, now)
    requires k in routes && !Escalates(routes[k], desc, tier, now)
    ensures EntriesSoFar(routes, routes', seen + {k}, desc, tier, id, now)
    ensures RowsSoFar(routes, rows, rows', seen + {k}, desc, tier, id, now)
  {
  }

  lemma EntryMarked(routes: map<string, RouteEntry>, routes': map<string, RouteEntry>, seen: set<string>,
                    desc: string, tier: Option<Tier>, id: string, now: int, k: string)
    requires EntriesSoFar(routes, routes', seen, desc, tier, id, now) && k in routes && k !in seen
    requires Escalates(routes[k], desc, tier, now)
    ensures EntriesSoFar(routes, routes'[k := routes[k].(row := Mark(routes[k].row, id))], seen + {k}, desc, tier, id, now)
  {
  }

  /** A row of an unfinished entry is not marked with it. */
  lemma UnfinishedRows(routes: map<string, RouteEntry>, rows: seq<Row>, rows': seq<Row>, seen: set<string>,
                       desc: string, tier: Option<Tier>, id: string, now: int, k: string)
    requires RowsSoFar(routes, rows, rows', seen, desc, tier, id, now) && k in routes && !routes[k].done
    ensures RowsSoFar(routes, rows, rows', seen + {k}, desc, tier, id, now)
  {
  }

  /** Marking the one buffered row equal to a finished entry's row marks exactly the rows of its key. */
  lemma MarkAt(routes: map<string, RouteEntry>, rows: seq<Row>, rows': seq<Row>, seen: set<string>,
               desc: string, tier: Option<Tier>, id: string, now: int, k: string, j: nat)
    requires DistinctKeys(rows) && k in routes && RowKey(routes[k].row) == k && k !in seen
    requires routes[k].done && Escalates(routes[k], desc, tier, now)
    requires RowsSoFar(routes, rows, rows', seen, desc, tier, id, now)
    requires j <= |rows'| && (j < |rows'| ==> rows'[j] == routes[k].row) && forall i :: 0 <= i < j ==> rows'[i] != routes[k].row
    ensures RowsSoFar(routes, rows, if j < |rows'| then rows'[j := Mark(routes[k].row, id)] else rows',
                      seen + {k}, desc, tier, id, now)
  {
    forall i | 0 <= i < |rows|
      ensures RowKey(rows[i]) == k ==> (rows[i] == routes[k].row <==> i == j)
    {
      if j < |rows'| {
        assert RowKey(rows'[j]) == k;
        assert RowKey(rows[j]) == k;
      }
    }
  }

  lemma OrderedNames(s: State)
    requires Ordered(s)
    ensures forall j :: 0 <= j < |s.routeOrder| ==> s.routeOrder[j] in s.routes
    ensures forall k :: k in s.routes ==> k in s.routeOrder
  {
    assert forall j :: 0 <= j < |s.routeOrder| ==> s.routeOrder[j] in s.routeOrder;
  }

  lemma OrderedCovers(s: State)
    requires Ordered(s)
    ensures forall j :: 0 <= j < |s.dispatchOrder| ==> s.dispatchOrder[j] in s.dispatches
  {
    assert forall j :: 0 <= j < |s.dispatchOrder| ==> s.dispatchOrder[j] in s.dispatchOrder;
  }

  lemma OrderedPrune(s: State, now: int)
    requires Ordered(s)
    ensures Ordered(RouteLedger.PruneRoutes(s, now))
  {
    MinusNoDup(s.routeOrder, Expired(s.routes, now));
  }

  lemma SetOnce(s: State, key: string, d: Dispatch)
    requires OneRowEach(s.(clock := 0)) && Ordered(s)
    ensures OneRowEach(RouteLedger.SetDispatch(s, key, d)) && Ordered(RouteLedger.SetDispatch(s, key, d))
  {
    assert Keys(RouteLedger.SetDispatch(s, key, d)) == Keys(s.(clock := 0));
  }

  lemma TrimStep(dispatches: map<string, Dispatch>, order: seq<string>, i: nat, excess: int, kept: seq<string>)
    requires i < |order| && 0 < excess && forall j :: 0 <= j < |order| ==> order[j] in dispatches
    ensures kept + TrimOrder(order[i..], dispatches, excess)
         == if dispatches[order[i]].running then kept + [order[i]] + TrimOrder(order[i + 1..], dispatches, excess)
            else kept + TrimOrder(order[i + 1..], dispatches, excess - 1)
  {
    assert order[i..][1..] == order[i + 1..] && order[i..][0] == order[i];
    var rest := TrimOrder(order[i + 1..], dispatches, excess);
    assert kept + ([order[i]] + rest) == kept + [order[i]] + rest;
  }

  /** The loop of trimDispatches: from the oldest on, finished dispatches go until the excess is gone. */
  method TrimLoop(dispatches: map<string, Dispatch>, order: seq<string>)
    returns (left: map<string, Dispatch>, kept: seq<string>)
    requires forall j :: 0 <= j < |order| ==> order[j] in dispatches
    ensures kept == TrimOrder(order, dispatches, |order| - DISPATCH_KEEP_MAX)
    ensures left == Kept(dispatches, kept)
  {
    var excess: int := |order| - DISPATCH_KEEP_MAX;
    kept := [];
    var i := 0;
    while i < |order| && excess > 0
      invariant i <= |order|
      invariant kept + TrimOrder(order[i..], dispatches, excess) == TrimOrder(order, dispatches, |order| - DISPATCH_KEEP_MAX)
    {
      var k := order[i];
      TrimStep(dispatches, order, i, excess, kept);
      if dispatches[k].running {
        kept := kept + [k];
      } else {
        excess := excess - 1;
      }
      i := i + 1;
    }
    kept := kept + order[i..];
    left := Kept(dispatches, kept);
  }

  /** workflowsBefore: expired launches are forgotten; of the rest, those early enough. */
  method WorkflowsBefore(workflows: seq<Launch>, agentStart: int, now: int) returns (live: seq<Launch>, runs: seq<Launch>)
    ensures live == Unexpired(workflows, now) && runs == RunsBefore(live, agentStart)
  {
    live := ExpireLoop(workflows, now);
    runs := EarlyLoop(live, agentStart);
  }

  method ExpireLoop(workflows: seq<Launch>, now: int) returns (live: seq<Launch>)
    ensures live == Unexpired(workflows, now)
  {
    live := [];
    var i := 0;
    while i < |workflows|
      invariant i <= |workflows|
      invariant live + Unexpired(workflows[i..], now) == Unexpired(workflows, now)
    {
      assert workflows[i..][1..] == workflows[i + 1..];
      ghost var rest := Unexpired(workflows[i + 1..], now);
      if now - workflows[i].at <= WORKFLOW_EXPIRY_MS {
        Assoc(live, [workflows[i]], rest);
        live := live + [workflows[i]];
      }
      i := i + 1;
    }
  }

  method EarlyLoop(live: seq<Launch>, agentStart: int) returns (runs: seq<Launch>)
    ensures runs == RunsBefore(live, agentStart)
  {
    runs := [];
    var i := 0;
    while i < |live|
      invariant i <= |live|
      invariant runs + RunsBefore(live[i..], agentStart) == RunsBefore(live, agentStart)
    {
      assert live[i..][1..] == live[i + 1..];
      ghost var rest := RunsBefore(live[i + 1..], agentStart);
      if live[i].at <= agentStart + WORKFLOW_SLACK_MS {
        Assoc(runs, [live[i]], rest);
        runs := runs + [live[i]];
      }
      i := i + 1;
    }
  }

  /** Walks the entries in order and buffers the row of each pending one. */
  method EndLoop(routes: map<string, RouteEntry>, order: seq<string>, rows: seq<Row>) returns (rows': seq<Row>)
    ensures rows' == rows + PendingRows(order, routes)
  {
    rows' := rows;
    var i := 0;
    while i < |order|
      invariant i <= |order|
      invariant rows' + PendingRows(order[i..], routes) == rows + PendingRows(order, routes)
    {
      assert order[i..][1..] == order[i + 1..];
      ghost var rest := PendingRows(order[i + 1..], routes);
      if order[i] in routes && !routes[order[i]].done {
        Assoc(rows', [routes[order[i]].row], rest);
        rows' := rows' + [routes[order[i]].row];
      }
      i := i + 1;
    }
  }

  // ---------------------------------------------------------------- what trimming keeps

  function Running(order: seq<string>, d: map<string, Dispatch>): seq<string> {
    if order == [] then []
    else (if order[0] in d && d[order[0]].running then [order[0]] else []) + Running(order[1..], d)
  }

  /** Trimming keeps every running dispatch in order, drops no more than the excess, and drops it unless only running ones are left. */
  lemma {:induction false} TrimKeepsRunning(order: seq<string>, d: map<string, Dispatch>, excess: int)
    ensures var kept := TrimOrder(order, d, excess);
      && Running(kept, d) == Running(order, d)
      && |order| - |kept| <= (if excess > 0 then excess else 0)
      && (|order| - |kept| < excess ==> kept == Running(order, d))
  {
    if order != [] && excess > 0 {
      if order[0] in d && d[order[0]].running {
        TrimKeepsRunning(order[1..], d, excess);
        assert TrimOrder(order, d, excess)[1..] == TrimOrder(order[1..], d, excess);
      } else {
        TrimKeepsRunning(order[1..], d, excess - 1);
      }
    }
  }

  /** And what goes is older than every finished dispatch that stays: what stays is the running ones of a prefix, then a suffix. */
  lemma {:induction false} TrimDropsOldest(order: seq<string>, d: map<string, Dispatch>, excess: int)
    ensures exists cut: nat :: CutAt(order, d, excess, cut)
  {
    if excess <= 0 || order == [] {
      assert Running(order[..0], d) == [] && [] + order[0..] == order;
      assert CutAt(order, d, excess, 0);
    } else {
      var n := if order[0] in d && d[order[0]].running then excess else excess - 1;
      TrimDropsOldest(order[1..], d, n);
      var cut: nat :| CutAt(order[1..], d, n, cut);
      CutOneMore(order, d, excess, n, cut);
    }
  }

  /** Trimming leaves the running ones of the first `cut` dispatches and all later ones. */
  ghost predicate CutAt(order: seq<string>, d: map<string, Dispatch>, excess: int, cut: nat) {
    cut <= |order| && TrimOrder(order, d, excess) == Running(order[..cut], d) + order[cut..]
  }

  lemma CutOneMore(order: seq<string>, d: map<string, Dispatch>, excess: int, n: int, cut: nat)
    requires order != [] && excess > 0 && CutAt(order[1..], d, n, cut)
    requires n == if order[0] in d && d[order[0]].running then excess else excess - 1
    ensures CutAt(order, d, excess, cut + 1)
  {
    var head, rest := order[..cut + 1], order[cut + 1..];
    assert head[0] == order[0] && head[1..] == order[1..][..cut] && order[1..][cut..] == rest;
    var tail := Running(head[1..], d);
    assert ([order[0]] + tail) + rest == [order[0]] + (tail + rest) && [] + tail == tail;
  }
}
