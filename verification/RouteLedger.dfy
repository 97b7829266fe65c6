/**
 * The route-row ledger of plugin/hooks/router.ts as a state machine on values: pending route
 * entries, the dispatch view, the agent map, launched workflows and the buffered rows.
 *
 * A JavaScript Map iterates in insertion order; where that order matters it is kept beside the map.
 * `spawns`, `taken`, `issued`, `session` and `clock` are history that no operation reads.
 */
module RouteLedger {
  import opened Base

  datatype Tier = Haiku | Sonnet | Opus | Fable

  function RankOf(t: Tier): nat {
    match t case Haiku => 0 case Sonnet => 1 case Opus => 2 case Fable => 3
  }

  const ESCALATION_WINDOW_MS: int := 2 * 3600_000
  const WORKFLOW_SLACK_MS: int := 2_000
  const WORKFLOW_EXPIRY_MS: int := 24 * 3600_000
  const DISPATCH_KEEP_MAX: nat := 500

  predicate Contains(s: string, part: string) {
    |part| <= |s| && (part <= s || Contains(s[1..], part))
  }

  /** The tier named in a (lower-case) model name; the first of the four that occurs. */
  function TierOf(name: string): Option<Tier> {
    if Contains(name, "haiku") then Some(Haiku)
    else if Contains(name, "sonnet") then Some(Sonnet)
    else if Contains(name, "opus") then Some(Opus)
    else if Contains(name, "fable") then Some(Fable)
    else None
  }

  function EscalationTierOf(requested: string, resolved: string): Option<Tier> {
    var explicit := if requested != "inherit" then TierOf(requested) else None;
    if explicit.Some? then explicit else TierOf(resolved)
  }

  /** Only these requested names are a cheap explicit start. */
  function CheapStart(start: string): Option<Tier> {
    if start == "haiku" then Some(Haiku) else if start == "sonnet" then Some(Sonnet) else None
  }

  datatype Outcome = Async | Answered | Failed(unavailable: bool)

  datatype End = End(reason: string, isAborted: bool, hasUsage: bool)

  function OutcomeOf(e: End): Outcome {
    if e.reason == "answer" && !e.isAborted then Answered
    else Failed(e.reason == "error" && !e.hasUsage)
  }

  datatype Row = Row(
    workflow: bool, toolUseId: Option<string>, agentId: Option<string>,
    startTier: string, resolved: Option<string>, ts: int,
    outcome: Outcome, endReason: string, escalatedBy: Option<string>)

  const WF := "wf:"

  /** The key under which a row's entry is held. */
  function RowKey(r: Row): string {
    if r.workflow then WF + (if r.agentId.Some? then r.agentId.value else "")
    else if r.toolUseId.Some? then r.toolUseId.value else ""
  }

  datatype RouteEntry = RouteEntry(row: Row, start: string, desc: string, at: int, done: bool)

  datatype Dispatch = Dispatch(agentId: Option<string>, resolved: Option<string>, running: bool, ok: bool)

  datatype Launch = Launch(toolUseId: string, at: int)

  /** An accepted spawn, as the history remembers it. */
  datatype Accepted = Accepted(key: string, desc: string, start: string, tier: Option<Tier>, at: int, session: nat)

  /** A row handed to the append, with the number of spawns accepted by then. */
  datatype Taken = Taken(row: Row, spawned: nat)

  datatype State = State(
    routes: map<string, RouteEntry>, routeOrder: seq<string>,
    dispatches: map<string, Dispatch>, dispatchOrder: seq<string>,
    byAgent: map<string, string>, workflows: seq<Launch>, rows: seq<Row>,
    taken: seq<Taken>, spawns: seq<Accepted>, issued: set<string>, session: nat, clock: int)

  const Init := State(map[], [], map[], [], map[], [], [], [], [], {}, 0, 0)

  datatype Event =
    | Spawned(toolUseId: string, agentId: Option<string>, desc: string, requested: string, resolved: Option<string>, now: int)
    | WorkflowStarted(run: string, now: int)
    | Completed(agent: string, end: End, durationMs: int, model: Option<string>, now: int)
    | SessionEnd
    | Take

  // ---------------------------------------------------------------- operations

  /** Order of an insertion-ordered map after a set. */
  function Inserted<V>(order: seq<string>, m: map<string, V>, key: string): seq<string> {
    if key in m then order else order + [key]
  }

  /** The order without the keys that are gone. */
  function Minus(order: seq<string>, gone: set<string>): (kept: seq<string>)
    ensures forall k :: k in kept <==> k in order && k !in gone
  {
    if order == [] then []
    else (if order[0] in gone then [] else [order[0]]) + Minus(order[1..], gone)
  }

  lemma {:induction false} MinusNoDup(order: seq<string>, gone: set<string>)
    requires NoDup(order)
    ensures NoDup(Minus(order, gone))
  {
    if order != [] {
      MinusNoDup(order[1..], gone);
      assert order[0] !in order[1..];
      NoDupConcat(if order[0] in gone then [] else [order[0]], Minus(order[1..], gone));
    }
  }

  /** The entries that can no longer change. */
  function Expired(routes: map<string, RouteEntry>, now: int): set<string> {
    set k | k in routes && routes[k].done && now - routes[k].at > ESCALATION_WINDOW_MS
  }

  function PruneRoutes(s: State, now: int): State {
    var gone := Expired(s.routes, now);
    s.(routes := s.routes - gone, routeOrder := Minus(s.routeOrder, gone))
  }

  /** markEscalations' test: `a` is an unmarked cheap explicit start that a dispatch at `tier` redoes within the window. */
  predicate Escalates(a: RouteEntry, desc: string, tier: Option<Tier>, now: int) {
    && desc != "" && tier.Some?
    && a.row.escalatedBy.None? && a.desc == desc && 0 < now - a.at <= ESCALATION_WINDOW_MS
    && CheapStart(a.start).Some? && RankOf(tier.value) > RankOf(CheapStart(a.start).value)
  }

  function Mark(r: Row, byId: string): Row {
    r.(escalatedBy := Some(byId))
  }

  function MarkEntry(a: RouteEntry, desc: string, tier: Option<Tier>, byId: string, now: int): RouteEntry {
    if Escalates(a, desc, tier, now) then a.(row := Mark(a.row, byId)) else a
  }

  /** A buffered row changes with its finished entry. */
  function MarkRow(r: Row, routes: map<string, RouteEntry>, desc: string, tier: Option<Tier>, byId: string, now: int): Row {
    var k := RowKey(r);
    if k in routes && routes[k].done && routes[k].row == r && Escalates(routes[k], desc, tier, now) then Mark(r, byId) else r
  }

  function MarkEscalations(s: State, desc: string, tier: Option<Tier>, byId: string, now: int): State {
    s.(routes := map k | k in s.routes :: MarkEntry(s.routes[k], desc, tier, byId, now),
       rows := seq(|s.rows|, i requires 0 <= i < |s.rows| => MarkRow(s.rows[i], s.routes, desc, tier, byId, now)))
  }

  /** The dispatch keys kept, oldest first: finished ones go from the front until the excess is gone. */
  function TrimOrder(order: seq<string>, d: map<string, Dispatch>, excess: int): (kept: seq<string>)
    ensures forall k :: k in kept ==> k in order
  {
    if excess <= 0 || order == [] then order
    else if order[0] in d && d[order[0]].running then [order[0]] + TrimOrder(order[1..], d, excess)
    else TrimOrder(order[1..], d, excess - 1)
  }

  function Kept(d: map<string, Dispatch>, kept: seq<string>): map<string, Dispatch> {
    map k | k in d && k in kept :: d[k]
  }

  function TrimDispatches(s: State): State {
    var kept := TrimOrder(s.dispatchOrder, s.dispatches, |s.dispatchOrder| - DISPATCH_KEEP_MAX);
    s.(dispatchOrder := kept, dispatches := Kept(s.dispatches, kept))
  }

  function SpawnRow(id: string, agentId: Option<string>, requested: string, resolved: string, now: int): Row {
    Row(false, Some(id), agentId, requested, Some(resolved), now, Async, "", None)
  }

  function AddRoute(s: State, key: string, e: RouteEntry): State {
    s.(routes := s.routes[key := e], routeOrder := Inserted(s.routeOrder, s.routes, key), issued := s.issued + {key})
  }

  function SetDispatch(s: State, key: string, d: Dispatch): State {
    s.(dispatches := s.dispatches[key := d], dispatchOrder := Inserted(s.dispatchOrder, s.dispatches, key))
  }

  /** The part of afterSpawn that only an accepted spawn takes. */
  function AcceptSpawn(s: State, id: string, agentId: Option<string>, desc: string, requested: string, resolved: string, now: int): State {
    var tier := EscalationTierOf(requested, resolved);
    var s1 := MarkEscalations(PruneRoutes(s, now), desc, tier, id, now);
    var s2 := AddRoute(s1, id, RouteEntry(SpawnRow(id, agentId, requested, resolved, now), requested, desc, now, false));
    s2.(byAgent := if agentId.Some? then s.byAgent[agentId.value := id] else s.byAgent,
        spawns := s.spawns + [Accepted(id, desc, requested, tier, now, s.session)])
  }

  function AfterSpawn(s: State, id: string, agentId: Option<string>, desc: string, requested: string, resolved: Option<string>, now: int): State {
    var agent := if resolved.Some? then agentId else None;
    var s1 := SetDispatch(s.(clock := now), id, Dispatch(agent, resolved, resolved.Some?, false));
    var s2 := if resolved.Some? then AcceptSpawn(s1, id, agent, desc, requested, resolved.value, now) else s1;
    TrimDispatches(s2)
  }

  function SetLaunch(ws: seq<Launch>, run: string, now: int): seq<Launch> {
    if ws == [] then [Launch(run, now)]
    else if ws[0].toolUseId == run then [Launch(run, now)] + ws[1..]
    else [ws[0]] + SetLaunch(ws[1..], run, now)
  }

  function FinishRow(r: Row, end: End): Row {
    r.(outcome := OutcomeOf(end), endReason := end.reason)
  }

  /** `queue`: the entry is done and its row is buffered. */
  function QueueEntry(s: State, key: string): State
    requires key in s.routes
  {
    s.(routes := s.routes[key := s.routes[key].(done := true)], rows := s.rows + [s.routes[key].row])
  }

  /** The end of a run whose dispatch was running: the dispatch is closed, and its row is queued unless it was before. */
  function FinishRun(s: State, key: string, d: Dispatch, end: End): State {
    var s1 := SetDispatch(s, key, d.(running := false, ok := OutcomeOf(end) == Answered));
    if key in s1.routes && !s1.routes[key].done then
      QueueEntry(s1.(routes := s1.routes[key := s1.routes[key].(row := FinishRow(s1.routes[key].row, end))]), key)
    else s1
  }

  function WorkflowRow(agent: string, model: Option<string>, run: Option<string>, now: int): Row {
    Row(true, run, Some(agent), "unknown", model, now, Async, "", None)
  }

  /** Launches not yet expired. */
  function Unexpired(ws: seq<Launch>, now: int): seq<Launch> {
    if ws == [] then []
    else (if now - ws[0].at > WORKFLOW_EXPIRY_MS then [] else [ws[0]]) + Unexpired(ws[1..], now)
  }

  /** The workflows that may own an agent that began at `agentStart`: launched by then, or at most the slack later. */
  function RunsBefore(ws: seq<Launch>, agentStart: int): seq<Launch> {
    if ws == [] then []
    else (if ws[0].at <= agentStart + WORKFLOW_SLACK_MS then [ws[0]] else []) + RunsBefore(ws[1..], agentStart)
  }

  /** An agent of a workflow: it gets an entry of its own, closed at once. */
  function FinishWorkflowAgent(s: State, agent: string, run: Option<string>, end: End, model: Option<string>, now: int): State {
    var key := WF + agent;
    var e := RouteEntry(WorkflowRow(agent, model, run, now), "unknown", "", now, false);
    FinishRun(AddRoute(s.(byAgent := s.byAgent[agent := key]), key, e), key, Dispatch(Some(agent), model, true, false), end)
  }

  function OnComplete(s0: State, agent: string, end: End, durationMs: int, model: Option<string>, now: int): State {
    var s := s0.(clock := now);
    if agent in s.byAgent then
      var key := s.byAgent[agent];
      if key in s.dispatches && s.dispatches[key].running then FinishRun(s, key, s.dispatches[key], end) else s
    else
      var s1 := s.(workflows := Unexpired(s.workflows, now));
      var runs := RunsBefore(s1.workflows, now - durationMs);
      if runs == [] then s1
      else FinishWorkflowAgent(s1, agent, if |runs| == 1 then Some(runs[0].toolUseId) else None, end, model, now)
  }

  /** `end`: every pending entry is queued as it stands, in order; entries and workflows are forgotten, the agent map stays. */
  function PendingRows(order: seq<string>, routes: map<string, RouteEntry>): seq<Row> {
    if order == [] then []
    else (if order[0] in routes && !routes[order[0]].done then [routes[order[0]].row] else []) + PendingRows(order[1..], routes)
  }

  function AtEnd(s: State): State {
    s.(rows := s.rows + PendingRows(s.routeOrder, s.routes), routes := map[], routeOrder := [], workflows := [],
       session := s.session + 1)
  }

  /** A flush takes the buffered rows; from here on they count as written. */
  function TakeRows(s: State): State {
    s.(rows := [], taken := s.taken + seq(|s.rows|, i requires 0 <= i < |s.rows| => Taken(s.rows[i], |s.spawns|)))
  }

  function Next(s: State, e: Event): State {
    match e
    case Spawned(id, agentId, desc, requested, resolved, now) => AfterSpawn(s, id, agentId, desc, requested, resolved, now)
    case WorkflowStarted(run, now) => s.(workflows := SetLaunch(s.workflows, run, now), clock := now)
    case Completed(agent, end, durationMs, model, now) => OnComplete(s, agent, end, durationMs, model, now)
    case SessionEnd => AtEnd(s)
    case Take => TakeRows(s)
  }

  // ---------------------------------------------------------------- invariant: one row per issued key

  /** The keys of every row ever buffered, in order. */
  function Keys(s: State): (ks: seq<string>)
    ensures |ks| == |s.taken| + |s.rows|
  {
    seq(|s.taken|, i requires 0 <= i < |s.taken| => RowKey(s.taken[i].row)) +
    seq(|s.rows|, i requires 0 <= i < |s.rows| => RowKey(s.rows[i]))
  }

  /** Every issued key is pending in `routes` or has its row, exactly one of the two, and no key has two rows. */
  ghost predicate OneRowEach(s: State) {
    && NoDup(Keys(s))
    && (forall k :: k in Keys(s) ==> k in s.issued)
    && (forall k :: k in s.routes ==> k in s.issued && RowKey(s.routes[k].row) == k)
    && (forall k :: k in s.routes ==> (s.routes[k].done <==> k in Keys(s)))
    && (forall k :: k in s.issued ==> k in Keys(s) || (k in s.routes && !s.routes[k].done))
    && (forall a :: WF + a in s.issued ==> a in s.byAgent)
  }

  ghost predicate Ordered(s: State) {
    && NoDup(s.routeOrder) && (forall k :: k in s.routeOrder <==> k in s.routes)
    && NoDup(s.dispatchOrder) && (forall k :: k in s.dispatchOrder <==> k in s.dispatches)
  }

  /** What the host promises: a tool_use_id is not used again once a spawn with it was accepted, none looks like a workflow key, and the clock never runs back. */
  predicate Fresh(s: State, e: Event) {
    && (e.Spawned? ==> s.clock <= e.now && e.toolUseId !in s.issued && !(WF <= e.toolUseId))
    && (e.WorkflowStarted? ==> s.clock <= e.now)
    && (e.Completed? ==> s.clock <= e.now)
  }

  lemma WorkflowKeysInjective(a: string, b: string)
    ensures WF + a == WF + b ==> a == b
  {
    assert (WF + a)[|WF|..] == a && (WF + b)[|WF|..] == b;
  }

  /** Pruning forgets only entries whose row is out; marking changes no key. */
  lemma PruneMarkOnce(s: State, desc: string, tier: Option<Tier>, byId: string, now: int)
    requires OneRowEach(s)
    ensures OneRowEach(PruneRoutes(s, now)) && OneRowEach(MarkEscalations(s, desc, tier, byId, now))
    ensures Keys(MarkEscalations(s, desc, tier, byId, now)) == Keys(s) == Keys(PruneRoutes(s, now))
  {
    MarkOnce(s, desc, tier, byId, now);
    PruneOnce(s, now);
  }

  lemma MarkOnce(s: State, desc: string, tier: Option<Tier>, byId: string, now: int)
    requires OneRowEach(s)
    ensures var s1 := MarkEscalations(s, desc, tier, byId, now); OneRowEach(s1) && Keys(s1) == Keys(s)
  {
    var s1 := MarkEscalations(s, desc, tier, byId, now);
    assert forall i :: 0 <= i < |s.rows| ==> RowKey(s1.rows[i]) == RowKey(s.rows[i]);
    assert Keys(s1) == Keys(s);
  }

  lemma PruneOnce(s: State, now: int)
    requires OneRowEach(s)
    ensures OneRowEach(PruneRoutes(s, now)) && Keys(PruneRoutes(s, now)) == Keys(s)
  {
    assert Keys(PruneRoutes(s, now)) == Keys(s);
  }

  lemma AddRouteOnce(s: State, key: string, e: RouteEntry)
    requires OneRowEach(s) && key !in s.issued && RowKey(e.row) == key && !e.done
    requires forall a :: WF + a == key ==> a in s.byAgent
    ensures OneRowEach(AddRoute(s, key, e))
  {
    assert Keys(AddRoute(s, key, e)) == Keys(s);
  }

  lemma QueueOnce(s: State, key: string)
    requires OneRowEach(s) && key in s.routes && !s.routes[key].done
    ensures OneRowEach(QueueEntry(s, key)) && Keys(QueueEntry(s, key)) == Keys(s) + [key]
  {
    assert Keys(QueueEntry(s, key)) == Keys(s) + [key];
  }

  lemma FinishOnce(s: State, key: string, d: Dispatch, end: End)
    requires OneRowEach(s)
    ensures OneRowEach(FinishRun(s, key, d, end))
    ensures Keys(FinishRun(s, key, d, end)) == if key in s.routes && !s.routes[key].done then Keys(s) + [key] else Keys(s)
  {
    var s1 := SetDispatch(s, key, d.(running := false, ok := OutcomeOf(end) == Answered));
    assert Keys(s1) == Keys(s);
    if key in s1.routes && !s1.routes[key].done {
      var s2 := s1.(routes := s1.routes[key := s1.routes[key].(row := FinishRow(s1.routes[key].row, end))]);
      assert Keys(s2) == Keys(s);
      QueueOnce(s2, key);
    }
  }

  /** An accepted spawn issues its key, which is pending; a denied one issues none; neither makes a row. */
  lemma SpawnOnce(s: State, e: Event)
    requires OneRowEach(s) && e.Spawned? && Fresh(s, e)
    ensures OneRowEach(Next(s, e)) && Keys(Next(s, e)) == Keys(s)
    ensures Next(s, e).issued == s.issued + if e.resolved.Some? then {e.toolUseId} else {}
    ensures e.resolved.Some? ==> e.toolUseId in Next(s, e).routes && !Next(s, e).routes[e.toolUseId].done
  {
    var s0 := SetDispatch(s.(clock := e.now), e.toolUseId,
      Dispatch(if e.resolved.Some? then e.agentId else None, e.resolved, e.resolved.Some?, false));
    assert Keys(s0) == Keys(s) && OneRowEach(s0);
    if e.resolved.Some? {
      var tier := EscalationTierOf(e.requested, e.resolved.value);
      PruneMarkOnce(s0, e.desc, tier, e.toolUseId, e.now);
      PruneMarkOnce(PruneRoutes(s0, e.now), e.desc, tier, e.toolUseId, e.now);
      var s1 := MarkEscalations(PruneRoutes(s0, e.now), e.desc, tier, e.toolUseId, e.now);
      var r := RouteEntry(SpawnRow(e.toolUseId, e.agentId, e.requested, e.resolved.value, e.now), e.requested, e.desc, e.now, false);
      AddRouteOnce(s1, e.toolUseId, r);
      var s2 := AcceptSpawn(s0, e.toolUseId, e.agentId, e.desc, e.requested, e.resolved.value, e.now);
      assert Keys(s2) == Keys(s1);
      assert OneRowEach(s2);
      assert Keys(TrimDispatches(s2)) == Keys(s2);
    } else {
      assert Keys(TrimDispatches(s0)) == Keys(s0);
    }
  }

  lemma KnownAgentOnce(s: State, agent: string, end: End, now: int)
    requires OneRowEach(s) && agent in s.byAgent
    ensures var s' := OnComplete(s, agent, end, 0, None, now); OneRowEach(s') && Keys(s) <= Keys(s')
  {
    var s0 := s.(clock := now);
    assert Keys(s0) == Keys(s);
    var key := s.byAgent[agent];
    if key in s.dispatches { FinishOnce(s0, key, s.dispatches[key], end); }
  }

  lemma WorkflowAgentOnce(s: State, agent: string, run: Option<string>, end: End, model: Option<string>, now: int)
    requires OneRowEach(s) && agent !in s.byAgent
    ensures var s' := FinishWorkflowAgent(s, agent, run, end, model, now);
      OneRowEach(s') && Keys(s') == Keys(s) + [WF + agent]
  {
    var key := WF + agent;
    var r := RouteEntry(WorkflowRow(agent, model, run, now), "unknown", "", now, false);
    var s1 := s.(byAgent := s.byAgent[agent := key]);
    assert Keys(s1) == Keys(s);
    forall a | WF + a == key ensures a in s1.byAgent { WorkflowKeysInjective(a, agent); }
    AddRouteOnce(s1, key, r);
    assert Keys(AddRoute(s1, key, r)) == Keys(s);
    FinishOnce(AddRoute(s1, key, r), key, Dispatch(Some(agent), model, true, false), end);
  }

  /** Nothing of the one-row accounting looks at launches or the clock. */
  lemma SameAccounts(s: State, s': State)
    requires OneRowEach(s)
    requires s' == s.(workflows := s'.workflows, clock := s'.clock)
    ensures OneRowEach(s') && Keys(s') == Keys(s)
  {
    assert Keys(s') == Keys(s);
  }

  lemma StrangerOnce(s: State, agent: string, end: End, durationMs: int, model: Option<string>, now: int)
    requires OneRowEach(s) && agent !in s.byAgent
    ensures var s' := OnComplete(s, agent, end, durationMs, model, now); OneRowEach(s') && Keys(s) <= Keys(s')
  {
    var s1 := s.(clock := now, workflows := Unexpired(s.workflows, now));
    var runs := RunsBefore(s1.workflows, now - durationMs);
    SameAccounts(s, s1);
    WorkflowAgentOnce(s1, agent, if |runs| == 1 then Some(runs[0].toolUseId) else None, end, model, now);
  }

  lemma CompleteOnce(s: State, e: Event)
    requires OneRowEach(s) && e.Completed?
    ensures OneRowEach(Next(s, e)) && Keys(s) <= Keys(Next(s, e))
  {
    if e.agent in s.byAgent {
      KnownAgentOnce(s, e.agent, e.end, e.now);
    } else {
      StrangerOnce(s, e.agent, e.end, e.durationMs, e.model, e.now);
    }
  }

  /** The keys of the pending entries, in order. */
  function PendingKeys(order: seq<string>, routes: map<string, RouteEntry>): (ks: seq<string>)
    ensures forall k :: k in ks <==> k in order && k in routes && !routes[k].done
  {
    if order == [] then []
    else (if order[0] in routes && !routes[order[0]].done then [order[0]] else []) + PendingKeys(order[1..], routes)
  }

  lemma {:induction false} PendingNoDup(order: seq<string>, routes: map<string, RouteEntry>)
    requires NoDup(order)
    ensures NoDup(PendingKeys(order, routes))
  {
    if order != [] {
      PendingNoDup(order[1..], routes);
      assert order[0] !in order[1..];
      NoDupConcat([order[0]], PendingKeys(order[1..], routes));
    }
  }

  lemma {:induction false} PendingAgree(order: seq<string>, routes: map<string, RouteEntry>)
    ensures |PendingRows(order, routes)| == |PendingKeys(order, routes)|
    ensures forall i :: 0 <= i < |PendingRows(order, routes)| ==>
      PendingKeys(order, routes)[i] in routes && PendingRows(order, routes)[i] == routes[PendingKeys(order, routes)[i]].row
  {
    if order != [] {
      PendingAgree(order[1..], routes);
    }
  }

  lemma EndOnce(s: State)
    requires OneRowEach(s) && Ordered(s)
    ensures OneRowEach(AtEnd(s)) && Keys(AtEnd(s)) == Keys(s) + PendingKeys(s.routeOrder, s.routes)
  {
    var ks := PendingKeys(s.routeOrder, s.routes);
    EndKeys(s);
    PendingNoDup(s.routeOrder, s.routes);
    NoDupConcat(Keys(s), ks);
    assert forall k :: k in Keys(s) + ks <==> k in Keys(s) || k in ks;
  }

  lemma EndKeys(s: State)
    requires forall k :: k in s.routes ==> RowKey(s.routes[k].row) == k
    ensures Keys(AtEnd(s)) == Keys(s) + PendingKeys(s.routeOrder, s.routes)
  {
    PendingAgree(s.routeOrder, s.routes);
  }

  lemma TakeOnce(s: State)
    requires OneRowEach(s)
    ensures OneRowEach(TakeRows(s)) && Keys(TakeRows(s)) == Keys(s)
  {
    assert Keys(TakeRows(s)) == Keys(s);
  }

  // ---------------------------------------------------------------- insertion order

  lemma {:induction false} TrimNoDup(order: seq<string>, d: map<string, Dispatch>, excess: int)
    requires NoDup(order)
    ensures NoDup(TrimOrder(order, d, excess))
  {
    if order != [] && excess > 0 {
      if order[0] in d && d[order[0]].running {
        TrimNoDup(order[1..], d, excess);
        var ks := TrimOrder(order[1..], d, excess);
        assert order[0] !in order[1..];
        assert forall i :: 0 <= i < |ks| ==> ks[i] in ks;
      } else {
        TrimNoDup(order[1..], d, excess - 1);
      }
    }
  }

  lemma OrderedRoutes(s: State, id: string, agent: Option<string>, desc: string, requested: string, resolved: string, now: int)
    requires Ordered(s)
    ensures Ordered(AcceptSpawn(s, id, agent, desc, requested, resolved, now))
  {
    MinusNoDup(s.routeOrder, Expired(s.routes, now));
    var s1 := PruneRoutes(s, now);
    assert Ordered(s1);
    var s2 := MarkEscalations(s1, desc, EscalationTierOf(requested, resolved), id, now);
    assert s2.routes.Keys == s1.routes.Keys;
    NoDupConcat(s2.routeOrder, if id in s2.routes then [] else [id]);
  }

  lemma OrderedTrim(s: State)
    requires Ordered(s)
    ensures Ordered(TrimDispatches(s))
  {
    TrimNoDup(s.dispatchOrder, s.dispatches, |s.dispatchOrder| - DISPATCH_KEEP_MAX);
  }

  lemma OrderedSet(s: State, key: string, d: Dispatch)
    requires Ordered(s)
    ensures Ordered(SetDispatch(s, key, d))
  {
  }

  lemma OrderedFinish(s: State, key: string, d: Dispatch, end: End)
    requires Ordered(s)
    ensures Ordered(FinishRun(s, key, d, end))
  {
  }

  lemma OrderedAdd(s: State, key: string, e: RouteEntry)
    requires Ordered(s)
    ensures Ordered(AddRoute(s, key, e))
  {
  }

  lemma OrderedComplete(s: State, agent: string, end: End, durationMs: int, model: Option<string>, now: int)
    requires Ordered(s)
    ensures Ordered(OnComplete(s, agent, end, durationMs, model, now))
  {
    if agent in s.byAgent {
      var key := s.byAgent[agent];
      if key in s.dispatches { OrderedFinish(s.(clock := now), key, s.dispatches[key], end); }
    } else {
      var s1 := s.(clock := now, workflows := Unexpired(s.workflows, now));
      var runs := RunsBefore(s1.workflows, now - durationMs);
      OrderedStranger(s1, agent, if |runs| == 1 then Some(runs[0].toolUseId) else None, end, model, now);
    }
  }

  lemma OrderedStranger(s: State, agent: string, run: Option<string>, end: End, model: Option<string>, now: int)
    requires Ordered(s)
    ensures Ordered(FinishWorkflowAgent(s, agent, run, end, model, now))
  {
    var key := WF + agent;
    var e := RouteEntry(WorkflowRow(agent, model, run, now), "unknown", "", now, false);
    var s1 := s.(byAgent := s.byAgent[agent := key]);
    OrderedAdd(s1, key, e);
    OrderedFinish(AddRoute(s1, key, e), key, Dispatch(Some(agent), model, true, false), end);
  }

  lemma OrderedNext(s: State, e: Event)
    requires Ordered(s)
    ensures Ordered(Next(s, e))
  {
    match e
    case Spawned(id, agentId, desc, requested, resolved, now) =>
      var agent := if resolved.Some? then agentId else None;
      var s0 := SetDispatch(s.(clock := now), id, Dispatch(agent, resolved, resolved.Some?, false));
      OrderedSet(s.(clock := now), id, Dispatch(agent, resolved, resolved.Some?, false));
      if resolved.Some? {
        OrderedRoutes(s0, id, agent, desc, requested, resolved.value, now);
        OrderedTrim(AcceptSpawn(s0, id, agent, desc, requested, resolved.value, now));
      } else {
        OrderedTrim(s0);
      }
    case Completed(agent, end, durationMs, model, now) => OrderedComplete(s, agent, end, durationMs, model, now);
    case _ =>
  }
}
