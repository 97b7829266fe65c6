/** What holds over whole runs of the route-row ledger. */
module RouteRuns {
  import opened Base
  import opened RouteLedger

  function Run(es: seq<Event>): State {
    if es == [] then Init else Next(Run(es[..|es| - 1]), es[|es| - 1])
  }

  /** Every event of the run meets what the host promises. */
  predicate FreshRun(es: seq<Event>) {
    es != [] ==> FreshRun(es[..|es| - 1]) && Fresh(Run(es[..|es| - 1]), es[|es| - 1])
  }

  lemma OneRowNext(s: State, e: Event)
    requires OneRowEach(s) && Ordered(s) && Fresh(s, e)
    ensures OneRowEach(Next(s, e)) && Ordered(Next(s, e)) && Keys(s) <= Keys(Next(s, e))
  {
    OrderedNext(s, e);
    match e
    case Spawned(_, _, _, _, _, _) => SpawnOnce(s, e);
    case Completed(_, _, _, _, _) => CompleteOnce(s, e);
    case SessionEnd => EndOnce(s);
    case Take => TakeOnce(s);
    case WorkflowStarted(run, now) => SameAccounts(s, Next(s, e));
  }

  lemma {:induction false} OneRowRun(es: seq<Event>)
    requires FreshRun(es)
    ensures OneRowEach(Run(es)) && Ordered(Run(es))
  {
    if es != [] {
      OneRowRun(es[..|es| - 1]);
      OneRowNext(Run(es[..|es| - 1]), es[|es| - 1]);
    }
  }

  function CountOf(ks: seq<string>, k: string): nat {
    if ks == [] then 0 else (if ks[0] == k then 1 else 0) + CountOf(ks[1..], k)
  }

  lemma {:induction false} CountNoDup(ks: seq<string>, k: string)
    requires NoDup(ks)
    ensures CountOf(ks, k) == if k in ks then 1 else 0
  {
    if ks != [] {
      CountNoDup(ks[1..], k);
      assert ks[0] !in ks[1..];
    }
  }

  /**
   * Over every run, each accepted spawn and each attributed workflow agent has at most one row, and
   * has none exactly while its entry is pending. A session end gives every one of them its row.
   */
  lemma ExactlyOneRow(es: seq<Event>, k: string)
    requires FreshRun(es) && k in Run(es).issued
    ensures var s := Run(es);
      CountOf(Keys(s), k) == if k in s.routes && !s.routes[k].done then 0 else 1
    ensures CountOf(Keys(AtEnd(Run(es))), k) == 1
  {
    OneRowRun(es);
    EndOnce(Run(es));
    CountNoDup(Keys(Run(es)), k);
    CountNoDup(Keys(AtEnd(Run(es))), k);
  }

  /** Whatever happens later, an issued key stays issued and a row that is out is never joined by a second one. */
  lemma NeverASecondRow(es: seq<Event>, more: seq<Event>, k: string)
    requires FreshRun(es + more) && k in Keys(Run(es))
    ensures CountOf(Keys(Run(es + more)), k) == 1
  {
    OneRowRun(es + more);
    KeysGrow(es, more);
    assert k in Keys(Run(es + more));
    CountNoDup(Keys(Run(es + more)), k);
  }

  lemma {:induction false} KeysGrow(es: seq<Event>, more: seq<Event>)
    requires FreshRun(es + more)
    ensures FreshRun(es) && Keys(Run(es)) <= Keys(Run(es + more))
  {
    if more == [] {
      assert es + more == es;
    } else {
      assert (es + more)[..|es + more| - 1] == es + more[..|more| - 1] && (es + more)[|es + more| - 1] == more[|more| - 1];
      KeysGrow(es, more[..|more| - 1]);
      OneRowRun(es + more[..|more| - 1]);
      OneRowNext(Run(es + more[..|more| - 1]), more[|more| - 1]);
    }
  }

  // ---------------------------------------------------------------- escalation marks

  /** The later spawn redoes the earlier one: same session, same description, within the window, at a higher tier than its cheap start. */
  predicate Raises(a: Accepted, b: Accepted) {
    && a.session == b.session
    && b.desc != "" && b.tier.Some?
    && a.desc == b.desc && 0 < b.at - a.at <= ESCALATION_WINDOW_MS
    && CheapStart(a.start).Some? && RankOf(b.tier.value) > RankOf(CheapStart(a.start).value)
  }

  /** The first spawn of the first `n` that raises spawn `i`. */
  function Escalator(sp: seq<Accepted>, i: nat, n: nat): (r: Option<string>)
    requires i < n <= |sp|
    ensures r.None? <==> forall j :: i < j < n ==> !Raises(sp[i], sp[j])
    ensures r.Some? ==> exists j :: i < j < n && Raises(sp[i], sp[j]) && r.value == sp[j].key
                                    && forall m :: i < m < j ==> !Raises(sp[i], sp[m])
    decreases n
  {
    if n == i + 1 then None
    else
      var r := Escalator(sp, i, n - 1);
      if r.Some? then r else if Raises(sp[i], sp[n - 1]) then Some(sp[n - 1].key) else None
  }

  lemma {:induction false} EscalatorPrefix(sp: seq<Accepted>, x: Accepted, i: nat, n: nat)
    requires i < n <= |sp|
    ensures Escalator(sp + [x], i, n) == Escalator(sp, i, n)
    decreases n
  {
    if n > i + 1 { EscalatorPrefix(sp, x, i, n - 1); }
  }

  ghost predicate SpawnHistory(s: State) {
    && (forall i, j :: 0 <= i < j < |s.spawns| ==> s.spawns[i].key != s.spawns[j].key)
    && (forall i :: 0 <= i < |s.spawns| ==>
          s.spawns[i].key in s.issued && !(WF <= s.spawns[i].key)
          && s.spawns[i].session <= s.session && s.spawns[i].at <= s.clock)
    && (forall i :: 0 <= i < |s.spawns| && s.spawns[i].session == s.session && s.spawns[i].key !in s.routes ==>
          s.clock - s.spawns[i].at > ESCALATION_WINDOW_MS)
  }

  /** The entry of spawn `i` remembers it and carries its mark. */
  predicate Remembers(s: State, e: RouteEntry, i: nat)
    requires i < |s.spawns|
  {
    && s.spawns[i].session == s.session
    && e.desc == s.spawns[i].desc && e.start == s.spawns[i].start && e.at == s.spawns[i].at
    && e.row.escalatedBy == Escalator(s.spawns, i, |s.spawns|)
  }

  ghost predicate EntriesMarked(s: State) {
    && (forall i :: 0 <= i < |s.spawns| && s.spawns[i].key in s.routes ==> Remembers(s, s.routes[s.spawns[i].key], i))
    && (forall k :: k in s.routes && WF <= k ==> s.routes[k].desc == "")
    && (forall j :: 0 <= j < |s.rows| && RowKey(s.rows[j]) in s.routes ==> s.rows[j] == s.routes[RowKey(s.rows[j])].row)
  }

  ghost predicate RowsMarked(s: State) {
    && (forall i, j :: 0 <= i < |s.spawns| && 0 <= j < |s.rows| && RowKey(s.rows[j]) == s.spawns[i].key ==>
          s.rows[j].escalatedBy == Escalator(s.spawns, i, |s.spawns|))
    && (forall i, j :: 0 <= i < |s.spawns| && 0 <= j < |s.taken| && RowKey(s.taken[j].row) == s.spawns[i].key ==>
          i < s.taken[j].spawned <= |s.spawns|
          && s.taken[j].row.escalatedBy == Escalator(s.spawns, i, s.taken[j].spawned))
  }

  ghost predicate Marked(s: State) {
    SpawnHistory(s) && EntriesMarked(s) && RowsMarked(s)
  }

  /** The state right before markEscalations runs for a new spawn. */
  ghost predicate Ready(s: State, now: int, id: string) {
    && OneRowEach(s) && Marked(s) && s.clock == now && id !in s.issued && !(WF <= id)
    && forall i :: 0 <= i < |s.spawns| && s.spawns[i].session == s.session && s.spawns[i].key !in s.routes ==>
         now - s.spawns[i].at > ESCALATION_WINDOW_MS
  }

  lemma PruneReady(s: State, now: int, id: string)
    requires OneRowEach(s) && Marked(s) && s.clock == now && id !in s.issued && !(WF <= id)
    ensures Ready(PruneRoutes(s, now), now, id)
  {
    PruneMarkOnce(s, "", None, "", now);
    var s' := PruneRoutes(s, now);
  }

  lemma MarkAgrees(s: State, i: nat, x: Accepted, now: int)
    requires Marked(s) && i < |s.spawns| && s.spawns[i].key in s.routes && x.session == s.session && x.at == now
    ensures var e := s.routes[s.spawns[i].key];
      && MarkEntry(e, x.desc, x.tier, x.key, now).row.escalatedBy == Escalator(s.spawns + [x], i, |s.spawns| + 1)
      && (Escalates(e, x.desc, x.tier, now) <==> e.row.escalatedBy.None? && Raises(s.spawns[i], x))
  {
    EscalatorPrefix(s.spawns, x, i, |s.spawns|);
  }

  lemma NotRaised(s: State, i: nat, x: Accepted, now: int, id: string)
    requires Ready(s, now, id) && i < |s.spawns| && s.spawns[i].key !in s.routes && x.session == s.session && x.at == now
    ensures Escalator(s.spawns + [x], i, |s.spawns| + 1) == Escalator(s.spawns, i, |s.spawns|)
  {
    EscalatorPrefix(s.spawns, x, i, |s.spawns|);
  }

  /** Marking, the new entry and the new history line, as afterSpawn does them. */
  function Accept(s: State, x: Accepted, e: RouteEntry, byAgent: map<string, string>): State {
    AddRoute(MarkEscalations(s, x.desc, x.tier, x.key, x.at), x.key, e).(byAgent := byAgent, spawns := s.spawns + [x])
  }

  lemma AcceptMarked(s: State, x: Accepted, e: RouteEntry, byAgent: map<string, string>)
    requires Ready(s, x.at, x.key) && x.session == s.session
    requires e.desc == x.desc && e.start == x.start && e.at == x.at && e.row.escalatedBy == None
    ensures Marked(Accept(s, x, e, byAgent))
  {
    AcceptHistory(s, x, e, byAgent);
    AcceptEntries(s, x, e, byAgent);
    AcceptHeldRows(s, x, e, byAgent);
    AcceptRows(s, x, e, byAgent);
  }

  lemma AcceptHistory(s: State, x: Accepted, e: RouteEntry, byAgent: map<string, string>)
    requires Ready(s, x.at, x.key) && x.session == s.session
    ensures SpawnHistory(Accept(s, x, e, byAgent))
  {
  }

  lemma AcceptEntries(s: State, x: Accepted, e: RouteEntry, byAgent: map<string, string>)
    requires Ready(s, x.at, x.key) && x.session == s.session
    requires e.desc == x.desc && e.start == x.start && e.at == x.at && e.row.escalatedBy == None
    ensures var s' := Accept(s, x, e, byAgent);
      forall i :: 0 <= i < |s'.spawns| && s'.spawns[i].key in s'.routes ==> Remembers(s', s'.routes[s'.spawns[i].key], i)
  {
    var s' := Accept(s, x, e, byAgent);
    forall i | 0 <= i < |s'.spawns| && s'.spawns[i].key in s'.routes
      ensures Remembers(s', s'.routes[s'.spawns[i].key], i)
    {
      if i < |s.spawns| {
        KnownKeyIsOld(s, x, i);
        OldEntry(s, x, e, byAgent, i);
      } else {
        EscalatorOfLast(s'.spawns);
      }
    }
  }

  lemma KnownKeyIsOld(s: State, x: Accepted, i: nat)
    requires Ready(s, x.at, x.key) && i < |s.spawns|
    ensures s.spawns[i].key != x.key
  {
  }

  /** The last spawn has no later one to be raised by. */
  lemma EscalatorOfLast(spawns: seq<Accepted>)
    requires spawns != []
    ensures Escalator(spawns, |spawns| - 1, |spawns|) == None
  {
  }

  lemma OldEntry(s: State, x: Accepted, e: RouteEntry, byAgent: map<string, string>, i: nat)
    requires Marked(s) && x.session == s.session && i < |s.spawns| && s.spawns[i].key != x.key && s.spawns[i].key in s.routes
    ensures var s' := Accept(s, x, e, byAgent); Remembers(s', s'.routes[s'.spawns[i].key], i)
  {
    AcceptKeepsKey(s, x, e, byAgent, s.spawns[i].key);
    StillRemembers(s, Accept(s, x, e, byAgent), x, i);
  }

  lemma StillRemembers(s: State, s': State, x: Accepted, i: nat)
    requires Marked(s) && x.session == s.session && i < |s.spawns| && s.spawns[i].key in s.routes
    requires s'.spawns == s.spawns + [x] && s'.session == s.session
    ensures Remembers(s', MarkEntry(s.routes[s.spawns[i].key], x.desc, x.tier, x.key, x.at), i)
  {
    MarkAgrees(s, i, x, x.at);
    assert Remembers(s, s.routes[s.spawns[i].key], i);
  }

  lemma AcceptKeepsKey(s: State, x: Accepted, e: RouteEntry, byAgent: map<string, string>, k: string)
    requires k != x.key && k in s.routes
    ensures var s' := Accept(s, x, e, byAgent);
      && k in s'.routes && s'.routes[k] == MarkEntry(s.routes[k], x.desc, x.tier, x.key, x.at)
      && s'.spawns == s.spawns + [x] && s'.session == s.session
  {
  }

  lemma AcceptHeldRows(s: State, x: Accepted, e: RouteEntry, byAgent: map<string, string>)
    requires OneRowEach(s) && EntriesMarked(s) && x.key !in s.issued && !(WF <= x.key)
    ensures var s' := Accept(s, x, e, byAgent);
      && (forall k :: k in s'.routes && WF <= k ==> s'.routes[k].desc == "")
      && (forall j :: 0 <= j < |s'.rows| && RowKey(s'.rows[j]) in s'.routes ==> s'.rows[j] == s'.routes[RowKey(s'.rows[j])].row)
  {
    var s' := Accept(s, x, e, byAgent);
    forall j | 0 <= j < |s'.rows| && RowKey(s'.rows[j]) in s'.routes
      ensures s'.rows[j] == s'.routes[RowKey(s'.rows[j])].row
    {
      RowOfEntry(s, j);
    }
  }

  /** A buffered row whose key is still held is that of a finished entry, and the key of no new spawn. */
  lemma RowOfEntry(s: State, j: nat)
    requires OneRowEach(s) && EntriesMarked(s) && j < |s.rows|
    ensures RowKey(s.rows[j]) in s.issued
    ensures RowKey(s.rows[j]) in s.routes ==> s.routes[RowKey(s.rows[j])].done && s.rows[j] == s.routes[RowKey(s.rows[j])].row
  {
    BufferedKey(s, j);
  }

  lemma BufferedKey(s: State, j: nat)
    requires j < |s.rows|
    ensures RowKey(s.rows[j]) in Keys(s)
  {
    assert Keys(s)[|s.taken| + j] == RowKey(s.rows[j]);
  }

  lemma TakenKey(s: State, j: nat)
    requires j < |s.taken|
    ensures RowKey(s.taken[j].row) in Keys(s)
  {
    assert Keys(s)[j] == RowKey(s.taken[j].row);
  }

  lemma AcceptRows(s: State, x: Accepted, e: RouteEntry, byAgent: map<string, string>)
    requires Ready(s, x.at, x.key) && x.session == s.session
    ensures RowsMarked(Accept(s, x, e, byAgent))
  {
    AcceptFields(s, x, e, byAgent);
    RowsStayMarked(s, Accept(s, x, e, byAgent), x);
  }

  lemma AcceptFields(s: State, x: Accepted, e: RouteEntry, byAgent: map<string, string>)
    ensures var s' := Accept(s, x, e, byAgent);
      && s'.spawns == s.spawns + [x] && s'.taken == s.taken && |s'.rows| == |s.rows|
      && forall j: nat :: j < |s.rows| ==> s'.rows[j] == MarkRow(s.rows[j], s.routes, x.desc, x.tier, x.key, x.at)
  {
  }

  lemma RowsStayMarked(s: State, s': State, x: Accepted)
    requires Ready(s, x.at, x.key) && x.session == s.session
    requires s'.spawns == s.spawns + [x] && s'.taken == s.taken && |s'.rows| == |s.rows|
    requires forall j: nat :: j < |s.rows| ==> s'.rows[j] == MarkRow(s.rows[j], s.routes, x.desc, x.tier, x.key, x.at)
    ensures RowsMarked(s')
  {
    forall i: nat, j: nat | i < |s'.spawns| && j < |s'.rows| && RowKey(s'.rows[j]) == s'.spawns[i].key
      ensures s'.rows[j].escalatedBy == Escalator(s'.spawns, i, |s'.spawns|)
    {
      AcceptBuffered(s, x, i, j);
    }
    forall i: nat, j: nat | i < |s'.spawns| && j < |s'.taken| && RowKey(s'.taken[j].row) == s'.spawns[i].key
      ensures i < s'.taken[j].spawned <= |s'.spawns|
      ensures s'.taken[j].row.escalatedBy == Escalator(s'.spawns, i, s'.taken[j].spawned)
    {
      AcceptTaken(s, x, i, j);
    }
  }

  lemma AcceptBuffered(s: State, x: Accepted, i: nat, j: nat)
    requires Ready(s, x.at, x.key) && x.session == s.session && j < |s.rows| && i <= |s.spawns|
    requires var r := MarkRow(s.rows[j], s.routes, x.desc, x.tier, x.key, x.at);
      RowKey(r) == (s.spawns + [x])[i].key
    ensures MarkRow(s.rows[j], s.routes, x.desc, x.tier, x.key, x.at).escalatedBy
         == Escalator(s.spawns + [x], i, |s.spawns| + 1)
  {
    RowOfEntry(s, j);
    assert i < |s.spawns|;
    if s.spawns[i].key in s.routes { MarkAgrees(s, i, x, x.at); } else { NotRaised(s, i, x, x.at, x.key); }
  }

  lemma AcceptTaken(s: State, x: Accepted, i: nat, j: nat)
    requires RowsMarked(s) && j < |s.taken| && i <= |s.spawns| && RowKey(s.taken[j].row) == (s.spawns + [x])[i].key
    requires x.key !in s.issued && forall k :: k in Keys(s) ==> k in s.issued
    ensures i < s.taken[j].spawned <= |s.spawns|
    ensures s.taken[j].row.escalatedBy == Escalator(s.spawns + [x], i, s.taken[j].spawned)
  {
    TakenKey(s, j);
    EscalatorPrefix(s.spawns, x, i, s.taken[j].spawned);
  }

  lemma SpawnMarked(s: State, e: Event)
    requires OneRowEach(s) && Marked(s) && e.Spawned? && Fresh(s, e)
    ensures Marked(Next(s, e))
  {
    var agent := if e.resolved.Some? then e.agentId else None;
    var s0 := SetDispatch(s.(clock := e.now), e.toolUseId, Dispatch(agent, e.resolved, e.resolved.Some?, false));
    assert Keys(s0) == Keys(s) && OneRowEach(s0) && Marked(s0);
    if e.resolved.Some? {
      PruneReady(s0, e.now, e.toolUseId);
      var x := Accepted(e.toolUseId, e.desc, e.requested, EscalationTierOf(e.requested, e.resolved.value), e.now, s.session);
      var r := RouteEntry(SpawnRow(e.toolUseId, agent, e.requested, e.resolved.value, e.now), e.requested, e.desc, e.now, false);
      var byAgent := if agent.Some? then s.byAgent[agent.value := e.toolUseId] else s.byAgent;
      AcceptMarked(PruneRoutes(s0, e.now), x, r, byAgent);
      var s1 := AcceptSpawn(s0, e.toolUseId, agent, e.desc, e.requested, e.resolved.value, e.now);
      assert s1 == Accept(PruneRoutes(s0, e.now), x, r, byAgent);
      SameMarks(s1, TrimDispatches(s1));
    } else {
      SameMarks(s0, TrimDispatches(s0));
    }
  }

  /** Nothing of the marks looks at the dispatch view, the agent map or the launches. */
  lemma SameMarks(s: State, s': State)
    requires Marked(s)
    requires s' == s.(dispatches := s'.dispatches, dispatchOrder := s'.dispatchOrder, byAgent := s'.byAgent, workflows := s'.workflows)
    ensures Marked(s')
  {
  }

  lemma ClockMarked(s: State, now: int)
    requires Marked(s) && s.clock <= now
    ensures Marked(s.(clock := now))
  {
  }

  lemma NoRowYet(s: State, key: string)
    requires OneRowEach(s) && key in s.routes && !s.routes[key].done
    ensures forall j :: 0 <= j < |s.rows| ==> RowKey(s.rows[j]) != key
    ensures forall j :: 0 <= j < |s.taken| ==> RowKey(s.taken[j].row) != key
  {
    forall j | 0 <= j < |s.rows| ensures RowKey(s.rows[j]) != key { BufferedKey(s, j); }
    forall j | 0 <= j < |s.taken| ensures RowKey(s.taken[j].row) != key { TakenKey(s, j); }
  }

  lemma FinishMarked(s: State, key: string, d: Dispatch, end: End)
    requires OneRowEach(s) && Marked(s)
    ensures Marked(FinishRun(s, key, d, end))
  {
    var s1 := SetDispatch(s, key, d.(running := false, ok := OutcomeOf(end) == Answered));
    SameMarks(s, s1);
    if key in s.routes && !s.routes[key].done {
      NoRowYet(s, key);
      KeyOfEntry(s, key);
      var row := FinishRow(s.routes[key].row, end);
      QueueMarked(s1, key, row);
      FinishIsQueued(s, key, d, end);
    }
  }

  lemma KeyOfEntry(s: State, key: string)
    requires OneRowEach(s) && key in s.routes
    ensures RowKey(s.routes[key].row) == key
  {
  }

  lemma FinishIsQueued(s: State, key: string, d: Dispatch, end: End)
    requires key in s.routes && !s.routes[key].done
    ensures var s1 := SetDispatch(s, key, d.(running := false, ok := OutcomeOf(end) == Answered));
      FinishRun(s, key, d, end) == Queued(s1, key, FinishRow(s.routes[key].row, end))
  {
    var s1 := SetDispatch(s, key, d.(running := false, ok := OutcomeOf(end) == Answered));
    var row := FinishRow(s.routes[key].row, end);
    assert FinishRun(s, key, d, end).routes == Queued(s1, key, row).routes;
  }

  /** A pending entry's row is settled and buffered. */
  function Queued(s: State, key: string, row: Row): State
    requires key in s.routes
  {
    s.(routes := s.routes[key := s.routes[key].(row := row, done := true)], rows := s.rows + [row])
  }

  lemma QueueMarked(s: State, key: string, row: Row)
    requires Marked(s) && key in s.routes
    requires row.escalatedBy == s.routes[key].row.escalatedBy && RowKey(row) == key
    requires forall j :: 0 <= j < |s.rows| ==> RowKey(s.rows[j]) != key
    ensures Marked(Queued(s, key, row))
  {
    QueueEntriesMarked(s, key, row);
    QueueRowsMarked(s, key, row);
  }

  lemma QueueEntriesMarked(s: State, key: string, row: Row)
    requires SpawnHistory(s) && EntriesMarked(s) && key in s.routes
    requires row.escalatedBy == s.routes[key].row.escalatedBy && RowKey(row) == key
    requires forall j :: 0 <= j < |s.rows| ==> RowKey(s.rows[j]) != key
    ensures SpawnHistory(Queued(s, key, row)) && EntriesMarked(Queued(s, key, row))
  {
  }

  lemma QueueRowsMarked(s: State, key: string, row: Row)
    requires EntriesMarked(s) && RowsMarked(s) && key in s.routes
    requires row.escalatedBy == s.routes[key].row.escalatedBy && RowKey(row) == key
    ensures RowsMarked(Queued(s, key, row))
  {
  }

  lemma WorkflowAgentMarked(s: State, agent: string, run: Option<string>, end: End, model: Option<string>, now: int)
    requires OneRowEach(s) && Marked(s) && agent !in s.byAgent
    ensures Marked(FinishWorkflowAgent(s, agent, run, end, model, now))
  {
    var key := WF + agent;
    var r := RouteEntry(WorkflowRow(agent, model, run, now), "unknown", "", now, false);
    var s1 := s.(byAgent := s.byAgent[agent := key]);
    assert Keys(s1) == Keys(s);
    forall a | WF + a == key ensures a in s1.byAgent { WorkflowKeysInjective(a, agent); }
    AddRouteOnce(s1, key, r);
    AddWorkflowMarked(s1, key, r);
    FinishMarked(AddRoute(s1, key, r), key, Dispatch(Some(agent), model, true, false), end);
  }

  lemma AddWorkflowMarked(s: State, key: string, r: RouteEntry)
    requires Marked(s) && key !in s.issued && WF <= key && r.desc == ""
    requires forall k :: k in Keys(s) ==> k in s.issued
    ensures Marked(AddRoute(s, key, r))
  {
    forall j | 0 <= j < |s.rows| ensures RowKey(s.rows[j]) != key { BufferedKey(s, j); }
  }

  lemma KnownAgentMarked(s: State, agent: string, end: End, now: int)
    requires OneRowEach(s) && Marked(s) && s.clock <= now && agent in s.byAgent
    ensures Marked(OnComplete(s, agent, end, 0, None, now))
  {
    var s0 := s.(clock := now);
    ClockMarked(s, now);
    SameAccounts(s, s0);
    var key := s.byAgent[agent];
    if key in s.dispatches { FinishMarked(s0, key, s.dispatches[key], end); }
  }

  lemma AdvanceMarked(s: State, s': State)
    requires OneRowEach(s) && Marked(s) && s.clock <= s'.clock && s' == s.(clock := s'.clock, workflows := s'.workflows)
    ensures OneRowEach(s') && Marked(s')
  {
    SameAccounts(s, s');
    ClockMarked(s, s'.clock);
    SameMarks(s.(clock := s'.clock), s');
  }

  lemma StrangerMarked(s: State, agent: string, end: End, durationMs: int, model: Option<string>, now: int)
    requires OneRowEach(s) && Marked(s) && s.clock <= now && agent !in s.byAgent
    ensures Marked(OnComplete(s, agent, end, durationMs, model, now))
  {
    var s1 := s.(clock := now, workflows := Unexpired(s.workflows, now));
    AdvanceMarked(s, s1);
    var runs := RunsBefore(s1.workflows, now - durationMs);
    WorkflowAgentMarked(s1, agent, if |runs| == 1 then Some(runs[0].toolUseId) else None, end, model, now);
  }

  lemma CompleteMarked(s: State, e: Event)
    requires OneRowEach(s) && Marked(s) && e.Completed? && Fresh(s, e)
    ensures Marked(Next(s, e))
  {
    if e.agent in s.byAgent {
      KnownAgentMarked(s, e.agent, e.end, e.now);
    } else {
      StrangerMarked(s, e.agent, e.end, e.durationMs, e.model, e.now);
    }
  }

  lemma EndMarked(s: State)
    requires OneRowEach(s) && Marked(s)
    ensures Marked(AtEnd(s))
  {
    var s' := AtEnd(s);
    PendingAgree(s.routeOrder, s.routes);
    var ks := PendingKeys(s.routeOrder, s.routes);
    forall i, j | 0 <= i < |s'.spawns| && 0 <= j < |s'.rows| && RowKey(s'.rows[j]) == s'.spawns[i].key
      ensures s'.rows[j].escalatedBy == Escalator(s'.spawns, i, |s'.spawns|)
    {
      if j >= |s.rows| {
        assert ks[j - |s.rows|] in s.routes;
      }
    }
  }

  lemma TakeMarked(s: State)
    requires Marked(s)
    ensures Marked(TakeRows(s))
  {
    forall i, j | 0 <= i < |s.spawns| && 0 <= j < |TakeRows(s).taken| && RowKey(TakeRows(s).taken[j].row) == s.spawns[i].key
      ensures i < TakeRows(s).taken[j].spawned <= |s.spawns|
      ensures TakeRows(s).taken[j].row.escalatedBy == Escalator(s.spawns, i, TakeRows(s).taken[j].spawned)
    {
      if j >= |s.taken| { assert TakeRows(s).taken[j] == Taken(s.rows[j - |s.taken|], |s.spawns|); }
    }
  }

  lemma {:induction false} MarkedRun(es: seq<Event>)
    requires FreshRun(es)
    ensures Marked(Run(es))
  {
    if es != [] {
      var s := Run(es[..|es| - 1]);
      MarkedRun(es[..|es| - 1]);
      OneRowRun(es[..|es| - 1]);
      match es[|es| - 1]
      case Spawned(_, _, _, _, _, _) => SpawnMarked(s, es[|es| - 1]);
      case Completed(_, _, _, _, _) => CompleteMarked(s, es[|es| - 1]);
      case SessionEnd => EndMarked(s);
      case Take => TakeMarked(s);
      case WorkflowStarted(run, now) =>
        ClockMarked(s, now);
        SameMarks(s.(clock := now), s.(clock := now, workflows := SetLaunch(s.workflows, run, now)));
    }
  }

  /**
   * Over every run, a buffered row of a spawn is marked exactly when the full history of accepted
   * spawns holds a later one that raises it, and the mark names the first such spawn. A row already
   * taken carries what was so when it was taken. No pruning, trimming or session end shows in this.
   */
  lemma MarksAreExact(es: seq<Event>, i: nat)
    requires FreshRun(es) && i < |Run(es).spawns|
    ensures var s := Run(es); var sp := s.spawns;
      forall j :: 0 <= j < |s.rows| && RowKey(s.rows[j]) == sp[i].key ==>
        && (s.rows[j].escalatedBy.Some? <==> exists m :: i < m < |sp| && Raises(sp[i], sp[m]))
        && s.rows[j].escalatedBy == Escalator(sp, i, |sp|)
    ensures var s := Run(es); var sp := s.spawns;
      forall j :: 0 <= j < |s.taken| && RowKey(s.taken[j].row) == sp[i].key ==>
        && i < s.taken[j].spawned <= |sp|
        && (s.taken[j].row.escalatedBy.Some? <==> exists m :: i < m < s.taken[j].spawned && Raises(sp[i], sp[m]))
        && s.taken[j].row.escalatedBy == Escalator(sp, i, s.taken[j].spawned)
  {
    MarkedRun(es);
    BufferedMarks(Run(es), i);
    TakenMarks(Run(es), i);
  }

  lemma BufferedMarks(s: State, i: nat)
    requires RowsMarked(s) && i < |s.spawns|
    ensures forall j :: 0 <= j < |s.rows| && RowKey(s.rows[j]) == s.spawns[i].key ==>
      && (s.rows[j].escalatedBy.Some? <==> exists m :: i < m < |s.spawns| && Raises(s.spawns[i], s.spawns[m]))
      && s.rows[j].escalatedBy == Escalator(s.spawns, i, |s.spawns|)
  {
  }

  lemma TakenMarks(s: State, i: nat)
    requires RowsMarked(s) && i < |s.spawns|
    ensures forall j :: 0 <= j < |s.taken| && RowKey(s.taken[j].row) == s.spawns[i].key ==>
      && i < s.taken[j].spawned <= |s.spawns|
      && (s.taken[j].row.escalatedBy.Some? <==> exists m :: i < m < s.taken[j].spawned && Raises(s.spawns[i], s.spawns[m]))
      && s.taken[j].row.escalatedBy == Escalator(s.spawns, i, s.taken[j].spawned)
  {
  }

  ghost predicate Buffered(s: State, r: Row) {
    exists j: nat :: j < |s.rows| && s.rows[j] == r
  }

  ghost predicate TakenWith(s: State, k: string) {
    exists j: nat :: j < |s.taken| && RowKey(s.taken[j].row) == k
  }

  /**
   * A finished entry that is still held has its row in the buffer, unless a flush took it, and every
   * buffered row of a held entry is the row that entry has now.
   */
  lemma HeldRowIsCurrent(es: seq<Event>, k: string)
    requires FreshRun(es) && k in Run(es).routes
    ensures var s := Run(es);
      s.routes[k].done <==> Buffered(s, s.routes[k].row) || TakenWith(s, k)
    ensures var s := Run(es);
      forall j: nat :: j < |s.rows| && RowKey(s.rows[j]) == k ==> s.routes[k].done && s.rows[j] == s.routes[k].row
  {
    MarkedRun(es);
    OneRowRun(es);
    var s := Run(es);
    forall j: nat | j < |s.rows| && RowKey(s.rows[j]) == k
      ensures s.routes[k].done && s.rows[j] == s.routes[k].row
    {
      RowOfEntry(s, j);
    }
    KeyIsOut(s, k);
  }

  /** A key is among the rows ever buffered exactly when a row with it is in the buffer or was taken. */
  lemma KeyIsOut(s: State, k: string)
    ensures k in Keys(s) <==> (exists j: nat :: j < |s.rows| && RowKey(s.rows[j]) == k) || TakenWith(s, k)
  {
    if k in Keys(s) {
      var j: nat :| j < |Keys(s)| && Keys(s)[j] == k;
      if j < |s.taken| {
        assert RowKey(s.taken[j].row) == k;
      } else {
        assert RowKey(s.rows[j - |s.taken|]) == k;
      }
    }
    forall j: nat | j < |s.rows| ensures RowKey(s.rows[j]) in Keys(s) { BufferedKey(s, j); }
    forall j: nat | j < |s.taken| ensures RowKey(s.taken[j].row) in Keys(s) { TakenKey(s, j); }
  }

  // ---------------------------------------------------------------- outcomes

  /** Every pending entry is still 'async'. */
  ghost predicate PendingAsync(s: State) {
    forall k :: k in s.routes && !s.routes[k].done ==> s.routes[k].row.outcome == Async
  }

  lemma AsyncNext(s: State, e: Event)
    requires PendingAsync(s)
    ensures PendingAsync(Next(s, e))
  {
    match e
    case Spawned(_, _, _, _, _, _) => AsyncSpawn(s, e);
    case Completed(_, _, _, _, _) => AsyncComplete(s, e);
    case _ =>
  }

  lemma AsyncSpawn(s: State, e: Event)
    requires PendingAsync(s) && e.Spawned?
    ensures PendingAsync(Next(s, e))
  {
  }

  lemma AsyncComplete(s: State, e: Event)
    requires PendingAsync(s) && e.Completed?
    ensures PendingAsync(Next(s, e))
  {
  }

  lemma {:induction false} AsyncRun(es: seq<Event>)
    requires FreshRun(es)
    ensures PendingAsync(Run(es))
  {
    if es != [] {
      AsyncRun(es[..|es| - 1]);
      OneRowRun(es[..|es| - 1]);
      AsyncNext(Run(es[..|es| - 1]), es[|es| - 1]);
    }
  }

  /** How row `r` may have changed when the buffer went from one step to the next: only by a mark. */
  predicate SameButMark(r: Row, r': Row) {
    r' == r.(escalatedBy := r'.escalatedBy)
  }

  /** New rows come only from a completion, with its outcome, or a session end, as 'async'; old ones change only in their mark. */
  ghost predicate RowsFollow(s: State, s': State, e: Event) {
    && |s.rows| <= |s'.rows|
    && (forall j :: 0 <= j < |s.rows| ==> SameButMark(s.rows[j], s'.rows[j]))
    && (forall j :: |s.rows| <= j < |s'.rows| ==>
          || (e.Completed? && |s'.rows| == |s.rows| + 1 && s'.rows[j].outcome == OutcomeOf(e.end))
          || (e == SessionEnd && s'.rows[j].outcome == Async))
  }

  /**
   * One step buffers a new row only by a completion, with that completion's outcome, or by a session
   * end, as 'async'; the rows already buffered keep everything but their mark.
   */
  lemma RowsGetTheirOutcome(es: seq<Event>, e: Event)
    requires FreshRun(es) && e != Take
    ensures RowsFollow(Run(es), Next(Run(es), e), e)
  {
    AsyncRun(es);
    RowsStep(Run(es), e);
  }

  lemma FinishRows(s: State, key: string, d: Dispatch, end: End)
    ensures var s' := FinishRun(s, key, d, end);
      s'.rows == s.rows || (|s'.rows| == |s.rows| + 1 && s.rows <= s'.rows && s'.rows[|s.rows|].outcome == OutcomeOf(end))
  {
  }

  lemma SpawnRows(s: State, e: Event)
    requires e.Spawned?
    ensures |Next(s, e).rows| == |s.rows| && forall j :: 0 <= j < |s.rows| ==> SameButMark(s.rows[j], Next(s, e).rows[j])
  {
  }

  lemma CompletionRows(s: State, e: Event)
    requires e.Completed?
    ensures var s' := Next(s, e);
      s'.rows == s.rows || (|s'.rows| == |s.rows| + 1 && s.rows <= s'.rows && s'.rows[|s.rows|].outcome == OutcomeOf(e.end))
  {
    var s0 := s.(clock := e.now);
    if e.agent in s.byAgent {
      var key := s.byAgent[e.agent];
      if key in s.dispatches { FinishRows(s0, key, s.dispatches[key], e.end); }
    } else {
      var key := WF + e.agent;
      var s1 := s0.(workflows := Unexpired(s.workflows, e.now));
      var runs := RunsBefore(s1.workflows, e.now - e.durationMs);
      var run := if |runs| == 1 then Some(runs[0].toolUseId) else None;
      var r := RouteEntry(WorkflowRow(e.agent, e.model, run, e.now), "unknown", "", e.now, false);
      FinishRows(AddRoute(s1.(byAgent := s1.byAgent[e.agent := key]), key, r), key,
                 Dispatch(Some(e.agent), e.model, true, false), e.end);
    }
  }

  lemma EndRows(s: State)
    requires PendingAsync(s)
    ensures s.rows <= AtEnd(s).rows
    ensures forall j :: |s.rows| <= j < |AtEnd(s).rows| ==> AtEnd(s).rows[j].outcome == Async
  {
    PendingAgree(s.routeOrder, s.routes);
    var ks := PendingKeys(s.routeOrder, s.routes);
    assert forall j :: 0 <= j < |ks| ==> ks[j] in ks;
  }

  lemma RowsStep(s: State, e: Event)
    requires PendingAsync(s) && e != Take
    ensures RowsFollow(s, Next(s, e), e)
  {
    var s' := Next(s, e);
    if e.Spawned? {
      SpawnRows(s, e);
    } else {
      if e.Completed? { CompletionRows(s, e); } else if e == SessionEnd { EndRows(s); }
      assert forall j :: 0 <= j < |s.rows| ==> s'.rows[j] == s.rows[j];
    }
  }
}
