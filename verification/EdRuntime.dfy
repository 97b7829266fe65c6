/**
 * The same ledger in the form plugin/hooks/ed.ts gives it: turn objects updated in place, shared
 * between the queue, the open slot, the closing list and the agent map of the runtime. Every method
 * is proved to do to the abstract state what the step of EdLedger of the same name does.
 */
module EdRuntime {
  import opened Base
  import opened EdLedger

  class EdState {
    ghost const id: nat  // its place among all turns ever created
    const turn: nat
    const arm: Arm
    const key: int
    const ts: int
    var tsStart: Option<int>
    var turnId: Option<string>
    var fanout: bool
    var tokMain: int
    var tokSub: int
    var agents: set<AgentId>
    var spawned: set<AgentId>
    var open: int
    var done: bool
    var tsEnd: Option<int>
    var aborted: bool
    var durationMs: Option<int>

    constructor (ghost id: nat, turn: nat, arm: Arm, key: int, now: int)
      ensures this.id == id && Value() == NewTurn(turn, arm, key, now)
    {
      this.id, this.turn, this.arm, this.key, ts := id, turn, arm, key, now;
      tsStart, turnId, fanout, tokMain, tokSub := None, None, false, 0, 0;
      agents, spawned, open := {}, {}, 0;
      done, tsEnd, aborted, durationMs := false, None, false, None;
    }

    function Value(): Turn
      reads this
    {
      Turn(turn, arm, key, ts, tsStart, turnId, fanout, tokMain, tokSub, agents, spawned, open, done, tsEnd, aborted, durationMs)
    }
  }

  class Runtime {
    const cfg: Config
    var sessionId: string
    var edTurns: nat
    var edQueue: seq<EdState>
    var ed: EdState?
    var edClosing: seq<EdState>
    var edAgents: map<AgentId, EdState>
    var file: seq<Row>  // ed_arms.jsonl

    /** The abstract state: an object is represented by its place in `all`, the turns ever created. */
    ghost var model: State
    ghost var all: seq<EdState>

    constructor (cfg: Config)
      ensures this.cfg == cfg && Valid() && model == Init && file == []
    {
      this.cfg := cfg;
      sessionId, edTurns, edQueue, ed, edClosing, edAgents, file := "", 0, [], null, [], map[], [];
      all, model := [], Init;
    }

    ghost predicate Valid()
      reads this, all
    {
      && sessionId == model.session && edTurns == model.count
      && |model.turns| == |all|
      && (forall i :: 0 <= i < |all| ==> all[i].id == i && model.turns[i] == all[i].Value())
      && Couples(all, edQueue, model.queue)
      && (if ed == null then model.open == None else Known(all, ed) && model.open == Some(ed.id))
      && Couples(all, edClosing, model.closing)
      && CouplesAgents(all, edAgents, model.agents)
      && file == Stored(model.log)
    }

    /** The model after one turn object changed. */
    ghost function Touched(t: EdState, v: Turn): State
      requires Valid() && Known(all, t)
      reads this, all
    {
      model.(turns := model.turns[t.id := v])
    }

    method Bind(t: EdState, turnId: string, now: int)
      requires Valid() && Known(all, t)
      modifies t, `model
      ensures Valid() && model == old(Touched(t, t.Value().(turnId := Some(turnId), tsStart := Some(now))))
    {
      t.turnId := Some(turnId);
      t.tsStart := Some(now);
      model := old(Touched(t, t.Value().(turnId := Some(turnId), tsStart := Some(now))));
    }

    method AddSpawned(t: EdState, id: AgentId)
      requires Valid() && Known(all, t)
      modifies t, `model
      ensures Valid()
      ensures model == old(Touched(t, t.Value().(agents := t.agents + {id}, spawned := t.spawned + {id}, open := t.open + 1)))
    {
      ghost var v := t.Value().(agents := t.agents + {id}, spawned := t.spawned + {id}, open := t.open + 1);
      t.agents := t.agents + {id};
      t.spawned := t.spawned + {id};
      t.open := t.open + 1;
      assert t.Value() == v;
      model := model.(turns := model.turns[t.id := v]);
    }

    method AddMain(t: EdState, tokens: int)
      requires Valid() && Known(all, t)
      modifies t, `model
      ensures Valid() && model == old(Touched(t, t.Value().(tokMain := t.tokMain + tokens)))
    {
      t.tokMain := t.tokMain + tokens;
      model := old(Touched(t, t.Value().(tokMain := t.tokMain + tokens)));
    }

    method AddSub(t: EdState, tokens: int)
      requires Valid() && Known(all, t)
      modifies t, `model
      ensures Valid() && model == old(Touched(t, t.Value().(tokSub := t.tokSub + tokens)))
    {
      t.tokSub := t.tokSub + tokens;
      model := old(Touched(t, t.Value().(tokSub := t.tokSub + tokens)));
    }

    method AddAgent(t: EdState, id: AgentId, tokens: int)
      requires Valid() && Known(all, t)
      modifies t, `model
      ensures Valid()
      ensures model == old(Touched(t, t.Value().(agents := t.agents + {id}, tokSub := t.tokSub + tokens)))
    {
      t.agents := t.agents + {id};
      t.tokSub := t.tokSub + tokens;
      model := old(Touched(t, t.Value().(agents := t.agents + {id}, tokSub := t.tokSub + tokens)));
    }

    method CountDown(t: EdState)
      requires Valid() && Known(all, t)
      modifies t, `model
      ensures Valid() && model == old(Touched(t, t.Value().(open := if t.open - 1 > 0 then t.open - 1 else 0)))
    {
      t.open := if t.open - 1 > 0 then t.open - 1 else 0;
      model := old(Touched(t, t.Value().(open := if t.open - 1 > 0 then t.open - 1 else 0)));
    }

    method Finish(t: EdState, isAborted: bool, durationMs: int, now: int)
      requires Valid() && Known(all, t)
      modifies t, `model
      ensures Valid() && model == old(Touched(t, Finished(t.Value(), isAborted, durationMs, now)))
    {
      ghost var v := Finished(t.Value(), isAborted, durationMs, now);
      t.done := true;
      t.tsEnd := Some(now);
      t.aborted := isAborted;
      t.durationMs := Some(durationMs);
      assert t.Value() == v;
      model := model.(turns := model.turns[t.id := v]);
    }

    /** `prompt.submit`: the arm of the next turn, or nothing when this prompt gets none. */
    method SubmitPrompt(text: string, midTurn: bool, ownOrigin: bool, now: int) returns (arm: Option<Arm>)
      requires Valid()
      modifies this
      ensures Valid() && old(all) <= all && forall i :: |old(all)| <= i < |all| ==> fresh(all[i])
      ensures model == DoSubmit(old(model), cfg, text, midTurn, ownOrigin, now)
      ensures arm.Some? <==> Admits(old(model), cfg, text, midTurn, ownOrigin)
      ensures arm.Some? ==> arm.value == model.turns[|old(model).turns|].arm
    {
      if !cfg.ed || sessionId == "" || cfg.holdout(sessionId) || !IsUserPrompt(text, midTurn, ownOrigin) {
        return None;
      }
      var t := Create(cfg.hash(text), now);
      Enqueue(t);
      return Some(t.arm);
    }

    method Create(key: int, now: int) returns (t: EdState)
      requires Valid()
      modifies `edTurns, `all, `model
      ensures Valid() && fresh(t) && all == old(all) + [t] && t.id == |old(all)|
      ensures var n := old(model).count + 1; var v := NewTurn(n, cfg.armOf(sessionId, n), key, now);
        t.Value() == v && model == old(model).(count := n, turns := old(model).turns + [v])
    {
      edTurns := edTurns + 1;
      t := new EdState(|all|, edTurns, cfg.armOf(sessionId, edTurns), key, now);
      all := all + [t];
      model := model.(count := edTurns, turns := model.turns + [t.Value()]);
    }

    method Enqueue(t: EdState)
      requires Valid() && Known(all, t)
      modifies `edQueue, `model
      ensures Valid() && model == old(model).(queue := KeepNewest(old(model).queue + [t.id], MAX_QUEUE))
    {
      CouplesCut(all, edQueue + [t], model.queue + [t.id]);
      edQueue := edQueue + [t];
      if |edQueue| > MAX_QUEUE { edQueue := edQueue[|edQueue| - MAX_QUEUE..]; }
      model := model.(queue := KeepNewest(model.queue + [t.id], MAX_QUEUE));
    }

    /** `reidentify`: only a session that has no id gets one. */
    method Identify(id: string)
      requires Valid()
      modifies `sessionId, `model
      ensures Valid() && model == DoIdentify(old(model), id)
    {
      if sessionId == "" { sessionId := id; }
      model := DoIdentify(model, id);
    }

    method DropPrompt(text: string)
      requires Valid()
      modifies `edQueue, `model
      ensures Valid() && InRange(old(model)) && model == DoDrop(old(model), cfg, text)
    {
      var i := FindLastKey(cfg.hash(text));
      if i == |edQueue| { return; }
      CouplesWithout(all, edQueue, model.queue, i);
      edQueue := edQueue[..i] + edQueue[i + 1..];
      model := model.(queue := model.queue[..i] + model.queue[i + 1..]);
    }

    /** The place of the last queued turn with this key, or the length of the queue. */
    method FindLastKey(k: int) returns (i: nat)
      requires Valid()
      ensures InRange(model) && i == LastWithKey(model.turns, model.queue, k)
    {
      ghost var last := LastWithKey(model.turns, model.queue, k);
      i := |edQueue|;
      while i > 0
        invariant 0 <= i <= |edQueue|
        invariant forall j :: i <= j < |edQueue| ==> edQueue[j].key != k
      {
        i := i - 1;
        if edQueue[i].key == k {
          assert last == i;
          return;
        }
      }
      i := |edQueue|;
      assert last == |edQueue|;
    }

    method StartTurn(text: string, turnId: string, now: int)
      requires Valid()
      modifies this, all
      ensures Valid() && all == old(all) && InRange(old(model)) && model == DoStart(old(model), cfg, text, turnId, now)
    {
      if !cfg.ed || Blank(text) { return; }
      var i := FindKey(cfg.hash(text));
      if i == |edQueue| { return; }
      var t := edQueue[i];
      Bind(t, turnId, now);
      OpenQueued(i);
    }

    /** The queue loses its entries up to this one, whose turn becomes the open one. */
    method OpenQueued(i: nat)
      requires Valid() && i < |edQueue|
      modifies `edQueue, `ed, `model
      ensures Valid() && i < |old(model).queue| && old(model).queue[i] < |old(model).turns|
      ensures var q := old(model).queue[i];
        model == old(model).(queue := old(model).queue[i + 1..], open := Some(q), bound := old(model).bound + [old(model).turns[q].turn])
    {
      ed := edQueue[i];
      edQueue := edQueue[i + 1..];
      model := model.(queue := model.queue[i + 1..], open := Some(ed.id), bound := model.bound + [ed.turn]);
    }

    /** The place of the first queued turn with this key, or the length of the queue. */
    method FindKey(k: int) returns (i: nat)
      requires Valid()
      ensures InRange(model) && i == FirstWithKey(model.turns, model.queue, k)
    {
      i := 0;
      while i < |edQueue| && edQueue[i].key != k
        invariant i <= |edQueue|
        invariant forall j :: 0 <= j < i ==> edQueue[j].key != k
      {
        i := i + 1;
      }
    }

    method NoteCompose(offersFanout: bool)
      requires Valid()
      modifies `model, all
      ensures Valid() && InRange(old(model)) && model == DoCompose(old(model), offersFanout)
    {
      model := DoCompose(model, offersFanout);
      if ed == null || ed.done { return; }
      if offersFanout { ed.fanout := true; }
    }

    method NoteEdSpawn(agentId: Option<AgentId>)
      requires Valid()
      modifies this, all
      ensures Valid() && all == old(all) && InRange(old(model)) && model == DoSpawn(old(model), agentId)
    {
      if ed == null || ed.done || agentId.None? || agentId.value == "" || agentId.value in ed.spawned { return; }
      AddSpawned(ed, agentId.value);
      edAgents := edAgents[agentId.value := ed];
      model := model.(agents := model.agents[agentId.value := ed.id]);
    }

    method NoteEdTokens(agentId: Option<AgentId>, tokens: int)
      requires Valid()
      modifies this, all
      ensures Valid() && all == old(all) && InRange(old(model)) && model == DoStep(old(model), agentId, tokens)
    {
      if agentId.Some? {
        NoteAgentTokens(agentId.value, tokens);
      } else if ed != null && !ed.done {
        AddMain(ed, tokens);
      }
    }

    method NoteAgentTokens(id: AgentId, tokens: int)
      requires Valid()
      modifies this, all
      ensures Valid() && all == old(all) && InRange(old(model)) && model == DoStep(old(model), Some(id), tokens)
    {
      if id in edAgents {
        AddSub(edAgents[id], tokens);
      } else if ed != null && !ed.done && id != "" {
        BindStranger(ed, id, tokens);
      }
    }

    /** An agent nobody spawned counts for the open turn, and is bound to it. */
    method BindStranger(t: EdState, id: AgentId, tokens: int)
      requires Valid() && Known(all, t)
      modifies t, `edAgents, `model
      ensures Valid()
      ensures model == old(Touched(t, t.Value().(agents := t.agents + {id}, tokSub := t.tokSub + tokens))).(agents := old(model).agents[id := t.id])
    {
      AddAgent(t, id, tokens);
      edAgents := edAgents[id := t];
      model := model.(agents := model.agents[id := t.id]);
    }

    /** `write`: unbind what is left of the turn, then append its row; an append that fails drops the row. */
    method WriteTurn(t: EdState, ok: bool)
      requires Valid() && Known(all, t)
      modifies `edAgents, `file, `model
      ensures Valid() && InRange(old(model)) && model == Write(old(model), t.id, ok)
    {
      edAgents := Unbound(t);
      model := model.(agents := model.agents - BoundTo(model, t.id));
      AppendRow(t, ok);
    }

    method AppendRow(t: EdState, ok: bool)
      requires Valid() && Known(all, t)
      modifies `file, `model
      ensures Valid() && InRange(old(model))
      ensures model == old(model).(log := old(model).log + [Entry(t.id, RowOf(t.Value(), sessionId), ok)])
    {
      if ok { file := file + [RowOf(t.Value(), sessionId)]; }
      model := model.(log := model.log + [Entry(t.id, RowOf(t.Value(), sessionId), ok)]);
      assert model.log[..|model.log| - 1] == old(model).log;
    }

    /** The agent map without those agents of the turn that are still bound to it. */
    method Unbound(t: EdState) returns (m: map<AgentId, EdState>)
      requires Valid() && Known(all, t)
      ensures m.Keys == edAgents.Keys - BoundTo(model, t.id)
      ensures forall a :: a in m ==> m[a] == edAgents[a]
    {
      m := edAgents;
      var rest := t.agents;
      while rest != {}
        invariant rest <= t.agents
        invariant m.Keys <= edAgents.Keys && forall a :: a in m ==> m[a] == edAgents[a]
        invariant forall a :: a in edAgents ==> (a !in m <==> a in t.agents && a !in rest && edAgents[a] == t)
        decreases |rest|
      {
        var a :| a in rest;
        rest := rest - {a};
        if a in m && m[a] == t { m := m - {a}; }
      }
    }

    method CompleteAgent(id: AgentId, oks: seq<bool>)
      requires Valid()
      modifies this, all
      ensures Valid() && all == old(all) && InRange(old(model)) && model == EdLedger.CompleteAgent(old(model), id, oks)
    {
      if id !in edAgents { return; }
      var t := edAgents[id];
      Forget(id);
      if id !in t.spawned { return; }
      CountDown(t);
      if t.done && t.open == 0 { WriteClosing(t, AppendOk(oks, 0)); }
    }

    method WriteClosing(t: EdState, ok: bool)
      requires Valid() && Known(all, t)
      modifies `edClosing, `edAgents, `file, `model
      ensures Valid() && InRange(old(model))
      ensures model == Write(old(model).(closing := Without(old(model).closing, t.id)), t.id, ok)
    {
      LeaveClosing(t);
      WriteTurn(t, ok);
    }

    method Forget(id: AgentId)
      requires Valid()
      modifies `edAgents, `model
      ensures Valid() && InRange(old(model)) && model == old(model).(agents := old(model).agents - {id})
    {
      edAgents := edAgents - {id};
      model := model.(agents := model.agents - {id});
    }

    method LeaveClosing(t: EdState)
      requires Valid() && Known(all, t)
      modifies `edClosing, `model
      ensures Valid() && InRange(old(model)) && model == old(model).(closing := Without(old(model).closing, t.id))
    {
      edClosing := OthersClosing(t);
      model := model.(closing := Without(model.closing, t.id));
    }

    /** The closing turns but this one. */
    method OthersClosing(t: EdState) returns (kept: seq<EdState>)
      requires Valid() && Known(all, t)
      ensures Couples(all, kept, Without(model.closing, t.id))
    {
      kept := [];
      var i := 0;
      while i < |edClosing|
        invariant i <= |edClosing| && Couples(all, kept, Without(model.closing[..i], t.id))
      {
        WithoutSnoc(model.closing, i, t.id);
        if edClosing[i] != t { kept := kept + [edClosing[i]]; }
        i := i + 1;
      }
      assert model.closing[..i] == model.closing;
    }

    method CompleteMain(turnId: string, isAborted: bool, durationMs: int, now: int, oks: seq<bool>)
      requires Valid()
      modifies this, all
      ensures Valid() && all == old(all) && InRange(old(model))
      ensures model == EdLedger.CompleteMain(old(model), turnId, isAborted, durationMs, now, oks)
    {
      if ed == null || ed.turnId != Some(turnId) { return; }
      var t := ed;
      LeaveOpen();
      Finish(t, isAborted, durationMs, now);
      if t.open == 0 {
        WriteTurn(t, AppendOk(oks, 0));
        return;
      }
      EnterClosing(t);
      if |edClosing| > MAX_CLOSING {
        ShiftClosing(AppendOk(oks, 0));
      }
    }

    method LeaveOpen()
      requires Valid()
      modifies `ed, `model
      ensures Valid() && model == old(model).(open := None)
    {
      ed := null;
      model := model.(open := None);
    }

    method EnterClosing(t: EdState)
      requires Valid() && Known(all, t)
      modifies `edClosing, `model
      ensures Valid() && model == old(model).(closing := old(model).closing + [t.id]) && |edClosing| == |model.closing|
    {
      edClosing := edClosing + [t];
      model := model.(closing := model.closing + [t.id]);
    }

    /** The oldest closing turn is taken out and written. */
    method ShiftClosing(ok: bool)
      requires Valid() && edClosing != []
      modifies `edClosing, `edAgents, `file, `model
      ensures Valid() && InRange(old(model)) && old(model).closing != [] && model == WriteOldest(old(model), ok)
    {
      var t := edClosing[0];
      edClosing := edClosing[1..];
      model := model.(closing := model.closing[1..]);
      WriteTurn(t, ok);
    }

    method CompleteEd(agentId: Option<AgentId>, turnId: string, isAborted: bool, durationMs: int, now: int, oks: seq<bool>)
      requires Valid()
      modifies this, all
      ensures Valid() && all == old(all) && InRange(old(model))
      ensures model == Next(old(model), cfg, Complete(agentId, turnId, isAborted, durationMs, now, oks))
    {
      if agentId.Some? {
        CompleteAgent(agentId.value, oks);
      } else {
        CompleteMain(turnId, isAborted, durationMs, now, oks);
      }
    }

    /** `flushEd`, with no other event between its writes. */
    method FlushEd(oks: seq<bool>)
      requires Valid()
      modifies `edClosing, `edAgents, `file, `model
      ensures Valid() && InRange(old(model)) && model == DoFlush(old(model), oks)
    {
      var rest := oks;
      while edClosing != []
        invariant Valid() && InRange(model)
        invariant DoFlush(model, rest) == DoFlush(old(model), oks)
        decreases |edClosing|
      {
        ShiftClosing(AppendOk(rest, 0));
        rest := if rest == [] then [] else rest[1..];
      }
    }

    /** `endSession` and `endEd`. */
    method EndEd()
      requires Valid()
      modifies this
      ensures Valid() && all == old(all) && model == DoReset(old(model))
    {
      sessionId, edTurns, ed := "", 0, null;
      edQueue, edClosing, edAgents := [], [], map[];
      model := DoReset(model);
    }
  }

  ghost predicate Known(all: seq<EdState>, t: EdState) {
    t.id < |all| && all[t.id] == t
  }

  ghost predicate Couples(all: seq<EdState>, ts: seq<EdState>, ids: seq<nat>) {
    |ids| == |ts| && forall k :: 0 <= k < |ts| ==> Known(all, ts[k]) && ids[k] == ts[k].id
  }

  lemma CouplesCut(all: seq<EdState>, ts: seq<EdState>, ids: seq<nat>)
    requires Couples(all, ts, ids) && |ts| > 0
    ensures |ts| > MAX_QUEUE ==> Couples(all, ts[|ts| - MAX_QUEUE..], KeepNewest(ids, MAX_QUEUE))
  {
  }

  lemma CouplesWithout(all: seq<EdState>, ts: seq<EdState>, ids: seq<nat>, i: nat)
    requires Couples(all, ts, ids) && i < |ts|
    ensures Couples(all, ts[..i] + ts[i + 1..], ids[..i] + ids[i + 1..])
  {
  }

  lemma WithoutSnoc(ids: seq<nat>, i: nat, x: nat)
    requires i < |ids|
    ensures Without(ids[..i + 1], x) == Without(ids[..i], x) + if ids[i] == x then [] else [ids[i]]
  {
    assert ids[..i + 1] == ids[..i] + [ids[i]];
    WithoutConcat(ids[..i], [ids[i]], x);
  }

  lemma {:induction false} WithoutConcat(xs: seq<nat>, ys: seq<nat>, x: nat)
    ensures Without(xs + ys, x) == Without(xs, x) + Without(ys, x)
  {
    if xs == [] {
      assert xs + ys == ys;
    } else {
      assert (xs + ys)[1..] == xs[1..] + ys;
      WithoutConcat(xs[1..], ys, x);
      Assoc([xs[0]], Without(xs[1..], x), Without(ys, x));
    }
  }

  ghost predicate CouplesAgents(all: seq<EdState>, m: map<AgentId, EdState>, ids: map<AgentId, nat>) {
    ids.Keys == m.Keys && forall a :: a in m ==> Known(all, m[a]) && ids[a] == m[a].id
  }

  function Stored(log: seq<Entry>): seq<Row> {
    if log == [] then []
    else Stored(log[..|log| - 1]) + if log[|log| - 1].stored then [log[|log| - 1].row] else []
  }
}
