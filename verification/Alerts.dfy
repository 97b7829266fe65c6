/**
 * Context alerts: rising edges with a delayed verdict (`_alerts_one`, `alert_rows` and `collect_alerts`
 * of src/apex_router/agent_runs.py). Times are in milliseconds.
 */
module Alerts {
  import opened Base
  import opened Sorting

  const ALERT: real := 80.0
  const CLEARED: real := 50.0
  const WINDOW: real := 1800000.0

  /** A reading of one session; either part may be missing. */
  datatype Measure = Measure(sid: Option<string>, ts: real, ctx: Option<real>)

  /** Not decided yet, cleared so long after the alert, or not cleared within the window. */
  datatype Verdict = Unknown | Acted(lag: real) | NotActed

  datatype Alert = Alert(sid: string, ts: real, ctx: real, verdict: Verdict)

  // ---------------------------------------------------------------- one session

  /** The last reading that has a value. */
  function LastCtx(ms: seq<Measure>): Option<real> {
    if ms == [] then None else if ms[|ms| - 1].ctx.Some? then ms[|ms| - 1].ctx else LastCtx(ms[..|ms| - 1])
  }

  predicate Rising(prev: Option<real>, ctx: real) {
    ctx >= ALERT && (prev.None? || prev.value < ALERT)
  }

  predicate Rises(ms: seq<Measure>, i: nat)
    requires i < |ms|
  {
    ms[i].ctx.Some? && Rising(LastCtx(ms[..i]), ms[i].ctx.value)
  }

  /** How long after `t0` the first reading below 50 % comes, looking from `j` on and no further than the window. */
  function ClearedAfter(ms: seq<Measure>, j: nat, t0: real): Option<real>
    requires j <= |ms|
    decreases |ms| - j
  {
    if j == |ms| || ms[j].ts - t0 > WINDOW then None
    else if ms[j].ctx.Some? && ms[j].ctx.value < CLEARED then Some(ms[j].ts - t0)
    else ClearedAfter(ms, j + 1, t0)
  }

  function VerdictAt(ms: seq<Measure>, i: nat, now: real): Verdict
    requires i < |ms|
  {
    var lag := ClearedAfter(ms, i + 1, ms[i].ts);
    if lag.Some? then Acted(lag.value) else if now - ms[i].ts > WINDOW then NotActed else Unknown
  }

  function AlertAt(sid: string, ms: seq<Measure>, i: nat, now: real): Alert
    requires i < |ms| && ms[i].ctx.Some?
  {
    Alert(sid, ms[i].ts, ms[i].ctx.value, VerdictAt(ms, i, now))
  }

  /** The alerts of the first `n` readings. */
  function AlertsUpTo(sid: string, ms: seq<Measure>, n: nat, now: real): seq<Alert>
    requires n <= |ms|
  {
    if n == 0 then []
    else AlertsUpTo(sid, ms, n - 1, now) + if Rises(ms, n - 1) then [AlertAt(sid, ms, n - 1, now)] else []
  }

  function AlertsOne(sid: string, ms: seq<Measure>, now: real): seq<Alert> {
    AlertsUpTo(sid, ms, |ms|, now)
  }

  predicate Below(m: Measure) {
    m.ctx.Some? && m.ctx.value < ALERT
  }

  predicate AtOrAbove(m: Measure) {
    m.ctx.Some? && m.ctx.value >= ALERT
  }

  lemma {:induction false} LastCtxIs(ms: seq<Measure>)
    ensures LastCtx(ms).None? ==> forall k :: 0 <= k < |ms| ==> ms[k].ctx.None?
    ensures LastCtx(ms).Some? ==>
      exists k :: 0 <= k < |ms| && ms[k].ctx == LastCtx(ms) && forall l :: k < l < |ms| ==> ms[l].ctx.None?
  {
    if ms != [] {
      var n := |ms| - 1;
      LastCtxIs(ms[..n]);
      if ms[n].ctx.None? && LastCtx(ms).Some? {
        var k :| 0 <= k < n && ms[..n][k].ctx == LastCtx(ms) && forall l :: k < l < n ==> ms[..n][l].ctx.None?;
        assert ms[k] == ms[..n][k];
        forall l | k < l < |ms| ensures ms[l].ctx.None? {
          assert l == n || ms[l] == ms[..n][l];
        }
      } else if ms[n].ctx.None? {
        assert forall k :: 0 <= k < n ==> ms[k] == ms[..n][k];
      } else {
        assert ms[n].ctx == LastCtx(ms);
      }
    }
  }

  /** Reading `k` is the last one with a value before reading `i`. */
  ghost predicate IsLast(ms: seq<Measure>, k: nat, i: nat)
    requires k < i <= |ms|
  {
    ms[k].ctx.Some? && forall l :: k < l < i ==> ms[l].ctx.None?
  }

  /**
   * Alerts are exactly the up-crossings: a reading raises one if and only if it is at 80 % or more and the
   * last reading with a value before it, if there is one, was below.
   */
  lemma RisesExactly(ms: seq<Measure>, i: nat)
    requires i < |ms|
    ensures Rises(ms, i) <==>
      AtOrAbove(ms[i])
      && forall k :: 0 <= k < i && IsLast(ms, k, i) ==> Below(ms[k])
  {
    LastCtxIs(ms[..i]);
    assert forall k :: 0 <= k < i ==> ms[k] == ms[..i][k];
    if LastCtx(ms[..i]).Some? {
      var k :| 0 <= k < i && ms[..i][k].ctx == LastCtx(ms[..i]) && forall l :: k < l < i ==> ms[..i][l].ctx.None?;
      assert IsLast(ms, k, i);
      forall x | 0 <= x < i && IsLast(ms, x, i) ensures x == k {
      }
    }
  }

  /** Between two alerts of a session lies a reading below 80 %. */
  lemma AlertsSeparated(ms: seq<Measure>, i: nat, j: nat)
    requires i < j < |ms| && Rises(ms, i) && Rises(ms, j)
    ensures exists k :: i < k < j && Below(ms[k])
  {
    LastCtxIs(ms[..j]);
    assert ms[..j][i] == ms[i];
    var k :| 0 <= k < j && ms[..j][k].ctx == LastCtx(ms[..j]) && forall l :: k < l < j ==> ms[..j][l].ctx.None?;
    assert ms[..j][k] == ms[k] && Below(ms[k]);
  }

  /** No crossing goes unseen: from a reading below 80 % to one at or above it some reading raises an alert. */
  lemma {:induction false} CrossingRaises(ms: seq<Measure>, k: nat, j: nat)
    requires k < j < |ms| && Below(ms[k]) && AtOrAbove(ms[j])
    ensures exists i :: k < i <= j && Rises(ms, i)
    decreases j
  {
    LastCtxIs(ms[..j]);
    assert ms[..j][k] == ms[k];
    if !Rises(ms, j) {
      var l :| 0 <= l < j && ms[..j][l].ctx == LastCtx(ms[..j]) && forall x :: l < x < j ==> ms[..j][x].ctx.None?;
      assert ms[..j][l] == ms[l] && AtOrAbove(ms[l]);
      assert l > k;
      CrossingRaises(ms, k, l);
    }
  }

  ghost predicate InTime(ms: seq<Measure>) {
    forall i, j :: 0 <= i <= j < |ms| ==> ms[i].ts <= ms[j].ts
  }

  lemma {:induction false} ClearedIs(ms: seq<Measure>, j: nat, t0: real)
    requires j <= |ms| && InTime(ms)
    ensures ClearedAfter(ms, j, t0).Some? <==>
      exists k :: j <= k < |ms| && ms[k].ctx.Some? && ms[k].ctx.value < CLEARED && ms[k].ts - t0 <= WINDOW
    decreases |ms| - j
  {
    if j < |ms| && ms[j].ts - t0 <= WINDOW && !(ms[j].ctx.Some? && ms[j].ctx.value < CLEARED) {
      ClearedIs(ms, j + 1, t0);
    }
  }

  /** An alert is decided once 30 minutes have passed, or earlier by a reading below 50 %; and only then. */
  lemma DecidedExactly(ms: seq<Measure>, i: nat, now: real)
    requires InTime(ms) && i < |ms|
    ensures !VerdictAt(ms, i, now).Unknown? <==>
      || now - ms[i].ts > 1800000.0
      || exists k :: i < k < |ms| && ms[k].ctx.Some? && ms[k].ctx.value < 50.0 && ms[k].ts - ms[i].ts <= 1800000.0
    ensures VerdictAt(ms, i, now).Acted? <==>
      exists k :: i < k < |ms| && ms[k].ctx.Some? && ms[k].ctx.value < 50.0 && ms[k].ts - ms[i].ts <= 1800000.0
  {
    ClearedIs(ms, i + 1, ms[i].ts);
  }

  // ---------------------------------------------------------------- later readings

  lemma {:induction false} ClearedStable(ms: seq<Measure>, more: seq<Measure>, j: nat, t0: real)
    requires j <= |ms|
    ensures ClearedAfter(ms, j, t0).Some? ==> ClearedAfter(ms + more, j, t0) == ClearedAfter(ms, j, t0)
    ensures (forall k :: 0 <= k < |more| ==> more[k].ts - t0 > WINDOW) ==> ClearedAfter(ms + more, j, t0) == ClearedAfter(ms, j, t0)
    decreases |ms| - j
  {
    if j < |ms| {
      assert (ms + more)[j] == ms[j];
      ClearedStable(ms, more, j + 1, t0);
    } else if more != [] {
      assert (ms + more)[j] == more[0];
    }
  }

  /** Readings later than the time of evaluation never change an alert whose verdict was known. */
  lemma VerdictStable(ms: seq<Measure>, more: seq<Measure>, i: nat, now: real, later: real)
    requires i < |ms| && now <= later && !VerdictAt(ms, i, now).Unknown?
    requires forall k :: 0 <= k < |more| ==> now <= more[k].ts
    ensures VerdictAt(ms + more, i, later) == VerdictAt(ms, i, now)
    ensures Rises(ms + more, i) <==> Rises(ms, i)
  {
    ClearedStable(ms, more, i + 1, ms[i].ts);
    assert (ms + more)[..i] == ms[..i];
  }

  // ---------------------------------------------------------------- a late reading

  /** The readings with `m` at place `p`. */
  function Inserted(ms: seq<Measure>, p: nat, m: Measure): (r: seq<Measure>)
    requires p <= |ms|
    ensures |r| == |ms| + 1 && r[p] == m
    ensures forall i :: 0 <= i < p ==> r[i] == ms[i]
    ensures forall i :: p <= i < |ms| ==> r[i + 1] == ms[i]
  {
    ms[..p] + [m] + ms[p..]
  }

  /** Where reading `i` stands then. */
  function Moved(p: nat, i: nat): nat {
    if i < p then i else i + 1
  }

  predicate Clears(m: Measure, t0: real) {
    m.ctx.Some? && m.ctx.value < CLEARED && m.ts - t0 <= WINDOW
  }

  lemma {:induction false} ClearedShift(ms: seq<Measure>, r: seq<Measure>, j: nat, t0: real)
    requires j <= |ms| && |r| == |ms| + 1 && forall i :: j <= i < |ms| ==> r[i + 1] == ms[i]
    ensures ClearedAfter(r, j + 1, t0) == ClearedAfter(ms, j, t0)
    decreases |ms| - j
  {
    if j < |ms| {
      assert r[j + 1] == ms[j];
      ClearedShift(ms, r, j + 1, t0);
    }
  }

  lemma {:induction false} ClearedNotBefore(ms: seq<Measure>, j: nat, t0: real, t: real)
    requires j <= |ms| && forall i :: j <= i < |ms| ==> t <= ms[i].ts
    ensures ClearedAfter(ms, j, t0).Some? ==> t - t0 <= ClearedAfter(ms, j, t0).value
    ensures t - t0 > WINDOW ==> ClearedAfter(ms, j, t0).None?
    decreases |ms| - j
  {
    if j < |ms| {
      ClearedNotBefore(ms, j + 1, t0, t);
    }
  }

  /** The first clearing reading after an insertion further on. */
  lemma {:induction false} ClearedInsert(ms: seq<Measure>, p: nat, m: Measure, j: nat, t0: real)
    requires j <= p <= |ms| && InTime(Inserted(ms, p, m))
    ensures var before := ClearedAfter(ms, j, t0);
      ClearedAfter(Inserted(ms, p, m), j, t0)
      == if Clears(m, t0) && (before.None? || m.ts - t0 < before.value) then Some(m.ts - t0) else before
    decreases p - j
  {
    var r := Inserted(ms, p, m);
    if j < p {
      assert r[j] == ms[j] && r[j].ts <= r[p].ts;
      ClearedInsert(ms, p, m, j + 1, t0);
    } else {
      forall i | p <= i < |ms| ensures m.ts <= ms[i].ts {
        assert r[p].ts <= r[i + 1].ts;
      }
      ClearedNotBefore(ms, p, t0, m.ts);
      ClearedShift(ms, r, p, t0);
    }
  }

  /** The reading is below 50 %, in the window of an alert at `t0`, and earlier than what decided the alert otherwise. */
  predicate Overturns(m: Measure, t0: real, v: Verdict) {
    Clears(m, t0) && (v.Acted? ==> m.ts - t0 < v.lag)
  }

  /** A reading that comes in late changes the verdict of exactly the earlier alerts it overturns, which it then clears. */
  lemma LateReadingChangesVerdict(ms: seq<Measure>, p: nat, m: Measure, i: nat, now: real)
    requires i < |ms| && p <= |ms| && InTime(Inserted(ms, p, m))
    ensures var v, v' := VerdictAt(ms, i, now), VerdictAt(Inserted(ms, p, m), Moved(p, i), now);
      && (v' != v <==> i < p && Overturns(m, ms[i].ts, v))
      && (v' != v ==> v' == Acted(m.ts - ms[i].ts))
  {
    var r := Inserted(ms, p, m);
    if i < p {
      ClearedInsert(ms, p, m, i + 1, ms[i].ts);
    } else {
      ClearedShift(ms, r, i + 1, ms[i].ts);
    }
  }

  lemma {:induction false} LastCtxConcat(a: seq<Measure>, b: seq<Measure>)
    ensures LastCtx(a + b) == if LastCtx(b).Some? then LastCtx(b) else LastCtx(a)
  {
    if b == [] {
      assert a + b == a;
    } else {
      assert (a + b)[..|a + b| - 1] == a + b[..|b| - 1];
      LastCtxConcat(a, b[..|b| - 1]);
    }
  }

  /** The first reading with a value from place `p` on. */
  ghost predicate NextValued(ms: seq<Measure>, p: nat, i: nat)
    requires i < |ms|
  {
    p <= i && ms[i].ctx.Some? && forall l :: p <= l < i ==> ms[l].ctx.None?
  }

  lemma NoneBetween(ms: seq<Measure>, p: nat, i: nat)
    requires p <= i < |ms| && ms[i].ctx.Some?
    ensures LastCtx(ms[p..i]).None? <==> NextValued(ms, p, i)
  {
    var xs := ms[p..i];
    LastCtxIs(xs);
    assert forall l :: p <= l < i ==> xs[l - p] == ms[l];
    if LastCtx(xs).Some? {
      var k :| 0 <= k < |xs| && xs[k].ctx == LastCtx(xs) && forall l :: k < l < |xs| ==> xs[l].ctx.None?;
      assert ms[p + k].ctx.Some?;
    }
  }

  lemma LastCtxInserted(ms: seq<Measure>, p: nat, m: Measure, i: nat)
    requires p <= i < |ms|
    ensures LastCtx(ms[..i]) == if LastCtx(ms[p..i]).Some? then LastCtx(ms[p..i]) else LastCtx(ms[..p])
    ensures LastCtx(Inserted(ms, p, m)[..i + 1])
         == if LastCtx(ms[p..i]).Some? then LastCtx(ms[p..i]) else if m.ctx.Some? then m.ctx else LastCtx(ms[..p])
  {
    var r := Inserted(ms, p, m);
    assert ms[..i] == ms[..p] + ms[p..i];
    assert r[..i + 1] == ms[..p] + [m] + ms[p..i];
    LastCtxConcat(ms[..p], ms[p..i]);
    LastCtxConcat(ms[..p] + [m], ms[p..i]);
    LastCtxConcat(ms[..p], [m]);
    assert [m][..0] == [];
  }

  /**
   * Which alerts a late reading makes and unmakes: its own if it is an up-crossing; that of the next reading
   * with a value is gone if the late one crosses first, and new if the late one goes below in between. All
   * others stay.
   */
  lemma LateReadingMovesAlerts(ms: seq<Measure>, p: nat, m: Measure, i: nat)
    requires i < |ms| && p <= |ms|
    ensures var r := Inserted(ms, p, m); var before := LastCtx(ms[..p]);
      && (Rises(r, p) <==> m.ctx.Some? && Rising(before, m.ctx.value))
      && (Rises(ms, i) && !Rises(r, Moved(p, i))
          <==> NextValued(ms, p, i) && AtOrAbove(ms[i]) && AtOrAbove(m) && (before.None? || before.value < ALERT))
      && (!Rises(ms, i) && Rises(r, Moved(p, i))
          <==> NextValued(ms, p, i) && AtOrAbove(ms[i]) && Below(m) && before.Some? && before.value >= ALERT)
  {
    var r := Inserted(ms, p, m);
    assert r[..p] == ms[..p];
    if i < p {
      assert r[..i] == ms[..i];
    } else if ms[i].ctx.Some? {
      NoneBetween(ms, p, i);
      LastCtxInserted(ms, p, m, i);
    }
  }

  /** A reading of the first minute that comes in after the window is over turns the verdict round. */
  lemma LateReadingTurnsVerdictRound()
    ensures var ms := [Measure(Some("s"), 0.0, Some(90.0))];
      var late := Measure(Some("s"), 60000.0, Some(40.0));
      VerdictAt(ms, 0, 2000000.0) == NotActed && VerdictAt(Inserted(ms, 1, late), 0, 2000000.0) == Acted(60000.0)
  {
    var ms := [Measure(Some("s"), 0.0, Some(90.0))];
    LateReadingChangesVerdict(ms, 1, Measure(Some("s"), 60000.0, Some(40.0)), 0, 2000000.0);
    assert ClearedAfter(ms, 1, 0.0) == None;
  }

  lemma {:induction false} AlertsUpToAre(sid: string, ms: seq<Measure>, n: nat, now: real)
    requires n <= |ms|
    ensures forall a :: a in AlertsUpTo(sid, ms, n, now) <==> exists i :: 0 <= i < n && Rises(ms, i) && a == AlertAt(sid, ms, i, now)
  {
    if n != 0 {
      AlertsUpToAre(sid, ms, n - 1, now);
    }
  }

  // ---------------------------------------------------------------- all sessions

  function OfSession(ms: seq<Measure>, sid: string): seq<Measure> {
    if ms == [] then []
    else OfSession(ms[..|ms| - 1], sid) + if ms[|ms| - 1].sid == Some(sid) then [ms[|ms| - 1]] else []
  }

  function Sessions(ms: seq<Measure>): seq<string> {
    if ms == [] then []
    else
      var before, sid := Sessions(ms[..|ms| - 1]), ms[|ms| - 1].sid;
      before + if sid.Some? && sid.value !in before then [sid.value] else []
  }

  function AlertsOf(ms: seq<Measure>, sids: seq<string>, now: real): seq<Alert> {
    if sids == [] then [] else AlertsOf(ms, sids[..|sids| - 1], now) + AlertsOne(sids[|sids| - 1], OfSession(ms, sids[|sids| - 1]), now)
  }

  predicate Earlier(a: Alert, b: Alert) {
    a.ts <= b.ts
  }

  function AlertRows(ms: seq<Measure>, now: real): seq<Alert> {
    Sort(AlertsOf(ms, Sessions(ms), now), Earlier)
  }

  lemma {:induction false} SessionsAre(ms: seq<Measure>, sid: string)
    ensures sid in Sessions(ms) <==> OfSession(ms, sid) != []
    ensures NoDup(Sessions(ms))
  {
    if ms != [] {
      var before, last := Sessions(ms[..|ms| - 1]), ms[|ms| - 1].sid;
      SessionsAre(ms[..|ms| - 1], sid);
      if last.Some? && last.value !in before { NoDupConcat(before, [last.value]); }
    }
  }

  lemma {:induction false} AlertsOfAre(ms: seq<Measure>, sids: seq<string>, now: real, a: Alert)
    ensures a in AlertsOf(ms, sids, now) <==> a.sid in sids && a in AlertsOne(a.sid, OfSession(ms, a.sid), now)
  {
    if sids != [] {
      var n := |sids| - 1;
      AlertsOfAre(ms, sids[..n], now, a);
      assert sids == sids[..n] + [sids[n]];
      AlertsUpToAre(sids[n], OfSession(ms, sids[n]), |OfSession(ms, sids[n])|, now);
    }
  }

  ghost predicate RowAt(ms: seq<Measure>, a: Alert, i: nat, now: real) {
    var own := OfSession(ms, a.sid);
    i < |own| && Rises(own, i) && a == AlertAt(a.sid, own, i, now)
  }

  /** The alert rows are those of each session, whatever else was measured. */
  lemma AlertRowsAre(ms: seq<Measure>, now: real, a: Alert)
    ensures a in AlertRows(ms, now) <==> exists i: nat :: RowAt(ms, a, i, now)
  {
    SortMembers(AlertsOf(ms, Sessions(ms), now), Earlier);
    AlertsOfAre(ms, Sessions(ms), now, a);
    SessionsAre(ms, a.sid);
    var own := OfSession(ms, a.sid);
    AlertsUpToAre(a.sid, own, |own|, now);
    if i :| 0 <= i < |own| && Rises(own, i) && a == AlertAt(a.sid, own, i, now) {
      assert RowAt(ms, a, i, now);
    }
  }

  lemma {:induction false} OfSessionConcat(ms: seq<Measure>, more: seq<Measure>, sid: string)
    ensures OfSession(ms + more, sid) == OfSession(ms, sid) + OfSession(more, sid)
  {
    if more == [] {
      assert ms + more == ms;
    } else {
      assert (ms + more)[..|ms + more| - 1] == ms + more[..|more| - 1];
      OfSessionConcat(ms, more[..|more| - 1], sid);
    }
  }

  lemma {:induction false} OfSessionIn(ms: seq<Measure>, sid: string)
    ensures forall m :: m in OfSession(ms, sid) ==> m in ms
  {
    if ms != [] {
      OfSessionIn(ms[..|ms| - 1], sid);
    }
  }

  /** A row with a known verdict is among the rows of every later evaluation. */
  lemma RowStable(ms: seq<Measure>, more: seq<Measure>, now: real, later: real, a: Alert)
    requires a in AlertRows(ms, now) && !a.verdict.Unknown? && now <= later && forall m :: m in more ==> now <= m.ts
    ensures a in AlertRows(ms + more, later)
  {
    AlertRowsAre(ms, now, a);
    var i: nat :| RowAt(ms, a, i, now);
    var own, rest := OfSession(ms, a.sid), OfSession(more, a.sid);
    OfSessionConcat(ms, more, a.sid);
    OfSessionIn(more, a.sid);
    forall k | 0 <= k < |rest| ensures now <= rest[k].ts {
      assert rest[k] in rest;
    }
    VerdictStable(own, rest, i, now, later);
    assert (own + rest)[i] == own[i];
    assert RowAt(ms + more, a, i, later);
    AlertRowsAre(ms + more, later, a);
  }

  // ---------------------------------------------------------------- collecting

  /** Readings come in and rows are written in the order of time; `store` is the file. */
  datatype Event = Observe(m: Measure) | Collect(now: real)

  datatype State = State(ms: seq<Measure>, store: seq<Alert>)

  predicate HasKey(a: Alert, sid: string, ts: real) {
    a.sid == sid && a.ts == ts
  }

  predicate SeenKey(store: seq<Alert>, sid: string, ts: real) {
    exists i :: 0 <= i < |store| && HasKey(store[i], sid, ts)
  }

  predicate Seen(store: seq<Alert>, a: Alert) {
    SeenKey(store, a.sid, a.ts)
  }

  function NewRows(store: seq<Alert>, rows: seq<Alert>): seq<Alert> {
    if rows == [] then []
    else (if !Seen(store, rows[0]) && !rows[0].verdict.Unknown? then [rows[0]] else []) + NewRows(store, rows[1..])
  }

  function Next(s: State, e: Event): State {
    match e
    case Observe(m) => s.(ms := s.ms + [m])
    case Collect(now) => s.(store := s.store + NewRows(s.store, AlertRows(s.ms, now)))
  }

  function Run(es: seq<Event>): State {
    if es == [] then State([], []) else Next(Run(es[..|es| - 1]), es[|es| - 1])
  }

  function TimeOf(e: Event): real {
    match e
    case Observe(m) => m.ts
    case Collect(now) => now
  }

  predicate InOrder(es: seq<Event>) {
    forall i, j :: 0 <= i <= j < |es| ==> TimeOf(es[i]) <= TimeOf(es[j])
  }

  lemma {:induction false} NewRowsAre(store: seq<Alert>, rows: seq<Alert>)
    ensures forall a :: a in NewRows(store, rows) <==> a in rows && !Seen(store, a) && !a.verdict.Unknown?
  {
    if rows != [] {
      NewRowsAre(store, rows[1..]);
    }
  }

  ghost predicate GivenAgain(s: State, a: Alert, later: real) {
    !a.verdict.Unknown? && a in AlertRows(s.ms, later)
  }

  /** What the file holds: decided rows, each of which every evaluation from the time `t` on gives again. */
  ghost predicate Lasting(s: State, t: real) {
    forall a, later :: a in s.store && t <= later ==> GivenAgain(s, a, later)
  }

  lemma CollectLasts(s: State, t: real, now: real)
    requires Lasting(s, t) && t <= now
    ensures Lasting(Next(s, Collect(now)), now)
  {
    var s' := Next(s, Collect(now));
    NewRowsAre(s.store, AlertRows(s.ms, now));
    forall a, later | a in s'.store && now <= later ensures GivenAgain(s', a, later) {
      if a in s.store {
        assert GivenAgain(s, a, later);
      } else {
        RowStable(s.ms, [], now, later, a);
        assert s.ms + [] == s.ms;
      }
    }
  }

  lemma ObserveLasts(s: State, t: real, m: Measure)
    requires Lasting(s, t) && t <= m.ts
    ensures Lasting(Next(s, Observe(m)), m.ts)
  {
    var s' := Next(s, Observe(m));
    forall a, later | a in s'.store && m.ts <= later ensures GivenAgain(s', a, later) {
      assert GivenAgain(s, a, m.ts);
      RowStable(s.ms, [m], m.ts, later, a);
    }
  }

  lemma StaysLasting(s: State, t: real, later: real)
    requires Lasting(s, t) && t <= later
    ensures Lasting(s, later)
  {
  }

  lemma {:induction false} RunLasts(es: seq<Event>, t: real)
    requires InOrder(es) && (es != [] ==> TimeOf(es[|es| - 1]) <= t)
    ensures Lasting(Run(es), t)
  {
    if es != [] {
      var before, e := es[..|es| - 1], es[|es| - 1];
      RunLasts(before, TimeOf(e));
      match e {
        case Observe(m) => ObserveLasts(Run(before), m.ts, m);
        case Collect(now) => CollectLasts(Run(before), now, now);
      }
      StaysLasting(Run(es), TimeOf(e), t);
    }
  }

  /**
   * A row in the file never changes: whatever is measured and collected afterwards, every later evaluation
   * gives the very row that was written.
   */
  lemma WrittenRowsNeverChange(es: seq<Event>, more: seq<Event>, later: real, a: Alert)
    requires InOrder(es + more) && (forall e :: e in es + more ==> TimeOf(e) <= later) && a in Run(es).store
    ensures a in Run(es + more).store && a in AlertRows(Run(es + more).ms, later)
  {
    StoreGrows(es, more, a);
    var all := es + more;
    if all != [] { assert all[|all| - 1] in all; }
    RunLasts(all, later);
    assert GivenAgain(Run(all), a, later);
  }

  lemma {:induction false} StoreGrows(es: seq<Event>, more: seq<Event>, a: Alert)
    requires a in Run(es).store
    ensures a in Run(es + more).store
  {
    if more == [] {
      assert es + more == es;
    } else {
      assert (es + more)[..|es + more| - 1] == es + more[..|more| - 1];
      StoreGrows(es, more[..|more| - 1], a);
    }
  }

  /**
   * Collecting leaves a row with the key of every alert decided by then. It is the alert's own row exactly if
   * that was in the file before or none with its key was.
   */
  lemma DecidedIsWritten(es: seq<Event>, now: real, a: Alert)
    requires a in AlertRows(Run(es).ms, now) && !a.verdict.Unknown?
    ensures var store, store' := Run(es).store, Run(es + [Collect(now)]).store;
      Seen(store', a) && (a in store' <==> a in store || !Seen(store, a))
  {
    RunOneMore(es, Collect(now));
    NewRowsAre(Run(es).store, AlertRows(Run(es).ms, now));
    SeenInEither(Run(es).store, NewRows(Run(es).store, AlertRows(Run(es).ms, now)), a.sid, a.ts);
    if a in NewRows(Run(es).store, AlertRows(Run(es).ms, now)) {
      InIsSeen(NewRows(Run(es).store, AlertRows(Run(es).ms, now)), a);
    }
  }

  lemma RunOneMore(es: seq<Event>, e: Event)
    ensures Run(es + [e]) == Next(Run(es), e)
  {
    assert (es + [e])[..|es|] == es;
  }

  lemma InIsSeen(xs: seq<Alert>, a: Alert)
    requires a in xs
    ensures Seen(xs, a)
  {
    var i :| 0 <= i < |xs| && xs[i] == a;
    assert HasKey(xs[i], a.sid, a.ts);
  }

  lemma SeenInEither(xs: seq<Alert>, ys: seq<Alert>, sid: string, ts: real)
    ensures SeenKey(xs + ys, sid, ts) <==> SeenKey(xs, sid, ts) || SeenKey(ys, sid, ts)
  {
    var all := xs + ys;
    if i :| 0 <= i < |xs| && HasKey(xs[i], sid, ts) { assert HasKey(all[i], sid, ts); }
    if i :| 0 <= i < |ys| && HasKey(ys[i], sid, ts) { assert HasKey(all[|xs| + i], sid, ts); }
    if i :| 0 <= i < |all| && HasKey(all[i], sid, ts) {
      assert if i < |xs| then HasKey(xs[i], sid, ts) else HasKey(ys[i - |xs|], sid, ts);
    }
  }

  // ---------------------------------------------------------------- which alert of a key is written

  /** The `m`-th event collects, and finds this alert decided. */
  ghost predicate Finds(es: seq<Event>, m: nat, a: Alert) {
    && m < |es| && es[m].Collect? && !a.verdict.Unknown?
    && a in AlertRows(Run(es[..m]).ms, es[m].now)
  }

  /** Or one with the same key. */
  ghost predicate FindsKey(es: seq<Event>, m: nat, sid: string, ts: real) {
    exists b :: HasKey(b, sid, ts) && Finds(es, m, b)
  }

  lemma FindsPrefix(es: seq<Event>, m: nat, a: Alert)
    requires m < |es| - 1
    ensures Finds(es[..|es| - 1], m, a) <==> Finds(es, m, a)
  {
    assert es[..|es| - 1][..m] == es[..m];
  }

  lemma FindsKeyPrefix(es: seq<Event>, m: nat, sid: string, ts: real)
    requires m < |es| - 1
    ensures FindsKey(es[..|es| - 1], m, sid, ts) <==> FindsKey(es, m, sid, ts)
  {
    if b :| HasKey(b, sid, ts) && Finds(es, m, b) { FindsPrefix(es, m, b); }
    if b :| HasKey(b, sid, ts) && Finds(es[..|es| - 1], m, b) { FindsPrefix(es, m, b); }
  }

  ghost predicate SomeFindsKey(es: seq<Event>, sid: string, ts: real) {
    exists m: nat :: FindsKey(es, m, sid, ts)
  }

  lemma FindsKeySnoc(es: seq<Event>, sid: string, ts: real)
    requires es != []
    ensures SomeFindsKey(es, sid, ts) <==> SomeFindsKey(es[..|es| - 1], sid, ts) || FindsKey(es, |es| - 1, sid, ts)
  {
    var front := es[..|es| - 1];
    if SomeFindsKey(es, sid, ts) {
      var m: nat :| FindsKey(es, m, sid, ts);
      if m < |front| {
        FindsKeyPrefix(es, m, sid, ts);
        assert SomeFindsKey(front, sid, ts);
      }
    }
    if SomeFindsKey(front, sid, ts) {
      var m: nat :| FindsKey(front, m, sid, ts);
      FindsKeyPrefix(es, m, sid, ts);
      assert SomeFindsKey(es, sid, ts);
    }
  }

  lemma NewKeys(es: seq<Event>, sid: string, ts: real)
    requires es != [] && es[|es| - 1].Collect?
    ensures var s, e := Run(es[..|es| - 1]), es[|es| - 1];
      SeenKey(NewRows(s.store, AlertRows(s.ms, e.now)), sid, ts) <==> !SeenKey(s.store, sid, ts) && FindsKey(es, |es| - 1, sid, ts)
  {
    var s, e := Run(es[..|es| - 1]), es[|es| - 1];
    var added := NewRows(s.store, AlertRows(s.ms, e.now));
    NewRowsAre(s.store, AlertRows(s.ms, e.now));
    if i :| 0 <= i < |added| && HasKey(added[i], sid, ts) {
      assert added[i] in added && Finds(es, |es| - 1, added[i]);
    }
    if b :| HasKey(b, sid, ts) && Finds(es, |es| - 1, b) {
      if !SeenKey(s.store, sid, ts) { InIsSeen(added, b); }
    }
  }

  /** A key is in the file exactly when some collection found an alert with it decided. */
  lemma {:induction false} KeyIsWritten(es: seq<Event>, sid: string, ts: real)
    ensures SeenKey(Run(es).store, sid, ts) <==> SomeFindsKey(es, sid, ts)
  {
    if es != [] {
      var s, e := Run(es[..|es| - 1]), es[|es| - 1];
      KeyIsWritten(es[..|es| - 1], sid, ts);
      FindsKeySnoc(es, sid, ts);
      if e.Collect? {
        NewKeys(es, sid, ts);
        SeenInEither(s.store, NewRows(s.store, AlertRows(s.ms, e.now)), sid, ts);
      }
    }
  }

  /** The alert is found decided by the first collection that finds any alert with its key decided. */
  ghost predicate FoundFirst(es: seq<Event>, m: nat, a: Alert) {
    Finds(es, m, a) && forall x: nat :: x < m ==> !FindsKey(es, x, a.sid, a.ts)
  }

  lemma FoundFirstPrefix(es: seq<Event>, m: nat, a: Alert)
    requires m < |es| - 1
    ensures FoundFirst(es[..|es| - 1], m, a) <==> FoundFirst(es, m, a)
  {
    var front := es[..|es| - 1];
    FindsPrefix(es, m, a);
    if FoundFirst(es, m, a) {
      forall x: nat | x < m ensures !FindsKey(front, x, a.sid, a.ts) { FindsKeyPrefix(es, x, a.sid, a.ts); }
    }
    if FoundFirst(front, m, a) {
      forall x: nat | x < m ensures !FindsKey(es, x, a.sid, a.ts) { FindsKeyPrefix(es, x, a.sid, a.ts); }
    }
  }

  ghost predicate SomeFoundFirst(es: seq<Event>, a: Alert) {
    exists m: nat :: FoundFirst(es, m, a)
  }

  lemma FoundFirstSnoc(es: seq<Event>, a: Alert)
    requires es != []
    ensures SomeFoundFirst(es, a) <==> SomeFoundFirst(es[..|es| - 1], a) || FoundFirst(es, |es| - 1, a)
  {
    var front := es[..|es| - 1];
    if m: nat :| FoundFirst(es, m, a) {
      if m < |es| - 1 { FoundFirstPrefix(es, m, a); }
    }
    if m: nat :| FoundFirst(front, m, a) { FoundFirstPrefix(es, m, a); }
  }

  lemma FoundFirstNow(es: seq<Event>, a: Alert)
    requires es != []
    ensures FoundFirst(es, |es| - 1, a) <==> Finds(es, |es| - 1, a) && !SomeFindsKey(es[..|es| - 1], a.sid, a.ts)
  {
    var n := |es| - 1;
    if x: nat :| FindsKey(es[..n], x, a.sid, a.ts) { FindsKeyPrefix(es, x, a.sid, a.ts); }
    if x: nat :| x < n && FindsKey(es, x, a.sid, a.ts) { FindsKeyPrefix(es, x, a.sid, a.ts); }
  }

  /**
   * Over every run an alert's own row is in the file exactly if a collection found it decided and no earlier
   * one had found any alert with its key decided: what a later collection finds under that key never enters.
   */
  lemma {:induction false} WrittenExactly(es: seq<Event>, a: Alert)
    ensures a in Run(es).store <==> SomeFoundFirst(es, a)
  {
    if es != [] {
      var s, e := Run(es[..|es| - 1]), es[|es| - 1];
      WrittenExactly(es[..|es| - 1], a);
      FoundFirstSnoc(es, a);
      FoundFirstNow(es, a);
      KeyIsWritten(es[..|es| - 1], a.sid, a.ts);
      if e.Collect? { NewRowsAre(s.store, AlertRows(s.ms, e.now)); }
    }
  }

  // ---------------------------------------------------------------- each key once

  ghost predicate KeysDiffer(xs: seq<Alert>) {
    forall i, j :: 0 <= i < j < |xs| ==> !HasKey(xs[i], xs[j].sid, xs[j].ts)
  }

  ghost predicate AllDecided(xs: seq<Alert>) {
    forall i :: 0 <= i < |xs| ==> !xs[i].verdict.Unknown?
  }

  /** The decided rows with this key. */
  function Count(xs: seq<Alert>, sid: string, ts: real): nat {
    if xs == [] then 0 else One(xs[0], sid, ts) + Count(xs[1..], sid, ts)
  }

  function One(a: Alert, sid: string, ts: real): nat {
    if HasKey(a, sid, ts) && !a.verdict.Unknown? then 1 else 0
  }

  lemma {:induction false} CountConcat(xs: seq<Alert>, ys: seq<Alert>, sid: string, ts: real)
    ensures Count(xs + ys, sid, ts) == Count(xs, sid, ts) + Count(ys, sid, ts)
  {
    if xs == [] {
      assert xs + ys == ys;
    } else {
      assert (xs + ys)[0] == xs[0] && (xs + ys)[1..] == xs[1..] + ys;
      CountConcat(xs[1..], ys, sid, ts);
    }
  }

  lemma CountSnoc(xs: seq<Alert>, x: Alert, sid: string, ts: real)
    ensures Count(xs + [x], sid, ts) == Count(xs, sid, ts) + One(x, sid, ts)
  {
    CountConcat(xs, [x], sid, ts);
    assert [x][1..] == [];
  }

  lemma {:induction false} CountSome(xs: seq<Alert>, sid: string, ts: real)
    requires AllDecided(xs)
    ensures Count(xs, sid, ts) > 0 <==> SeenKey(xs, sid, ts)
  {
    if xs != [] {
      CountSome(xs[1..], sid, ts);
      if i :| 0 <= i < |xs[1..]| && HasKey(xs[1..][i], sid, ts) { assert HasKey(xs[i + 1], sid, ts); }
      if i :| 0 < i < |xs| && HasKey(xs[i], sid, ts) { assert HasKey(xs[1..][i - 1], sid, ts); }
    }
  }

  lemma {:induction false} CountOne(xs: seq<Alert>, sid: string, ts: real)
    requires AllDecided(xs) && KeysDiffer(xs)
    ensures Count(xs, sid, ts) <= 1
  {
    if xs != [] {
      CountOne(xs[1..], sid, ts);
      CountSome(xs[1..], sid, ts);
      forall i | 0 <= i < |xs[1..]| ensures !(HasKey(xs[0], sid, ts) && HasKey(xs[1..][i], sid, ts)) {
        assert xs[1..][i] == xs[i + 1];
      }
    }
  }

  lemma {:induction false} CountTwo(xs: seq<Alert>, i: nat, j: nat)
    requires AllDecided(xs) && i < j < |xs| && HasKey(xs[i], xs[j].sid, xs[j].ts)
    ensures Count(xs, xs[j].sid, xs[j].ts) >= 2
  {
    if i == 0 {
      CountSome(xs[1..], xs[j].sid, xs[j].ts);
      assert HasKey(xs[1..][j - 1], xs[j].sid, xs[j].ts);
    } else {
      CountTwo(xs[1..], i - 1, j - 1);
    }
  }

  ghost predicate CountsToOne(xs: seq<Alert>) {
    forall sid: string, ts: real :: Count(xs, sid, ts) <= 1
  }

  lemma KeysDifferByCount(xs: seq<Alert>)
    requires AllDecided(xs)
    ensures KeysDiffer(xs) <==> CountsToOne(xs)
  {
    if KeysDiffer(xs) {
      forall sid: string, ts: real ensures Count(xs, sid, ts) <= 1 { CountOne(xs, sid, ts); }
    } else {
      var i, j :| 0 <= i < j < |xs| && HasKey(xs[i], xs[j].sid, xs[j].ts);
      CountTwo(xs, i, j);
    }
  }

  // The rows of a collection, counted through sorting and sessions down to the readings.

  lemma {:induction false} CountInsert(ys: seq<Alert>, x: Alert, sid: string, ts: real)
    ensures Count(Insert(ys, x, Earlier), sid, ts) == Count(ys, sid, ts) + One(x, sid, ts)
  {
    if ys == [] {
      CountSnoc([], x, sid, ts);
      assert [] + [x] == [x];
    } else if Earlier(ys[|ys| - 1], x) {
      CountSnoc(ys, x, sid, ts);
    } else {
      var front, last := ys[..|ys| - 1], ys[|ys| - 1];
      CountInsert(front, x, sid, ts);
      CountSnoc(Insert(front, x, Earlier), last, sid, ts);
      CountSnoc(front, last, sid, ts);
      assert ys == front + [last];
    }
  }

  lemma {:induction false} CountSort(xs: seq<Alert>, sid: string, ts: real)
    ensures Count(Sort(xs, Earlier), sid, ts) == Count(xs, sid, ts)
  {
    if xs != [] {
      var front, last := xs[..|xs| - 1], xs[|xs| - 1];
      CountSort(front, sid, ts);
      CountInsert(Sort(front, Earlier), last, sid, ts);
      CountSnoc(front, last, sid, ts);
      assert xs == front + [last];
    }
  }

  /** A rise at this time that is decided. */
  predicate DecidedRise(own: seq<Measure>, i: nat, ts: real, now: real)
    requires i < |own|
  {
    Rises(own, i) && own[i].ts == ts && !VerdictAt(own, i, now).Unknown?
  }

  function RiseCount(own: seq<Measure>, n: nat, ts: real, now: real): nat
    requires n <= |own|
  {
    if n == 0 then 0 else RiseCount(own, n - 1, ts, now) + if DecidedRise(own, n - 1, ts, now) then 1 else 0
  }

  lemma {:induction false} CountUpTo(sid: string, own: seq<Measure>, n: nat, now: real, key: string, ts: real)
    requires n <= |own|
    ensures Count(AlertsUpTo(sid, own, n, now), key, ts) == if sid == key then RiseCount(own, n, ts, now) else 0
  {
    if n != 0 {
      CountUpTo(sid, own, n - 1, now, key, ts);
      var before := AlertsUpTo(sid, own, n - 1, now);
      if Rises(own, n - 1) { CountSnoc(before, AlertAt(sid, own, n - 1, now), key, ts); } else { assert before + [] == before; }
    }
  }

  lemma {:induction false} CountAlertsOf(ms: seq<Measure>, sids: seq<string>, now: real, key: string, ts: real)
    requires NoDup(sids)
    ensures var own := OfSession(ms, key);
      Count(AlertsOf(ms, sids, now), key, ts) == if key in sids then RiseCount(own, |own|, ts, now) else 0
  {
    if sids != [] {
      var front, sid := sids[..|sids| - 1], sids[|sids| - 1];
      var own := OfSession(ms, sid);
      CountAlertsOf(ms, front, now, key, ts);
      CountUpTo(sid, own, |own|, now, key, ts);
      CountConcat(AlertsOf(ms, front, now), AlertsOne(sid, own, now), key, ts);
      assert sids == front + [sid];
    }
  }

  lemma CountRows(ms: seq<Measure>, now: real, sid: string, ts: real)
    ensures var own := OfSession(ms, sid); Count(AlertRows(ms, now), sid, ts) == RiseCount(own, |own|, ts, now)
  {
    SessionsAre(ms, sid);
    CountAlertsOf(ms, Sessions(ms), now, sid, ts);
    CountSort(AlertsOf(ms, Sessions(ms), now), sid, ts);
  }

  lemma {:induction false} CountNew(store: seq<Alert>, rows: seq<Alert>, sid: string, ts: real)
    ensures AllDecided(NewRows(store, rows))
    ensures Count(NewRows(store, rows), sid, ts) == if SeenKey(store, sid, ts) then 0 else Count(rows, sid, ts)
  {
    if rows != [] {
      CountNew(store, rows[1..], sid, ts);
      var rest := NewRows(store, rows[1..]);
      if !Seen(store, rows[0]) && !rows[0].verdict.Unknown? {
        assert ([rows[0]] + rest)[1..] == rest;
      } else {
        assert [] + rest == rest;
      }
    }
  }

  /** Two decided alerts of one session at one time. */
  ghost predicate TwoRises(own: seq<Measure>, ts: real, now: real) {
    exists i: nat, j: nat :: i < j < |own| && DecidedRise(own, i, ts, now) && DecidedRise(own, j, ts, now)
  }

  lemma {:induction false} RisesCounted(own: seq<Measure>, n: nat, ts: real, now: real)
    requires n <= |own|
    ensures RiseCount(own, n, ts, now) >= 1 <==> exists i: nat :: i < n && DecidedRise(own, i, ts, now)
    ensures RiseCount(own, n, ts, now) >= 2
       <==> exists i: nat, j: nat :: i < j < n && DecidedRise(own, i, ts, now) && DecidedRise(own, j, ts, now)
  {
    if n != 0 {
      RisesCounted(own, n - 1, ts, now);
    }
  }

  /** A collection meets two decided alerts of one session at one time, whose key is not in the file. */
  ghost predicate MeetsTwins(s: State, now: real) {
    exists sid: string, ts: real :: !SeenKey(s.store, sid, ts) && TwoRises(OfSession(s.ms, sid), ts, now)
  }

  lemma CollectCounts(s: State, now: real, sid: string, ts: real)
    requires AllDecided(s.store)
    ensures var own := OfSession(s.ms, sid); var store' := Next(s, Collect(now)).store;
      && AllDecided(store')
      && Count(store', sid, ts) == if SeenKey(s.store, sid, ts) then Count(s.store, sid, ts) else RiseCount(own, |own|, ts, now)
  {
    CountSome(s.store, sid, ts);
    CountNew(s.store, AlertRows(s.ms, now), sid, ts);
    CountConcat(s.store, NewRows(s.store, AlertRows(s.ms, now)), sid, ts);
    CountRows(s.ms, now, sid, ts);
  }

  lemma CollectKeepsKeys(s: State, now: real)
    requires AllDecided(s.store)
    ensures AllDecided(Next(s, Collect(now)).store)
    ensures KeysDiffer(Next(s, Collect(now)).store) <==> KeysDiffer(s.store) && !MeetsTwins(s, now)
  {
    var store' := Next(s, Collect(now)).store;
    CollectCounts(s, now, "", 0.0);
    KeysDifferByCount(s.store);
    KeysDifferByCount(store');
    forall sid: string, ts: real
      ensures Count(store', sid, ts) <= 1
         <==> Count(s.store, sid, ts) <= 1 && (SeenKey(s.store, sid, ts) || !TwoRises(OfSession(s.ms, sid), ts, now))
    {
      OneCountKept(s, now, sid, ts);
    }
  }

  lemma OneCountKept(s: State, now: real, sid: string, ts: real)
    requires AllDecided(s.store)
    ensures Count(Next(s, Collect(now)).store, sid, ts) <= 1
       <==> Count(s.store, sid, ts) <= 1 && (SeenKey(s.store, sid, ts) || !TwoRises(OfSession(s.ms, sid), ts, now))
  {
    var own := OfSession(s.ms, sid);
    CollectCounts(s, now, sid, ts);
    CountSome(s.store, sid, ts);
    RisesCounted(own, |own|, ts, now);
  }

  /** Some collection of the run meets twins. */
  ghost predicate SomeTwins(es: seq<Event>) {
    es != [] && (SomeTwins(es[..|es| - 1]) || (es[|es| - 1].Collect? && MeetsTwins(Run(es[..|es| - 1]), es[|es| - 1].now)))
  }

  /**
   * Over every run the keys in the file differ exactly when no collection meets two alerts of one session at
   * one time, both decided by then, whose key is not yet in the file.
   */
  lemma {:induction false} EachKeyOnce(es: seq<Event>)
    ensures AllDecided(Run(es).store)
    ensures KeysDiffer(Run(es).store) <==> !SomeTwins(es)
  {
    if es != [] {
      EachKeyOnce(es[..|es| - 1]);
      if es[|es| - 1].Collect? { CollectKeepsKeys(Run(es[..|es| - 1]), es[|es| - 1].now); }
    }
  }

  ghost predicate AlertTimesDiffer(own: seq<Measure>) {
    forall i, j :: 0 <= i < j < |own| && Rises(own, i) && Rises(own, j) ==> own[i].ts != own[j].ts
  }

  /** No session has two alerts at one time. */
  ghost predicate DistinctAlerts(ms: seq<Measure>) {
    forall sid: string :: AlertTimesDiffer(OfSession(ms, sid))
  }

  /** So it is, in particular, as long as no session has two alerts at one time. */
  lemma {:induction false} DistinctAlertsOnce(es: seq<Event>)
    requires DistinctAlerts(Run(es).ms)
    ensures !SomeTwins(es)
  {
    if es != [] {
      var before, e := Run(es[..|es| - 1]), es[|es| - 1];
      assert Run(es).ms == before.ms + if e.Observe? then [e.m] else [];
      FewerAlerts(before.ms, if e.Observe? then [e.m] else []);
      DistinctAlertsOnce(es[..|es| - 1]);
      if e.Collect? { DistinctAlertsMeetNone(before, e.now); }
    }
  }

  lemma DistinctAlertsMeetNone(s: State, now: real)
    requires DistinctAlerts(s.ms)
    ensures !MeetsTwins(s, now)
  {
    forall sid: string, ts: real ensures !TwoRises(OfSession(s.ms, sid), ts, now) {
      assert AlertTimesDiffer(OfSession(s.ms, sid));
    }
  }

  lemma FewerAlerts(ms: seq<Measure>, more: seq<Measure>)
    requires DistinctAlerts(ms + more)
    ensures DistinctAlerts(ms)
  {
    forall sid: string ensures AlertTimesDiffer(OfSession(ms, sid)) {
      OfSessionConcat(ms, more, sid);
      assert AlertTimesDiffer(OfSession(ms + more, sid));
      PrefixAlerts(OfSession(ms, sid), OfSession(more, sid));
    }
  }

  lemma PrefixAlerts(own: seq<Measure>, rest: seq<Measure>)
    requires AlertTimesDiffer(own + rest)
    ensures AlertTimesDiffer(own)
  {
    forall i, j | 0 <= i < j < |own| && Rises(own, i) && Rises(own, j) ensures own[i].ts != own[j].ts {
      assert (own + rest)[..i] == own[..i] && (own + rest)[..j] == own[..j];
      assert Rises(own + rest, i) && Rises(own + rest, j);
    }
  }

  /** One session rises to 90 %, clears and rises to 95 %, all at one time. */
  const TWINS := [
    Measure(Some("s"), 0.0, Some(90.0)), Measure(Some("s"), 0.0, Some(40.0)), Measure(Some("s"), 0.0, Some(95.0))]

  const TWINS_SEEN := [Observe(TWINS[0]), Observe(TWINS[1]), Observe(TWINS[2])]

  const FIRST_TWIN := Alert("s", 0.0, 90.0, Acted(0.0))

  const SECOND_TWIN := Alert("s", 0.0, 95.0, NotActed)

  lemma TwinsRise()
    ensures OfSession(TWINS, "s") == TWINS && Rises(TWINS, 0) && Rises(TWINS, 2)
  {
    var ms := TWINS;
    assert ms[..2] == [ms[0], ms[1]] && ms[..2][..1] == [ms[0]] && ms[..2][..1][..0] == [];
    assert OfSession(ms[..2][..1], "s") == [ms[0]];
    assert OfSession(ms[..2], "s") == ms[..2];
    assert LastCtx(ms[..0]) == None && LastCtx(ms[..2]) == Some(40.0);
  }

  lemma TwinsObserved()
    ensures Run(TWINS_SEEN) == State(TWINS, [])
  {
    var es := TWINS_SEEN;
    RunOneMore([], es[0]);
    RunOneMore([] + [es[0]], es[1]);
    RunOneMore([] + [es[0]] + [es[1]], es[2]);
    assert [] + [es[0]] + [es[1]] + [es[2]] == es;
    assert [] + [TWINS[0]] + [TWINS[1]] + [TWINS[2]] == TWINS;
  }

  /** Collected once both are decided, the two alerts are two rows with one key. */
  lemma TwinAlertsWrittenTwice()
    ensures var store := Run(TWINS_SEEN + [Collect(2000000.0)]).store;
      FIRST_TWIN in store && SECOND_TWIN in store && !KeysDiffer(store)
  {
    var now := 2000000.0;
    TwinsRise();
    TwinsObserved();
    assert RowAt(TWINS, FIRST_TWIN, 0, now) && RowAt(TWINS, SECOND_TWIN, 2, now);
    AlertRowsAre(TWINS, now, FIRST_TWIN);
    AlertRowsAre(TWINS, now, SECOND_TWIN);
    DecidedIsWritten(TWINS_SEEN, now, FIRST_TWIN);
    DecidedIsWritten(TWINS_SEEN, now, SECOND_TWIN);
    TwoWithOneKey(Run(TWINS_SEEN + [Collect(now)]).store, FIRST_TWIN, SECOND_TWIN);
  }

  lemma TwoWithOneKey(store: seq<Alert>, a: Alert, b: Alert)
    requires a in store && b in store && a != b && a.sid == b.sid && a.ts == b.ts
    ensures !KeysDiffer(store)
  {
    var i, j :| 0 <= i < |store| && 0 <= j < |store| && store[i] == a && store[j] == b;
    assert HasKey(store[i], store[j].sid, store[j].ts) && HasKey(store[j], store[i].sid, store[i].ts);
  }

  /** Collected while only the first is decided and again when both are, the second never enters the file. */
  lemma LaterTwinIsNeverWritten()
    ensures var es := TWINS_SEEN + [Collect(1000.0)]; var store := Run(es + [Collect(2000000.0)]).store;
      && SECOND_TWIN in AlertRows(Run(es).ms, 2000000.0)
      && FIRST_TWIN in store && SECOND_TWIN !in store && KeysDiffer(store)
  {
    var es := TWINS_SEEN + [Collect(1000.0)];
    TwinsRise();
    TwinsObserved();
    RunOneMore(TWINS_SEEN, Collect(1000.0));
    OneTwinDecided();
    DecidedIsWritten(TWINS_SEEN, 1000.0, FIRST_TWIN);
    NewRowsAre([], AlertRows(TWINS, 1000.0));
    assert RowAt(TWINS, SECOND_TWIN, 2, 2000000.0);
    AlertRowsAre(TWINS, 2000000.0, SECOND_TWIN);
    DecidedIsWritten(es, 2000000.0, SECOND_TWIN);
    StoreGrows(es, [Collect(2000000.0)], FIRST_TWIN);
    NoTwinsMet();
    EachKeyOnce(es + [Collect(2000000.0)]);
  }

  lemma TwinsAfterWindow(ts: real, now: real)
    requires TwoRises(TWINS, ts, now)
    ensures ts == 0.0 && now > WINDOW
  {
    var i: nat, j: nat :| i < j < |TWINS| && DecidedRise(TWINS, i, ts, now) && DecidedRise(TWINS, j, ts, now);
    assert j == 2;
  }

  /** Only a collection after the window meets them, and only while their key is not in the file. */
  lemma OnlyTwins(store: seq<Alert>, now: real)
    requires now <= WINDOW || SeenKey(store, "s", 0.0)
    ensures !MeetsTwins(State(TWINS, store), now)
  {
    TwinsRise();
    forall sid: string, ts: real | TwoRises(OfSession(TWINS, sid), ts, now) ensures SeenKey(store, sid, ts) {
      TwinsOnly(sid, ts, now);
    }
  }

  lemma TwinsOnly(sid: string, ts: real, now: real)
    requires TwoRises(OfSession(TWINS, sid), ts, now)
    ensures sid == "s" && ts == 0.0 && now > WINDOW
  {
    TwinsRise();
    if sid == "s" { TwinsAfterWindow(ts, now); } else { NoneOfSession(TWINS, sid); }
  }

  lemma {:induction false} NoneOfSession(ms: seq<Measure>, sid: string)
    requires forall m :: m in ms ==> m.sid != Some(sid)
    ensures OfSession(ms, sid) == []
  {
    if ms != [] {
      NoneOfSession(ms[..|ms| - 1], sid);
    }
  }

  lemma NoTwinsMet()
    ensures !SomeTwins(TWINS_SEEN + [Collect(1000.0)] + [Collect(2000000.0)])
  {
    var es := TWINS_SEEN + [Collect(1000.0)];
    TwinsObserved();
    OnlyObserves(TWINS_SEEN);
    SomeTwinsSnoc(TWINS_SEEN, Collect(1000.0));
    SomeTwinsSnoc(es, Collect(2000000.0));
    RunOneMore(TWINS_SEEN, Collect(1000.0));
    OneTwinDecided();
    DecidedIsWritten(TWINS_SEEN, 1000.0, FIRST_TWIN);
    OnlyTwins([], 1000.0);
    OnlyTwins(Run(es).store, 2000000.0);
  }

  lemma SomeTwinsSnoc(es: seq<Event>, e: Event)
    ensures SomeTwins(es + [e]) <==> SomeTwins(es) || (e.Collect? && MeetsTwins(Run(es), e.now))
  {
    assert (es + [e])[..|es|] == es;
  }

  lemma {:induction false} OnlyObserves(es: seq<Event>)
    requires forall i :: 0 <= i < |es| ==> es[i].Observe?
    ensures !SomeTwins(es)
  {
    if es != [] {
      OnlyObserves(es[..|es| - 1]);
    }
  }

  lemma OneTwinDecided()
    ensures FIRST_TWIN in AlertRows(TWINS, 1000.0) && SECOND_TWIN !in AlertRows(TWINS, 1000.0)
  {
    TwinsRise();
    assert RowAt(TWINS, FIRST_TWIN, 0, 1000.0);
    AlertRowsAre(TWINS, 1000.0, FIRST_TWIN);
    AlertRowsAre(TWINS, 1000.0, SECOND_TWIN);
    forall i: nat ensures !RowAt(TWINS, SECOND_TWIN, i, 1000.0) {
    }
  }

  // ---------------------------------------------------------------- the loops

  method ScanWindow(ms: seq<Measure>, from: nat, t0: real) returns (lag: Option<real>)
    requires from <= |ms|
    ensures lag == ClearedAfter(ms, from, t0)
  {
    var j := from;
    while j < |ms|
      invariant from <= j <= |ms| && ClearedAfter(ms, j, t0) == ClearedAfter(ms, from, t0)
    {
      if ms[j].ts - t0 > WINDOW { return None; }
      if ms[j].ctx.Some? && ms[j].ctx.value < CLEARED { return Some(ms[j].ts - t0); }
      j := j + 1;
    }
    return None;
  }

  method FindAlerts(sid: string, ms: seq<Measure>, now: real) returns (out: seq<Alert>)
    ensures out == AlertsOne(sid, ms, now)
  {
    out := [];
    var prev: Option<real> := None;
    for i := 0 to |ms|
      invariant out == AlertsUpTo(sid, ms, i, now) && prev == LastCtx(ms[..i])
    {
      assert ms[..i + 1][..i] == ms[..i];
      if ms[i].ctx.Some? {
        var rising := Rising(prev, ms[i].ctx.value);
        prev := ms[i].ctx;
        if rising {
          var lag := ScanWindow(ms, i + 1, ms[i].ts);
          var verdict := if lag.Some? then Acted(lag.value) else if now - ms[i].ts > WINDOW then NotActed else Unknown;
          out := out + [Alert(sid, ms[i].ts, ms[i].ctx.value, verdict)];
        }
      }
    }
  }
}
