/**
 * Route rows under flushes that may fail (flushAll and keep in plugin/hooks/observe.ts): a flush takes
 * the buffered rows and awaits their append; a failed one puts them back in front of what was buffered
 * meanwhile. Spawns go on marking the rows they find in the buffer, and reach no others.
 */
module RouteFlights {
  import opened Base
  import opened RouteLedger
  import opened RouteRuns
  import Retry = RetryBuffer
  import RouteOutcomes

  /** `away` is history: for each accepted spawn the keys whose rows were out of the buffer when it came. */
  datatype Flights = Flights(
    s: State, flying: seq<seq<Row>>, file: seq<Row>, dropped: seq<Row>, away: map<string, set<string>>)

  const Ground := Flights(Init, [], [], [], map[])

  /** `Finish(k, ok)` is the end of the append of the k-th batch in flight. */
  datatype Move = Happen(e: Event) | Begin | Finish(k: nat, ok: bool)

  function KeySeq(rows: seq<Row>): (ks: seq<string>)
    ensures |ks| == |rows| && forall i :: 0 <= i < |ks| ==> ks[i] == RowKey(rows[i])
  {
    seq(|rows|, i requires 0 <= i < |rows| => RowKey(rows[i]))
  }

  function OutRows(f: Flights): seq<Row> {
    Flat(f.flying) + f.file + f.dropped
  }

  function OutKeys(f: Flights): set<string> {
    set k | k in KeySeq(OutRows(f))
  }

  function AllRows(f: Flights): seq<Row> {
    f.s.rows + OutRows(f)
  }

  predicate Accepts(e: Event) {
    e.Spawned? && e.resolved.Some?
  }

  function DoHappen(f: Flights, e: Event): Flights {
    f.(s := Next(f.s, e),
       away := if Accepts(e) then f.away[e.toolUseId := OutKeys(f)] else f.away)
  }

  function DoBegin(f: Flights): Flights {
    if f.s.rows == [] then f else f.(s := f.s.(rows := []), flying := f.flying + [f.s.rows])
  }

  function DoFinish(f: Flights, k: nat, ok: bool): Flights
    requires k < |f.flying|
  {
    var f1 := f.(flying := f.flying[..k] + f.flying[k + 1..]);
    if ok then f1.(file := f.file + f.flying[k])
    else
      var all := f.flying[k] + f.s.rows;
      var n := Retry.Over(|all|);
      f1.(s := f.s.(rows := all[n..]), dropped := f.dropped + all[..n])
  }

  predicate CanMove(f: Flights, m: Move) {
    match m
    case Happen(e) => e != Take && Fresh(f.s, e)
    case Begin => true
    case Finish(k, ok) => k < |f.flying|
  }

  function MoveOn(f: Flights, m: Move): Flights
    requires CanMove(f, m)
  {
    match m
    case Happen(e) => DoHappen(f, e)
    case Begin => DoBegin(f)
    case Finish(k, ok) => DoFinish(f, k, ok)
  }

  predicate Moves(ms: seq<Move>)
    decreases ms, 0
  {
    ms != [] ==> Moves(ms[..|ms| - 1]) && CanMove(After(ms[..|ms| - 1]), ms[|ms| - 1])
  }

  function After(ms: seq<Move>): Flights
    requires Moves(ms)
    decreases ms, 1
  {
    if ms == [] then Ground else MoveOn(After(ms[..|ms| - 1]), ms[|ms| - 1])
  }

  // ---------------------------------------------------------------- the ledger underneath

  /** The events of the ledger alone. */
  function Events(ms: seq<Move>): seq<Event> {
    if ms == [] then []
    else Events(ms[..|ms| - 1]) + if ms[|ms| - 1].Happen? then [ms[|ms| - 1].e] else []
  }

  /** The two agree but for their rows. */
  predicate Alike(s: State, p: State) {
    s == p.(rows := s.rows, taken := s.taken)
  }

  /** What a step buffers. */
  function Added(s: State, e: Event): seq<Row> {
    if |s.rows| <= |Next(s, e).rows| then Next(s, e).rows[|s.rows|..] else []
  }

  /** The row as the step leaves it in the buffer. */
  function Remarked(s: State, e: Event, r: Row): Row {
    if Accepts(e) then
      MarkRow(r, PruneRoutes(s, e.now).routes, e.desc, EscalationTierOf(e.requested, e.resolved.value), e.toolUseId, e.now)
    else r
  }

  lemma StepRows(s: State, e: Event)
    requires e != Take
    ensures var s' := Next(s, e);
      && |s.rows| <= |s'.rows| && s'.taken == s.taken
      && (forall j :: 0 <= j < |s.rows| ==> s'.rows[j] == Remarked(s, e, s.rows[j]))
      && (e.Spawned? ==> Added(s, e) == [])
  {
    match e
    case Completed(agent, end, durationMs, model, now) => if agent !in s.byAgent { StrangerRows(s, e); }
    case _ =>
  }

  lemma StrangerRows(s: State, e: Event)
    requires e.Completed? && e.agent !in s.byAgent
    ensures s.rows <= Next(s, e).rows && Next(s, e).taken == s.taken
  {
  }

  lemma AlikeNext(s: State, p: State, e: Event)
    requires Alike(s, p) && e != Take
    ensures Alike(Next(s, e), Next(p, e)) && Added(s, e) == Added(p, e)
  {
    match e
    case Spawned(_, _, _, _, _, _) => AlikeSpawn(s, p, e);
    case Completed(_, _, _, _, _) => AlikeComplete(s, p, e);
    case _ =>
  }

  lemma AlikeSpawn(s: State, p: State, e: Event)
    requires Alike(s, p) && e.Spawned?
    ensures Alike(Next(s, e), Next(p, e)) && Added(s, e) == [] == Added(p, e)
  {
    StepRows(s, e);
    StepRows(p, e);
    AlikeAfterSpawn(s, p, e);
  }

  lemma AlikeAfterSpawn(s: State, p: State, e: Event)
    requires Alike(s, p) && e.Spawned?
    ensures Alike(Next(s, e), Next(p, e))
  {
    if Accepts(e) { AlikeAccepted(s, p, e); } else { AlikeDenied(s, p, e); }
  }

  lemma AlikeDenied(s: State, p: State, e: Event)
    requires Alike(s, p) && e.Spawned? && e.resolved.None?
    ensures Alike(Next(s, e), Next(p, e))
  {
  }

  lemma AlikeAccepted(s: State, p: State, e: Event)
    requires Alike(s, p) && Accepts(e)
    ensures Alike(Next(s, e), Next(p, e))
  {
    AlikeMarked(PruneRoutes(s, e.now), PruneRoutes(p, e.now), e);
  }

  lemma AlikeMarked(s: State, p: State, e: Event)
    requires Alike(s, p) && Accepts(e)
    ensures var tier := EscalationTierOf(e.requested, e.resolved.value);
      MarkEscalations(s, e.desc, tier, e.toolUseId, e.now).routes == MarkEscalations(p, e.desc, tier, e.toolUseId, e.now).routes
  {
  }

  lemma AlikeComplete(s: State, p: State, e: Event)
    requires Alike(s, p) && e.Completed?
    ensures Alike(Next(s, e), Next(p, e)) && Added(s, e) == Added(p, e)
  {
  }

  // ---------------------------------------------------------------- every row once, with its mark

  ghost predicate OneOfEach(rows: seq<Row>) {
    forall i, j :: 0 <= i < j < |rows| ==> RowKey(rows[i]) != RowKey(rows[j])
  }

  ghost predicate SameKeys(rows: seq<Row>, p: State) {
    && (forall r :: r in rows ==> RowKey(r) in Keys(p))
    && (forall k :: k in Keys(p) ==> exists r :: r in rows && RowKey(r) == k)
  }

  /** A row differs from that of its entry, if it is held, by the mark at most. */
  ghost predicate Current(rows: seq<Row>, p: State) {
    forall r :: r in rows && RowKey(r) in p.routes ==> SameButMark(r, p.routes[RowKey(r)].row)
  }

  /** Only keys that have their row were ever out. */
  ghost predicate AwayKnown(away: map<string, set<string>>, p: State) {
    forall id, k :: id in away && k in away[id] ==> k in Keys(p)
  }

  /** The first spawn that raises spawn `i` came while the row of spawn `i` was out of the buffer. */
  predicate Missed(away: map<string, set<string>>, sp: seq<Accepted>, i: nat)
    requires i < |sp|
  {
    var raiser := Escalator(sp, i, |sp|);
    raiser.Some? && raiser.value in away && sp[i].key in away[raiser.value]
  }

  /** The mark a row of spawn `i` carries. */
  function MarkOf(away: map<string, set<string>>, sp: seq<Accepted>, i: nat): Option<string>
    requires i < |sp|
  {
    if Missed(away, sp, i) then None else Escalator(sp, i, |sp|)
  }

  ghost predicate Carries(r: Row, away: map<string, set<string>>, sp: seq<Accepted>) {
    forall i :: 0 <= i < |sp| && RowKey(r) == sp[i].key ==> r.escalatedBy == MarkOf(away, sp, i)
  }

  ghost predicate AllCarry(rows: seq<Row>, away: map<string, set<string>>, sp: seq<Accepted>) {
    forall r :: r in rows ==> Carries(r, away, sp)
  }

  /** What the flights keep of the ledger `p` that the same events make without any flush. */
  ghost predicate Tracked(f: Flights, p: State) {
    && Alike(f.s, p) && OneOfEach(AllRows(f)) && SameKeys(AllRows(f), p) && Current(AllRows(f), p)
    && AwayKnown(f.away, p) && AllCarry(AllRows(f), f.away, p.spawns)
  }

  // ---------------------------------------------------------------- flushing only moves rows

  lemma TwiceIn(rows: seq<Row>, i: nat, j: nat)
    requires i < j < |rows| && rows[i] == rows[j]
    ensures multiset(rows)[rows[i]] >= 2
  {
    var a, b := rows[..j], rows[j..];
    assert rows == a + b && a[i] == rows[i] && b[0] == rows[i];
    assert multiset(rows) == multiset(a) + multiset(b);
  }

  lemma OnceIn(rows: seq<Row>, r: Row)
    requires OneOfEach(rows)
    ensures multiset(rows)[r] <= 1
    ensures forall x, y :: x in rows && y in rows && RowKey(x) == RowKey(y) ==> x == y
  {
    OnceInAll(rows, r);
  }

  lemma {:induction false} OnceInAll(rows: seq<Row>, r: Row)
    requires OneOfEach(rows)
    ensures multiset(rows)[r] <= 1
  {
    if rows != [] {
      OnceInAll(rows[1..], r);
      assert rows == [rows[0]] + rows[1..];
      assert rows[0] !in rows[1..];
    }
  }

  lemma Shuffled(f: Flights, f': Flights, p: State)
    requires Tracked(f, p) && Alike(f'.s, f.s) && f'.away == f.away
    requires multiset(AllRows(f')) == multiset(AllRows(f))
    ensures Tracked(f', p)
  {
    var rows, rows' := AllRows(f), AllRows(f');
    assert forall r :: r in rows' <==> r in multiset(rows');
    assert forall r :: r in multiset(rows) <==> r in rows;
    forall i, j | 0 <= i < j < |rows'| ensures RowKey(rows'[i]) != RowKey(rows'[j]) {
      OnceIn(rows, rows'[i]);
      assert rows'[i] in rows && rows'[j] in rows;
      if rows'[i] == rows'[j] { TwiceIn(rows', i, j); }
    }
  }

  lemma RowsCounted(f: Flights)
    ensures multiset(AllRows(f)) == multiset(f.s.rows) + multiset(Flat(f.flying)) + multiset(f.file) + multiset(f.dropped)
  {
  }

  lemma BeginShuffles(f: Flights)
    ensures multiset(AllRows(DoBegin(f))) == multiset(AllRows(f))
  {
    FlatConcat(f.flying, [f.s.rows]);
    assert [f.s.rows][1..] == [] && Flat([f.s.rows]) == f.s.rows;
    RowsCounted(f);
    RowsCounted(DoBegin(f));
  }

  /** The places of the rows before and after a batch `b` of `fl + b` goes elsewhere. */
  lemma Regroup(r: multiset<Row>, fl: multiset<Row>, b: multiset<Row>, file: multiset<Row>, d: multiset<Row>,
                r': multiset<Row>, file': multiset<Row>, d': multiset<Row>)
    requires r' + file' + d' == r + file + d + b
    ensures r' + fl + file' + d' == r + (fl + b) + file + d
  {
    forall x ensures (r' + fl + file' + d')[x] == (r + (fl + b) + file + d)[x] {
      assert (r' + file' + d')[x] == (r + file + d + b)[x];
    }
  }

  lemma FinishShuffles(f: Flights, k: nat, ok: bool)
    requires k < |f.flying|
    ensures multiset(AllRows(DoFinish(f, k, ok))) == multiset(AllRows(f))
  {
    var f', b := DoFinish(f, k, ok), multiset(f.flying[k]);
    FlatTake(f.flying, k);
    RowsCounted(f);
    RowsCounted(f');
    FinishCounts(f, k, ok);
    Regroup(multiset(f.s.rows), multiset(Flat(f'.flying)), b, multiset(f.file), multiset(f.dropped),
            multiset(f'.s.rows), multiset(f'.file), multiset(f'.dropped));
  }

  lemma FinishCounts(f: Flights, k: nat, ok: bool)
    requires k < |f.flying|
    ensures var f' := DoFinish(f, k, ok);
      && f'.flying == f.flying[..k] + f.flying[k + 1..]
      && multiset(f'.s.rows) + multiset(f'.file) + multiset(f'.dropped)
         == multiset(f.s.rows) + multiset(f.file) + multiset(f.dropped) + multiset(f.flying[k])
  {
    var f' := DoFinish(f, k, ok);
    if ok {
      assert multiset(f'.file) == multiset(f.file) + multiset(f.flying[k]);
    } else {
      CutCounted(f.flying[k], f.s.rows, f.dropped);
      assert multiset(f'.s.rows) + multiset(f'.file) + multiset(f'.dropped)
          == (multiset(f'.s.rows) + multiset(f'.dropped)) + multiset(f.file);
    }
  }

  lemma CutCounted(batch: seq<Row>, rows: seq<Row>, dropped: seq<Row>)
    ensures var all := batch + rows; var n := Retry.Over(|all|);
      multiset(all[n..]) + multiset(dropped + all[..n]) == multiset(batch) + multiset(rows) + multiset(dropped)
  {
    var all := batch + rows;
    var n := Retry.Over(|all|);
    var a, b := all[..n], all[n..];
    assert all == a + b;
    assert multiset(a) + multiset(b) == multiset(all) == multiset(batch) + multiset(rows);
    assert multiset(dropped + a) == multiset(dropped) + multiset(a);
  }

  // ---------------------------------------------------------------- a step that accepts no spawn

  lemma QuietRows(f: Flights, p: State, e: Event)
    requires Alike(f.s, p) && e != Take && !Accepts(e)
    ensures Next(f.s, e).rows == f.s.rows + Added(p, e) && Next(p, e).rows == p.rows + Added(p, e)
    ensures AllRows(DoHappen(f, e)) == f.s.rows + Added(p, e) + OutRows(f)
    ensures Keys(Next(p, e)) == Keys(p) + KeySeq(Added(p, e))
  {
    AlikeNext(f.s, p, e);
    StepRows(f.s, e);
    StepRows(p, e);
    assert Next(f.s, e).rows == f.s.rows + Added(f.s, e);
    KeysAppend(p, Next(p, e), Added(p, e));
  }

  lemma KeysAppend(p: State, p': State, added: seq<Row>)
    requires p'.taken == p.taken && p'.rows == p.rows + added
    ensures Keys(p') == Keys(p) + KeySeq(added)
  {
  }

  lemma InEither(rows: seq<Row>, added: seq<Row>, out: seq<Row>)
    ensures forall r :: r in rows + added + out <==> r in rows + out || r in added
  {
  }

  lemma QuietDistinct(rows: seq<Row>, added: seq<Row>, out: seq<Row>, p: State)
    requires OneOfEach(rows + out) && SameKeys(rows + out, p) && NoDup(Keys(p) + KeySeq(added))
    ensures OneOfEach(rows + added + out)
  {
    var all, held := rows + added + out, rows + out;
    forall j | 0 <= j < |added| ensures RowKey(added[j]) !in Keys(p) { NotBefore(Keys(p), KeySeq(added), j); }
    forall j, k | 0 <= j < k < |added| ensures RowKey(added[j]) != RowKey(added[k]) { ApartAfter(Keys(p), KeySeq(added), j, k); }
    forall i | 0 <= i < |held| ensures RowKey(held[i]) in Keys(p) { assert held[i] in held; }
    var m, n := |rows|, |rows| + |added|;
    forall i, j | 0 <= i < j < |all| ensures RowKey(all[i]) != RowKey(all[j]) {
      assert i < m ==> all[i] == held[i];
      assert m <= i < n ==> all[i] == added[i - m];
      assert n <= i ==> all[i] == held[i - |added|];
      assert j < m ==> all[j] == held[j];
      assert m <= j < n ==> all[j] == added[j - m];
      assert n <= j ==> all[j] == held[j - |added|];
    }
  }

  lemma NotBefore(xs: seq<string>, ys: seq<string>, j: nat)
    requires NoDup(xs + ys) && j < |ys|
    ensures ys[j] !in xs
  {
    forall i | 0 <= i < |xs| ensures xs[i] != ys[j] {
      assert (xs + ys)[i] == xs[i] && (xs + ys)[|xs| + j] == ys[j];
    }
  }

  lemma ApartAfter(xs: seq<string>, ys: seq<string>, j: nat, k: nat)
    requires NoDup(xs + ys) && j < k < |ys|
    ensures ys[j] != ys[k]
  {
    assert (xs + ys)[|xs| + j] == ys[j] && (xs + ys)[|xs| + k] == ys[k];
  }

  lemma QuietSameKeys(rows: seq<Row>, added: seq<Row>, out: seq<Row>, p: State, p': State)
    requires SameKeys(rows + out, p) && Keys(p') == Keys(p) + KeySeq(added)
    ensures SameKeys(rows + added + out, p')
  {
    InEither(rows, added, out);
    forall r | r in rows + added + out ensures RowKey(r) in Keys(p') {
      if r in added {
        var j :| 0 <= j < |added| && added[j] == r;
        assert KeySeq(added)[j] in KeySeq(added);
      }
    }
    forall k | k in Keys(p') ensures exists r :: r in rows + added + out && RowKey(r) == k {
      if k in Keys(p) {
        var r :| r in rows + out && RowKey(r) == k;
        assert r in rows + added + out;
      } else {
        var j :| 0 <= j < |KeySeq(added)| && KeySeq(added)[j] == k;
        assert added[j] in rows + added + out;
      }
    }
  }

  /** A finished entry keeps its row unless a spawn marks it. */
  lemma EntryStays(p: State, e: Event, k: string)
    requires OneRowEach(p) && e != Take && !Accepts(e) && k in Keys(p) && k in Next(p, e).routes
    ensures k in p.routes && Next(p, e).routes[k].row == p.routes[k].row
  {
    match e
    case Completed(_, _, _, _, _) => CompletedEntryStays(p, e, k);
    case _ =>
  }

  lemma CompletedEntryStays(p: State, e: Event, k: string)
    requires OneRowEach(p) && e.Completed? && k in Keys(p) && k in Next(p, e).routes
    ensures k in p.routes && Next(p, e).routes[k].row == p.routes[k].row
  {
    if e.agent !in p.byAgent {
      assert WF + e.agent !in p.issued;
    }
  }

  lemma QuietCurrent(rows: seq<Row>, added: seq<Row>, out: seq<Row>, p: State, e: Event)
    requires OneRowEach(p) && e != Take && !Accepts(e) && SameKeys(rows + out, p) && Current(rows + out, p)
    requires Marked(Next(p, e)) && Next(p, e).rows == p.rows + added
    ensures Current(rows + added + out, Next(p, e))
  {
    var p' := Next(p, e);
    InEither(rows, added, out);
    forall r | r in rows + added + out && RowKey(r) in p'.routes ensures SameButMark(r, p'.routes[RowKey(r)].row) {
      if r in rows + out {
        EntryStays(p, e, RowKey(r));
      } else {
        AddedIsCurrent(added, p, p', r);
      }
    }
  }

  lemma AddedIsCurrent(added: seq<Row>, p: State, p': State, r: Row)
    requires EntriesMarked(p') && p'.rows == p.rows + added && r in added && RowKey(r) in p'.routes
    ensures r == p'.routes[RowKey(r)].row
  {
    var j :| 0 <= j < |added| && added[j] == r;
    assert p'.rows[|p.rows| + j] == r;
  }

  /** A row just buffered carries the mark of its entry, and was never out. */
  lemma AddedCarries(added: seq<Row>, away: map<string, set<string>>, p: State, p': State, j: nat)
    requires AwayKnown(away, p) && Marked(p') && p'.rows == p.rows + added && j < |added| && RowKey(added[j]) !in Keys(p)
    ensures Carries(added[j], away, p'.spawns)
  {
    var r, sp := added[j], p'.spawns;
    assert p'.rows[|p.rows| + j] == r;
    forall i | 0 <= i < |sp| && RowKey(r) == sp[i].key ensures r.escalatedBy == MarkOf(away, sp, i) {
      assert !Missed(away, sp, i);
    }
  }

  lemma QuietTracked(f: Flights, p: State, e: Event)
    requires Tracked(f, p) && OneRowEach(p) && OneRowEach(Next(p, e)) && Marked(Next(p, e)) && e != Take && !Accepts(e)
    ensures Tracked(DoHappen(f, e), Next(p, e))
  {
    var p', added, out := Next(p, e), Added(p, e), OutRows(f);
    AlikeNext(f.s, p, e);
    QuietRows(f, p, e);
    QuietDistinct(f.s.rows, added, out, p);
    QuietSameKeys(f.s.rows, added, out, p, p');
    QuietCurrent(f.s.rows, added, out, p, e);
    QuietSpawns(p, e);
    QuietCarries(f.s.rows, added, out, f.away, p, p');
  }

  lemma QuietCarries(rows: seq<Row>, added: seq<Row>, out: seq<Row>, away: map<string, set<string>>, p: State, p': State)
    requires AllCarry(rows + out, away, p.spawns) && AwayKnown(away, p) && Marked(p')
    requires p'.spawns == p.spawns && p'.rows == p.rows + added && NoDup(Keys(p) + KeySeq(added))
    ensures AllCarry(rows + added + out, away, p'.spawns)
  {
    InEither(rows, added, out);
    forall r | r in rows + added + out ensures Carries(r, away, p'.spawns) {
      if r !in rows + out {
        var j :| 0 <= j < |added| && added[j] == r;
        NotBefore(Keys(p), KeySeq(added), j);
        AddedCarries(added, away, p, p', j);
      }
    }
  }

  lemma QuietSpawns(p: State, e: Event)
    requires !Accepts(e)
    ensures Next(p, e).spawns == p.spawns
  {
  }

  // ---------------------------------------------------------------- a step that accepts a spawn

  function NewSpawn(s: State, e: Event): Accepted
    requires Accepts(e)
  {
    Accepted(e.toolUseId, e.desc, e.requested, EscalationTierOf(e.requested, e.resolved.value), e.now, s.session)
  }

  lemma AcceptedEntries(p: State, e: Event)
    requires Accepts(e)
    ensures var q, x, p' := PruneRoutes(p, e.now), NewSpawn(p, e), Next(p, e);
      && p'.spawns == p.spawns + [x]
      && forall k :: k in p'.routes && k != x.key ==>
           k in q.routes && p'.routes[k] == MarkEntry(q.routes[k], x.desc, x.tier, x.key, e.now)
  {
  }

  lemma ReadyToMark(p: State, e: Event)
    requires OneRowEach(p) && Marked(p) && Accepts(e) && Fresh(p, e)
    ensures Ready(PruneRoutes(p.(clock := e.now), e.now), e.now, e.toolUseId)
  {
    AdvanceMarked(p, p.(clock := e.now));
    PruneReady(p.(clock := e.now), e.now, e.toolUseId);
  }

  /** How the first raiser of spawn `i` changes with a new spawn. */
  lemma RaiserWith(sp: seq<Accepted>, x: Accepted, i: nat)
    requires i < |sp|
    ensures Escalator(sp + [x], i, |sp| + 1)
         == if Escalator(sp, i, |sp|).Some? then Escalator(sp, i, |sp|) else if Raises(sp[i], x) then Some(x.key) else None
  {
    EscalatorPrefix(sp, x, i, |sp|);
  }

  /** The first raiser is one of the spawns there were. */
  lemma RaiserIsOld(sp: seq<Accepted>, x: Accepted, i: nat)
    requires i < |sp| && forall j :: 0 <= j < |sp| ==> sp[j].key != x.key
    ensures Escalator(sp, i, |sp|) != Some(x.key)
  {
  }

  lemma MissedWith(away: map<string, set<string>>, out: set<string>, sp: seq<Accepted>, x: Accepted, i: nat)
    requires i < |sp| && forall j :: 0 <= j < |sp| ==> sp[j].key != x.key
    ensures Missed(away[x.key := out], sp + [x], i)
       <==> if Escalator(sp, i, |sp|).Some? then Missed(away, sp, i) else Raises(sp[i], x) && sp[i].key in out
  {
    var all := sp + [x];
    RaiserWith(sp, x, i);
    RaiserIsOld(sp, x, i);
    assert all[i] == sp[i] && |all| == |sp| + 1;
    if Escalator(sp, i, |sp|).Some? {
      assert Escalator(all, i, |all|) == Escalator(sp, i, |sp|);
    } else if Raises(sp[i], x) {
      assert Escalator(all, i, |all|) == Some(x.key);
    }
  }

  lemma MarkOfWith(away: map<string, set<string>>, out: set<string>, sp: seq<Accepted>, x: Accepted, i: nat)
    requires i < |sp| && forall j :: 0 <= j < |sp| ==> sp[j].key != x.key
    ensures MarkOf(away[x.key := out], sp + [x], i)
         == if Escalator(sp, i, |sp|).Some? then MarkOf(away, sp, i)
            else if Raises(sp[i], x) && sp[i].key !in out then Some(x.key) else None
  {
    RaiserWith(sp, x, i);
    MissedWith(away, out, sp, x, i);
  }

  /** The entry of spawn `i`, if it is still held, has no mark exactly if nothing raised it; if it is not, nothing can. */
  lemma EntryOfSpawn(p: State, e: Event, i: nat)
    requires OneRowEach(p) && Marked(p) && Accepts(e) && Fresh(p, e) && i < |p.spawns|
    ensures var q, x, k := PruneRoutes(p, e.now), NewSpawn(p, e), p.spawns[i].key;
      && (k in q.routes ==>
            && k in p.routes && q.routes[k] == p.routes[k] && q.routes[k].row.escalatedBy == Escalator(p.spawns, i, |p.spawns|)
            && (Escalates(q.routes[k], x.desc, x.tier, e.now) <==> Escalator(p.spawns, i, |p.spawns|).None? && Raises(p.spawns[i], x)))
      && (k !in q.routes && Escalator(p.spawns, i, |p.spawns|).None? ==> !Raises(p.spawns[i], x))
  {
    var q0, x := PruneRoutes(p.(clock := e.now), e.now), NewSpawn(p, e);
    ReadyToMark(p, e);
    RaiserWith(p.spawns, x, i);
    if p.spawns[i].key in q0.routes {
      MarkAgrees(q0, i, x, e.now);
      assert Remembers(q0, q0.routes[p.spawns[i].key], i);
    } else {
      NotRaised(q0, i, x, e.now, e.toolUseId);
    }
  }

  lemma BufferedCarries(p: State, e: Event, away: map<string, set<string>>, out: set<string>, r: Row, i: nat)
    requires OneRowEach(p) && Marked(p) && Accepts(e) && Fresh(p, e) && i < |p.spawns| && RowKey(r) == p.spawns[i].key
    requires RowKey(r) in Keys(p) && RowKey(r) !in out && r.escalatedBy == MarkOf(away, p.spawns, i)
    requires RowKey(r) in p.routes ==> SameButMark(r, p.routes[RowKey(r)].row)
    ensures Remarked(p, e, r).escalatedBy == MarkOf(away[e.toolUseId := out], p.spawns + [NewSpawn(p, e)], i)
  {
    var x, q := NewSpawn(p, e), PruneRoutes(p, e.now);
    EntryOfSpawn(p, e, i);
    MarkOfWith(away, out, p.spawns, x, i);
  }

  lemma OutCarries(p: State, e: Event, away: map<string, set<string>>, out: set<string>, r: Row, i: nat)
    requires OneRowEach(p) && Marked(p) && Accepts(e) && Fresh(p, e) && i < |p.spawns| && RowKey(r) == p.spawns[i].key
    requires RowKey(r) in out && r.escalatedBy == MarkOf(away, p.spawns, i)
    ensures r.escalatedBy == MarkOf(away[e.toolUseId := out], p.spawns + [NewSpawn(p, e)], i)
  {
    MarkOfWith(away, out, p.spawns, NewSpawn(p, e), i);
  }

  lemma RemarkKeepsKey(p: State, e: Event, r: Row)
    ensures RowKey(Remarked(p, e, r)) == RowKey(r) && SameButMark(r, Remarked(p, e, r))
  {
  }

  lemma AcceptRowsOf(f: Flights, p: State, e: Event)
    requires Alike(f.s, p) && Accepts(e)
    ensures var rows, rows' := AllRows(f), AllRows(DoHappen(f, e));
      && |rows'| == |rows|
      && forall j :: 0 <= j < |rows| ==> rows'[j] == if j < |f.s.rows| then Remarked(p, e, rows[j]) else rows[j]
  {
    StepRows(f.s, e);
  }

  /** What stays of the accounts when rows change at most in their mark. */
  lemma SameRowsButMarks(rows: seq<Row>, rows': seq<Row>, p: State, p': State)
    requires OneOfEach(rows) && SameKeys(rows, p) && Keys(p') == Keys(p)
    requires |rows'| == |rows| && forall j :: 0 <= j < |rows| ==> RowKey(rows'[j]) == RowKey(rows[j])
    ensures OneOfEach(rows') && SameKeys(rows', p')
  {
    forall r | r in rows' ensures RowKey(r) in Keys(p') {
      var j :| 0 <= j < |rows'| && rows'[j] == r;
      assert rows[j] in rows;
    }
    forall k | k in Keys(p') ensures exists r :: r in rows' && RowKey(r) == k {
      var r :| r in rows && RowKey(r) == k;
      var j :| 0 <= j < |rows| && rows[j] == r;
      assert rows'[j] in rows';
    }
  }

  /** A buffered row is not out. */
  lemma BufferedNotOut(f: Flights, j: nat)
    requires OneOfEach(AllRows(f)) && j < |f.s.rows|
    ensures RowKey(f.s.rows[j]) !in KeySeq(OutRows(f))
  {
    forall i | 0 <= i < |OutRows(f)| ensures RowKey(OutRows(f)[i]) != RowKey(f.s.rows[j]) {
      assert AllRows(f)[j] == f.s.rows[j] && AllRows(f)[|f.s.rows| + i] == OutRows(f)[i];
    }
  }

  lemma AcceptCarries(f: Flights, p: State, e: Event, j: nat)
    requires Tracked(f, p) && OneRowEach(p) && Marked(p) && Accepts(e) && Fresh(p, e) && j < |AllRows(f)|
    ensures var r := if j < |f.s.rows| then Remarked(p, e, AllRows(f)[j]) else AllRows(f)[j];
      Carries(r, DoHappen(f, e).away, p.spawns + [NewSpawn(p, e)])
  {
    var r0, sp, x := AllRows(f)[j], p.spawns, NewSpawn(p, e);
    var r := if j < |f.s.rows| then Remarked(p, e, r0) else r0;
    var out := OutKeys(f);
    assert r0 in AllRows(f);
    RemarkKeepsKey(p, e, r0);
    forall i: nat | i < |sp| + 1 && RowKey(r) == (sp + [x])[i].key
      ensures r.escalatedBy == MarkOf(f.away[e.toolUseId := out], sp + [x], i)
    {
      assert RowKey(r0) in p.issued && i < |sp|;
      assert Carries(r0, f.away, sp);
      if j < |f.s.rows| {
        BufferedNotOut(f, j);
        BufferedCarries(p, e, f.away, out, r0, i);
      } else {
        assert KeySeq(OutRows(f))[j - |f.s.rows|] == RowKey(r0);
        OutCarries(p, e, f.away, out, r0, i);
      }
    }
  }

  lemma AcceptAllCarry(f: Flights, p: State, e: Event)
    requires Tracked(f, p) && OneRowEach(p) && Marked(p) && Accepts(e) && Fresh(p, e)
    requires |AllRows(DoHappen(f, e))| == |AllRows(f)|
    requires forall j :: 0 <= j < |AllRows(f)| ==>
      AllRows(DoHappen(f, e))[j] == if j < |f.s.rows| then Remarked(p, e, AllRows(f)[j]) else AllRows(f)[j]
    ensures AllCarry(AllRows(DoHappen(f, e)), DoHappen(f, e).away, p.spawns + [NewSpawn(p, e)])
  {
    var rows' := AllRows(DoHappen(f, e));
    forall r | r in rows' ensures Carries(r, DoHappen(f, e).away, p.spawns + [NewSpawn(p, e)]) {
      var j :| 0 <= j < |rows'| && rows'[j] == r;
      AcceptCarries(f, p, e, j);
    }
  }

  lemma AcceptCurrent(rows: seq<Row>, rows': seq<Row>, p: State, e: Event)
    requires OneRowEach(p) && Accepts(e) && Fresh(p, e) && SameKeys(rows, p) && Current(rows, p)
    requires |rows'| == |rows| && forall j :: 0 <= j < |rows| ==> SameButMark(rows[j], rows'[j])
    ensures Current(rows', Next(p, e))
  {
    var p' := Next(p, e);
    AcceptedEntries(p, e);
    forall r | r in rows' && RowKey(r) in p'.routes ensures SameButMark(r, p'.routes[RowKey(r)].row) {
      var j :| 0 <= j < |rows'| && rows'[j] == r;
      assert rows[j] in rows && RowKey(rows[j]) == RowKey(r);
      AcceptedIsCurrent(p, e, rows[j], r);
    }
  }

  lemma AcceptedIsCurrent(p: State, e: Event, r: Row, r': Row)
    requires OneRowEach(p) && Accepts(e) && Fresh(p, e) && RowKey(r) in Keys(p) && SameButMark(r, r')
    requires RowKey(r) in p.routes ==> SameButMark(r, p.routes[RowKey(r)].row)
    ensures RowKey(r') in Next(p, e).routes ==> SameButMark(r', Next(p, e).routes[RowKey(r')].row)
  {
    assert RowKey(r) != NewSpawn(p, e).key by { assert RowKey(r) in p.issued; }
    OldEntry(p, e, RowKey(r));
  }

  /** Of another spawn, an entry was held before and differs by the mark at most. */
  lemma OldEntry(p: State, e: Event, k: string)
    requires Accepts(e) && k != NewSpawn(p, e).key
    ensures k in Next(p, e).routes ==> k in p.routes && SameButMark(p.routes[k].row, Next(p, e).routes[k].row)
  {
    AcceptedEntries(p, e);
  }

  lemma AcceptTracked(f: Flights, p: State, e: Event)
    requires Tracked(f, p) && OneRowEach(p) && Marked(p) && Accepts(e) && Fresh(p, e)
    ensures Tracked(DoHappen(f, e), Next(p, e))
  {
    var f', p', rows, rows' := DoHappen(f, e), Next(p, e), AllRows(f), AllRows(DoHappen(f, e));
    AlikeNext(f.s, p, e);
    AcceptRowsOf(f, p, e);
    AcceptedEntries(p, e);
    SpawnOnce(p, e);
    forall j | 0 <= j < |rows| ensures RowKey(rows'[j]) == RowKey(rows[j]) && SameButMark(rows[j], rows'[j]) {
      RemarkKeepsKey(p, e, rows[j]);
    }
    SameRowsButMarks(rows, rows', p, p');
    AcceptCurrent(rows, rows', p, e);
    AcceptAllCarry(f, p, e);
    AcceptAway(f, p, e);
  }

  lemma AcceptAway(f: Flights, p: State, e: Event)
    requires AwayKnown(f.away, p) && SameKeys(AllRows(f), p) && Accepts(e) && Keys(Next(p, e)) == Keys(p)
    ensures AwayKnown(DoHappen(f, e).away, Next(p, e))
  {
    forall k | k in OutKeys(f) ensures k in Keys(p) { KeysOfOut(f, k); }
  }

  lemma KeysOfOut(f: Flights, k: string)
    requires k in KeySeq(OutRows(f))
    ensures exists r :: r in AllRows(f) && RowKey(r) == k
  {
    var i :| 0 <= i < |OutRows(f)| && KeySeq(OutRows(f))[i] == k;
    assert AllRows(f)[|f.s.rows| + i] == OutRows(f)[i];
  }

  // ---------------------------------------------------------------- over runs

  lemma {:induction false} TracksLedger(ms: seq<Move>)
    requires Moves(ms)
    ensures FreshRun(Events(ms)) && Run(Events(ms)).taken == [] && Tracked(After(ms), Run(Events(ms)))
  {
    if ms == [] {
      assert AllRows(Ground) == [] && Keys(Init) == [];
    } else {
      var front, m := ms[..|ms| - 1], ms[|ms| - 1];
      var f, p := After(front), Run(Events(front));
      TracksLedger(front);
      OneRowRun(Events(front));
      MarkedRun(Events(front));
      match m
      case Happen(e) => HappenTracked(f, Events(front), e);
      case Begin =>
        BeginShuffles(f);
        assert Events(ms) == Events(front);
        Shuffled(f, DoBegin(f), p);
      case Finish(k, ok) =>
        FinishShuffles(f, k, ok);
        assert Events(ms) == Events(front);
        Shuffled(f, DoFinish(f, k, ok), p);
    }
  }

  lemma HappenTracked(f: Flights, es: seq<Event>, e: Event)
    requires FreshRun(es) && Run(es).taken == [] && Tracked(f, Run(es)) && CanMove(f, Happen(e))
    ensures FreshRun(es + [e]) && Run(es + [e]).taken == [] && Tracked(DoHappen(f, e), Run(es + [e]))
  {
    LedgerStep(es, e);
    if Accepts(e) { AcceptTracked(f, Run(es), e); } else { QuietTracked(f, Run(es), e); }
  }

  lemma LedgerStep(es: seq<Event>, e: Event)
    requires FreshRun(es) && Run(es).taken == [] && e != Take && Fresh(Run(es), e)
    ensures FreshRun(es + [e]) && Run(es + [e]) == Next(Run(es), e) && Run(es + [e]).taken == []
    ensures OneRowEach(Run(es)) && Marked(Run(es)) && OneRowEach(Run(es + [e])) && Marked(Run(es + [e]))
  {
    assert (es + [e])[..|es|] == es;
    OneRowRun(es);
    MarkedRun(es);
    StepRows(Run(es), e);
    OneRowRun(es + [e]);
    MarkedRun(es + [e]);
  }

  /**
   * However flushes overlap, fail and put back: each issued key that is not pending has exactly one row,
   * buffered, in flight, in the file or dropped by the cap, and a pending one has none.
   */
  lemma OneRowSomewhere(ms: seq<Move>, k: string)
    requires Moves(ms) && k in After(ms).s.issued
    ensures var f := After(ms);
      && OneOfEach(AllRows(f))
      && (k in KeySeq(AllRows(f)) <==> !(k in f.s.routes && !f.s.routes[k].done))
  {
    TracksLedger(ms);
    OneRowRun(Events(ms));
    var f, p := After(ms), Run(Events(ms));
    if r :| r in AllRows(f) && RowKey(r) == k {
      var j :| 0 <= j < |AllRows(f)| && AllRows(f)[j] == r;
      assert KeySeq(AllRows(f))[j] == k;
    }
    if k in KeySeq(AllRows(f)) {
      var j :| 0 <= j < |AllRows(f)| && KeySeq(AllRows(f))[j] == k;
      assert AllRows(f)[j] in AllRows(f);
    }
  }

  /**
   * Over every run of spawns, completions and overlapping, failing flushes: the row of an accepted spawn,
   * wherever it is, names the first spawn that raises it, unless the row was out of the buffer when that
   * spawn came. Then it has no mark, though it be put back.
   */
  lemma MarkMissedExactly(ms: seq<Move>, i: nat, r: Row)
    requires Moves(ms) && i < |After(ms).s.spawns| && r in AllRows(After(ms)) && RowKey(r) == After(ms).s.spawns[i].key
    ensures var f := After(ms); var sp := f.s.spawns;
      && (r.escalatedBy != Escalator(sp, i, |sp|) <==> Missed(f.away, sp, i))
      && (Missed(f.away, sp, i) ==> r.escalatedBy == None)
  {
    TracksLedger(ms);
    assert Carries(r, After(ms).away, After(ms).s.spawns);
  }

  /** And it never gets one: no later spawn repairs it. */
  lemma {:induction false} MissedForGood(ms: seq<Move>, more: seq<Move>, i: nat)
    requires Moves(ms + more) && Moves(ms) && i < |After(ms).s.spawns| && Missed(After(ms).away, After(ms).s.spawns, i)
    ensures var f, f' := After(ms), After(ms + more);
      f.s.spawns <= f'.s.spawns && Missed(f'.away, f'.s.spawns, i)
  {
    if more == [] {
      assert ms + more == ms;
    } else {
      var n := |more| - 1;
      assert (ms + more)[..|ms + more| - 1] == ms + more[..n] && (ms + more)[|ms + more| - 1] == more[n];
      MissedForGood(ms, more[..n], i);
      MissedStep(ms + more[..n], more[n], i);
    }
  }

  lemma MissedStep(ms: seq<Move>, m: Move, i: nat)
    requires Moves(ms) && CanMove(After(ms), m) && i < |After(ms).s.spawns| && Missed(After(ms).away, After(ms).s.spawns, i)
    ensures var f, f' := After(ms), MoveOn(After(ms), m);
      f.s.spawns <= f'.s.spawns && Missed(f'.away, f'.s.spawns, i)
  {
    var f := After(ms);
    LedgerUnder(ms);
    if m.Happen? {
      if Accepts(m.e) { MissedStays(f, Run(Events(ms)), m.e, i); } else { QuietSpawns(f.s, m.e); }
    }
  }

  lemma LedgerUnder(ms: seq<Move>)
    requires Moves(ms)
    ensures Alike(After(ms).s, Run(Events(ms))) && SpawnHistory(Run(Events(ms)))
  {
    TracksLedger(ms);
    MarkedRun(Events(ms));
  }

  lemma MissedStays(f: Flights, p: State, e: Event, i: nat)
    requires Alike(f.s, p) && SpawnHistory(p) && Accepts(e) && Fresh(p, e)
    requires i < |p.spawns| && Missed(f.away, p.spawns, i)
    ensures var f' := DoHappen(f, e); p.spawns <= f'.s.spawns && Missed(f'.away, f'.s.spawns, i)
  {
    AcceptedEntries(f.s, e);
    MissedWith(f.away, OutKeys(f), p.spawns, NewSpawn(p, e), i);
  }

  lemma {:induction false} MovesPrefix(ms: seq<Move>, m: nat)
    requires Moves(ms) && m <= |ms|
    ensures Moves(ms[..m])
  {
    if m == |ms| {
      assert ms[..m] == ms;
    } else {
      assert ms[..|ms| - 1][..m] == ms[..m];
      MovesPrefix(ms[..|ms| - 1], m);
    }
  }

  /** The history says what it should: the keys whose rows were out of the buffer when the spawn came. */
  lemma {:induction false} AwayIs(ms: seq<Move>, m: nat)
    requires Moves(ms) && m < |ms| && ms[m].Happen? && Accepts(ms[m].e)
    ensures Moves(ms[..m])
    ensures var f, id := After(ms), ms[m].e.toolUseId;
      id in f.s.issued && id in f.away && forall k :: k in f.away[id] <==> k in KeySeq(OutRows(After(ms[..m])))
    decreases |ms|
  {
    MovesPrefix(ms, m);
    var n := |ms| - 1;
    if m == n {
      NewIdIssued(After(ms[..n]), ms[n].e);
    } else {
      assert ms[..n][..m] == ms[..m];
      AwayIs(ms[..n], m);
      if ms[n].Happen? { RouteOutcomes.IssuedStays(After(ms[..n]).s, ms[n].e, ms[m].e.toolUseId); }
    }
  }

  lemma NewIdIssued(f: Flights, e: Event)
    requires Accepts(e)
    ensures e.toolUseId in DoHappen(f, e).s.issued
  {
  }

  // ---------------------------------------------------------------- a run that misses a mark

  const CHEAP := Spawned("1", Some("a"), "d", "haiku", Some("haiku"), 0)

  const ANSWERS := Completed("a", End("answer", false, true), 1, None, 1)

  const REDONE := Spawned("2", None, "d", "opus", Some("opus"), 2)

  const REDONE_AGAIN := Spawned("3", None, "d", "opus", Some("opus"), 3)

  const MISSING_RUN := [Happen(CHEAP), Happen(ANSWERS), Begin, Happen(REDONE), Finish(0, false), Happen(REDONE_AGAIN)]

  const CHEAP_ROW := Row(false, Some("1"), Some("a"), "haiku", Some("haiku"), 0, Answered, "answer", None)

  const CHEAP_ENTRY := RouteEntry(CHEAP_ROW, "haiku", "d", 0, true)

  const CHEAP_SPAWN := Accepted("1", "d", "haiku", Some(Haiku), 0, 0)

  lemma TierNames()
    ensures TierOf("haiku") == Some(Haiku) && TierOf("opus") == Some(Opus)
  {
    assert !Contains("opus", "haiku") && !Contains("opus", "sonnet") && Contains("opus", "opus");
    assert Contains("haiku", "haiku");
  }

  lemma CheapStarted()
    ensures var s := Next(Init, CHEAP);
      && s.routes == map["1" := CHEAP_ENTRY.(done := false, row := CHEAP_ROW.(outcome := Async, endReason := ""))]
      && s.rows == [] && s.byAgent == map["a" := "1"] && s.issued == {"1"} && s.clock == 0
      && "1" in s.dispatches && s.dispatches["1"].running && s.spawns == [CHEAP_SPAWN] && s.session == 0
  {
    TierNames();
  }

  lemma CheapAnswered(s: State)
    requires s == Next(Init, CHEAP)
    ensures var s' := Next(s, ANSWERS);
      && s'.routes == map["1" := CHEAP_ENTRY] && s'.rows == [CHEAP_ROW]
      && s'.issued == {"1"} && s'.clock == 1 && s'.spawns == [CHEAP_SPAWN] && s'.session == 0
  {
    CheapStarted();
  }

  lemma RedoneEntry(s: State, e: Event, entry: RouteEntry)
    requires e == REDONE || e == REDONE_AGAIN
    requires "1" in s.routes && s.routes["1"] == entry && entry.done && entry.(row := CHEAP_ROW) == CHEAP_ENTRY
    ensures var s' := Next(s, e);
      && "1" in s'.routes
      && s'.routes["1"] == entry.(row := if entry.row.escalatedBy.None? then Mark(entry.row, e.toolUseId) else entry.row)
  {
    RaisesCheap(entry, e);
    KeepsEntry(s, e, "1");
  }

  lemma RaisesCheap(entry: RouteEntry, e: Event)
    requires e == REDONE || e == REDONE_AGAIN
    requires entry.(row := CHEAP_ROW) == CHEAP_ENTRY
    ensures Escalates(entry, e.desc, EscalationTierOf(e.requested, e.resolved.value), e.now) <==> entry.row.escalatedBy.None?
  {
    TierNames();
  }

  /** A recent entry is not pruned, and changes as the marking says. */
  lemma KeepsEntry(s: State, e: Event, k: string)
    requires Accepts(e) && k != e.toolUseId && k in s.routes && e.now - s.routes[k].at <= ESCALATION_WINDOW_MS
    ensures k in Next(s, e).routes
    ensures Next(s, e).routes[k] ==
            MarkEntry(s.routes[k], e.desc, EscalationTierOf(e.requested, e.resolved.value), e.toolUseId, e.now)
  {
  }

  lemma RedoneRows(s: State, e: Event)
    requires e == REDONE || e == REDONE_AGAIN
    requires s.rows == [] || (s.rows == [CHEAP_ROW] && "1" in s.routes && s.routes["1"].row != CHEAP_ROW)
    ensures Next(s, e).rows == s.rows
  {
    StepRows(s, e);
  }

  lemma RedoneHistory(s: State, e: Event)
    requires e == REDONE || e == REDONE_AGAIN
    ensures var s' := Next(s, e); s'.issued == s.issued + {e.toolUseId} && s'.clock == e.now
  {
  }

  lemma OneMoreMove(ms: seq<Move>, m: Move)
    requires Moves(ms) && CanMove(After(ms), m)
    ensures Moves(ms + [m]) && After(ms + [m]) == MoveOn(After(ms), m)
  {
    assert (ms + [m])[..|ms|] == ms;
  }

  lemma RowTaken()
    ensures Moves(MISSING_RUN[..3])
    ensures var f := After(MISSING_RUN[..3]);
      && f.s.rows == [] && f.flying == [[CHEAP_ROW]] && f.file == [] == f.dropped && f.away.Keys == {"1"}
      && f.s.routes == map["1" := CHEAP_ENTRY] && f.s.issued == {"1"} && f.s.clock == 1
      && f.s.spawns == [CHEAP_SPAWN] && f.s.session == 0
  {
    var ms := MISSING_RUN;
    CheapStarted();
    OneMoreMove([], ms[0]);
    CheapAnswered(Next(Init, CHEAP));
    assert [] + [ms[0]] == ms[..1] && ms[..1] + [ms[1]] == ms[..2] && ms[..2] + [ms[2]] == ms[..3];
    OneMoreMove(ms[..1], ms[1]);
    OneMoreMove(ms[..2], ms[2]);
  }

  lemma RowRedone()
    ensures Moves(MISSING_RUN[..4])
    ensures var f := After(MISSING_RUN[..4]);
      && f.s.rows == [] && f.flying == [[CHEAP_ROW]] && f.file == [] == f.dropped
      && "1" in f.s.routes && f.s.routes["1"] == CHEAP_ENTRY.(row := Mark(CHEAP_ROW, "2"))
      && f.s.issued == {"1", "2"} && f.s.clock == 2
  {
    var ms := MISSING_RUN;
    RowTaken();
    assert ms[..3] + [ms[3]] == ms[..4];
    assert !(WF <= "2");
    OneMoreMove(ms[..3], ms[3]);
    RedoneEntry(After(ms[..3]).s, REDONE, CHEAP_ENTRY);
    RedoneRows(After(ms[..3]).s, REDONE);
    RedoneHistory(After(ms[..3]).s, REDONE);
  }

  lemma RowPutBack()
    ensures Moves(MISSING_RUN[..5])
    ensures var f := After(MISSING_RUN[..5]);
      && f.s.rows == [CHEAP_ROW]
      && "1" in f.s.routes && f.s.routes["1"] == CHEAP_ENTRY.(row := Mark(CHEAP_ROW, "2"))
      && f.s.issued == {"1", "2"} && f.s.clock == 2
  {
    var ms := MISSING_RUN;
    RowRedone();
    assert ms[..4] + [ms[4]] == ms[..5];
    OneMoreMove(ms[..4], ms[4]);
    assert [CHEAP_ROW] + [] == [CHEAP_ROW] && [CHEAP_ROW][0..] == [CHEAP_ROW];
  }

  /**
   * A cheap spawn answers and its row is taken; the spawn is redone at a higher tier; the flush fails. The
   * row comes back without the mark its entry has, and stays so when the spawn is redone once more.
   */
  lemma PutBackRowMissesItsMark()
    ensures Moves(MISSING_RUN)
    ensures var f := After(MISSING_RUN);
      && f.s.rows == [CHEAP_ROW] && CHEAP_ROW.escalatedBy == None
      && "1" in f.s.routes && f.s.routes["1"].row.escalatedBy == Some("2")
  {
    var ms := MISSING_RUN;
    RowPutBack();
    assert ms[..5] + [ms[5]] == ms;
    assert !(WF <= "3");
    OneMoreMove(ms[..5], ms[5]);
    RedoneEntry(After(ms[..5]).s, REDONE_AGAIN, CHEAP_ENTRY.(row := Mark(CHEAP_ROW, "2")));
    RedoneRows(After(ms[..5]).s, REDONE_AGAIN);
  }
}
