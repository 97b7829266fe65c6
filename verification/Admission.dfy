/**
 * Admission of heavy spawns: the token bucket of plugin/hooks/signals.ts, taken from by `beforeSpawn`
 * (plugin/hooks/router.ts) and re-rated every minute by `tick` (plugin/hooks/live.ts).
 */
module Admission {
  import opened Base

  const BURST: real := 2.0
  const WINDOW_MS: int := 600_000

  /** `tokens` as of minute `t`. */
  datatype Bucket = Bucket(rate: real, burst: real, tokens: real, t: real)

  /** One heavy spawn, at its millisecond. */
  datatype Take = Take(at: int, allowed: bool)

  /** `heavy` are the remembered spawn times; `log` is history. */
  datatype State = State(bucket: Bucket, heavy: seq<int>, log: seq<Take>)

  datatype Event =
    | Spawn(now: int)
    | Tick(now: int, slope: real, headroom: real, minutesToReset: real)

  const Init := State(Bucket(10.0, BURST, BURST, 0.0), [], [])

  function Min(a: real, b: real): real { if a <= b then a else b }

  function Max(a: real, b: real): real { if a >= b then a else b }

  function Minutes(ms: int): real { ms as real / 60000.0 }

  // ---------------------------------------------------------------- operations

  function BucketTake(b: Bucket, now: real, cost: real): (r: (bool, Bucket)) {
    Settle(b, now, cost, Inflow(now - b.t, b.rate))
  }

  function Inflow(minutes: real, rate: real): real { minutes * rate }

  function Settle(b: Bucket, now: real, cost: real, refill: real): (r: (bool, Bucket)) {
    var tokens := Min(b.burst, b.tokens + refill);
    if tokens >= cost then (true, b.(tokens := tokens - cost, t := now))
    else (false, b.(tokens := tokens, t := now))
  }

  /** Whatever the limit window looks like, the rate stays between one spawn in five minutes and ten a minute. */
  function AdmissionRate(spawnsPerMin: real, slope: real, headroom: real, minutesToReset: real): (rate: real)
    ensures 0.2 <= rate <= 10.0
  {
    if slope <= 0.0 || minutesToReset <= 0.0 then 10.0
    else Min(10.0, Max(0.2, spawnsPerMin * (headroom / minutesToReset) / slope))
  }

  /** The spawn times of `xs` that are at most ten minutes before `now`. */
  function Recently(xs: seq<int>, now: int): seq<int> {
    if xs == [] then []
    else
      var x := xs[|xs| - 1];
      Recently(xs[..|xs| - 1], now) + if now - x <= WINDOW_MS then [x] else []
  }

  function DoSpawn(s: State, now: int): State {
    var r := BucketTake(s.bucket, Minutes(now), 1.0);
    State(r.1, Recently(s.heavy, now) + [now], s.log + [Take(now, r.0)])
  }

  function DoTick(s: State, now: int, slope: real, headroom: real, minutesToReset: real): State {
    var spawnsPerMin := |Recently(s.heavy, now)| as real / 10.0;
    s.(bucket := s.bucket.(rate := AdmissionRate(spawnsPerMin, slope, headroom, minutesToReset)))
  }

  function Next(s: State, e: Event): State {
    match e
    case Spawn(now) => DoSpawn(s, now)
    case Tick(now, slope, headroom, minutesToReset) => DoTick(s, now, slope, headroom, minutesToReset)
  }

  function Run(es: seq<Event>): State {
    if es == [] then Init else Next(Run(es[..|es| - 1]), es[|es| - 1])
  }

  /** The clock never goes back, nor below its epoch. */
  predicate InOrder(es: seq<Event>) {
    forall i, j :: 0 <= i <= j < |es| ==> 0 <= es[i].now <= es[j].now
  }

  // ---------------------------------------------------------------- what holds in every run

  function Admissions(log: seq<Take>): nat {
    if log == [] then 0 else Admissions(log[..|log| - 1]) + if log[|log| - 1].allowed then 1 else 0
  }

  /** The bound on any stretch of the log, from its first take to its last. */
  ghost predicate Rationed(log: seq<Take>) {
    forall i: nat, j: nat :: i <= j < |log| ==> RationedIn(log, i, j)
  }

  /** The takes from `i` to `j`. */
  ghost predicate RationedIn(log: seq<Take>, i: nat, j: nat)
    requires i <= j < |log|
  {
    Admissions(log[i..j + 1]) as real <= BURST + 10.0 * (Minutes(log[j].at) - Minutes(log[i].at))
  }

  ghost predicate Recent(log: seq<Take>, i: int, j: int)
    requires 0 <= i && j < |log|
  {
    i < j && log[i].allowed && log[j].at - log[i].at < 300_000
  }

  /** Whoever was refused came less than five minutes after an admission. */
  ghost predicate Served(log: seq<Take>) {
    forall j :: 0 <= j < |log| && !log[j].allowed ==> exists i :: 0 <= i && Recent(log, i, j)
  }

  ghost predicate Tokens(s: State) {
    && s.bucket.burst == BURST && 0.2 <= s.bucket.rate <= 10.0 && 0.0 <= s.bucket.tokens <= BURST
    && s.bucket.t == if s.log == [] then 0.0 else Minutes(s.log[|s.log| - 1].at)
  }

  /** What is still in the bucket has not been admitted: it counts against every stretch that ends now. */
  ghost predicate Credit(s: State) {
    forall i :: 0 <= i < |s.log| ==>
      Admissions(s.log[i..]) as real + s.bucket.tokens <= BURST + 10.0 * (s.bucket.t - Minutes(s.log[i].at))
  }

  /** The bucket refills at the lowest rate at least since some admission, or is full. */
  ghost predicate Refilled(s: State) {
    s.bucket.tokens == BURST || exists i :: 0 <= i < |s.log| && RefilledSince(s, i)
  }

  ghost predicate RefilledSince(s: State, i: nat)
    requires i < |s.log|
  {
    s.log[i].allowed && s.bucket.tokens >= 0.2 * (s.bucket.t - Minutes(s.log[i].at))
  }

  /** All the later proofs use of one take: the bucket refilled at between 0.2 and 10 a minute, at most to its burst. */
  ghost predicate Stepped(s: State, s': State, now: int) {
    && |s'.log| == |s.log| + 1 && s'.log[..|s.log|] == s.log
    && s'.log[|s.log|].at == now && s'.bucket.t == Minutes(now)
    && var filled := s'.bucket.tokens + (if s'.log[|s.log|].allowed then 1.0 else 0.0);
    && filled <= BURST && filled <= s.bucket.tokens + 10.0 * (Minutes(now) - s.bucket.t)
    && (filled == BURST || filled >= s.bucket.tokens + 0.2 * (Minutes(now) - s.bucket.t))
    && (s'.log[|s.log|].allowed <==> filled >= 1.0)
  }

  lemma InflowBounds(minutes: real, rate: real)
    requires 0.2 <= rate <= 10.0 && 0.0 <= minutes
    ensures 0.0 <= 0.2 * minutes <= Inflow(minutes, rate) <= 10.0 * minutes
  {
    assert 0.0 <= minutes * (rate - 0.2);
    assert 0.0 <= minutes * (10.0 - rate);
  }

  lemma SettleSteps(s: State, s': State, now: int, minutes: real, refill: real)
    requires Tokens(s) && 0.0 <= refill && minutes == Minutes(now) - s.bucket.t
    requires 0.2 * minutes <= refill <= 10.0 * minutes
    requires var r := Settle(s.bucket, Minutes(now), 1.0, refill);
      s'.bucket == r.1 && s'.log == s.log + [Take(now, r.0)]
    ensures Tokens(s') && Stepped(s, s', now)
  {
  }

  lemma SpawnSteps(s: State, now: int)
    requires Tokens(s) && s.bucket.t <= Minutes(now)
    ensures Tokens(DoSpawn(s, now)) && Stepped(s, DoSpawn(s, now), now)
  {
    var minutes := Minutes(now) - s.bucket.t;
    InflowBounds(minutes, s.bucket.rate);
    SettleSteps(s, DoSpawn(s, now), now, minutes, Inflow(minutes, s.bucket.rate));
  }

  lemma SpawnCredit(s: State, s': State, now: int, i: nat)
    requires Credit(s) && Stepped(s, s', now) && i < |s'.log|
    ensures Admissions(s'.log[i..]) as real + s'.bucket.tokens <= BURST + 10.0 * (s'.bucket.t - Minutes(s'.log[i].at))
  {
    var n, part := |s.log|, s'.log[i..];
    assert part[..|part| - 1] == s'.log[..n][i..];
    assert part[|part| - 1] == s'.log[n];
    if i == n {
      assert part[..|part| - 1] == [];
    } else {
      assert s'.log[i] == s.log[i];
    }
  }

  lemma SpawnRationed(s: State, s': State, now: int)
    requires Rationed(s.log) && Stepped(s, s', now) && Credit(s') && 0.0 <= s'.bucket.tokens
    ensures Rationed(s'.log)
  {
    OneMoreRationed(s.log, s');
  }

  lemma OneMoreRationed(before: seq<Take>, s: State)
    requires Rationed(before) && |s.log| == |before| + 1 && s.log[..|before|] == before
    requires Credit(s) && 0.0 <= s.bucket.tokens && s.bucket.t == Minutes(s.log[|before|].at)
    ensures Rationed(s.log)
  {
    forall i: nat, j: nat | i <= j < |s.log| ensures RationedIn(s.log, i, j) {
      StretchRationed(before, s, i, j);
    }
  }

  lemma StretchRationed(before: seq<Take>, s: State, i: nat, j: nat)
    requires Rationed(before) && |s.log| == |before| + 1 && s.log[..|before|] == before && i <= j < |s.log|
    requires Credit(s) && 0.0 <= s.bucket.tokens && s.bucket.t == Minutes(s.log[|before|].at)
    ensures RationedIn(s.log, i, j)
  {
    if j < |before| {
      RationedBefore(before, s.log, i, j);
    } else {
      RationedNow(s, i);
    }
  }

  lemma RationedBefore(before: seq<Take>, log: seq<Take>, i: nat, j: nat)
    requires Rationed(before) && i <= j < |before| <= |log| && log[..|before|] == before
    ensures RationedIn(log, i, j)
  {
    assert RationedIn(before, i, j);
    SlicePrefix(before, log, i, j + 1);
    assert log[i] == before[i] && log[j] == before[j];
  }

  lemma RationedNow(s: State, i: nat)
    requires Credit(s) && 0.0 <= s.bucket.tokens && i < |s.log| && s.bucket.t == Minutes(s.log[|s.log| - 1].at)
    ensures RationedIn(s.log, i, |s.log| - 1)
  {
    assert s.log[i..|s.log|] == s.log[i..];
  }

  lemma SpawnRefilled(s: State, s': State, now: int)
    requires Refilled(s) && Stepped(s, s', now) && s.bucket.t <= Minutes(now) && 0.0 <= s'.bucket.tokens
    ensures Refilled(s')
  {
    var n := |s.log|;
    if s'.log[n].allowed {
      assert RefilledSince(s', n);
    } else if s'.bucket.tokens != BURST {
      var i :| 0 <= i < n && RefilledSince(s, i);
      assert s'.log[i] == s.log[i];
      assert RefilledSince(s', i);
    }
  }

  lemma SpawnServed(s: State, s': State, now: int)
    requires Refilled(s) && Served(s.log) && Stepped(s, s', now) && s.bucket.t <= Minutes(now)
    ensures Served(s'.log)
  {
    var log, n := s'.log, |s.log|;
    forall j | 0 <= j < |log| && !log[j].allowed ensures exists i :: 0 <= i && Recent(log, i, j) {
      if j < n {
        assert log[j] == s.log[j];
        var i :| 0 <= i && Recent(s.log, i, j);
        assert log[i] == s.log[i];
        assert Recent(log, i, j);
      } else {
        var i :| 0 <= i < n && RefilledSince(s, i);
        assert log[i] == s.log[i];
        assert Minutes(now) - Minutes(log[i].at) < 5.0;
        assert Recent(log, i, j);
      }
    }
  }

  lemma TickKeeps(s: State, s': State)
    requires Tokens(s) && Refilled(s) && Credit(s) && s'.log == s.log && 0.2 <= s'.bucket.rate <= 10.0
    requires s'.bucket == s.bucket.(rate := s'.bucket.rate)
    ensures Tokens(s') && Refilled(s') && Credit(s')
  {
    if s.bucket.tokens != BURST {
      var i :| 0 <= i < |s.log| && RefilledSince(s, i);
      assert RefilledSince(s', i);
    }
  }

  lemma {:induction false} LastTake(es: seq<Event>)
    requires InOrder(es)
    ensures var log := Run(es).log; log != [] ==> es != [] && log[|log| - 1].at <= es[|es| - 1].now
  {
    if es != [] {
      LastTake(es[..|es| - 1]);
    }
  }

  ghost predicate Inv(s: State) {
    Tokens(s) && Credit(s) && Refilled(s) && Rationed(s.log) && Served(s.log)
  }

  lemma StepKeeps(s: State, s': State, now: int)
    requires Inv(s) && Stepped(s, s', now) && Tokens(s') && s.bucket.t <= Minutes(now)
    ensures Inv(s')
  {
    forall i | 0 <= i < |s'.log|
      ensures Admissions(s'.log[i..]) as real + s'.bucket.tokens <= BURST + 10.0 * (s'.bucket.t - Minutes(s'.log[i].at))
    {
      SpawnCredit(s, s', now, i);
    }
    SpawnRationed(s, s', now);
    SpawnRefilled(s, s', now);
    SpawnServed(s, s', now);
  }

  lemma SpawnKeeps(s: State, now: int)
    requires Inv(s) && s.bucket.t <= Minutes(now)
    ensures Inv(DoSpawn(s, now))
  {
    SpawnSteps(s, now);
    StepKeeps(s, DoSpawn(s, now), now);
  }

  lemma NextKeeps(s: State, e: Event)
    requires Inv(s) && s.bucket.t <= Minutes(e.now)
    ensures Inv(Next(s, e))
  {
    match e
    case Spawn(now) => SpawnKeeps(s, now);
    case Tick(_, _, _, _) => TickKeeps(s, Next(s, e));
  }

  /** The bucket was filled no later than the event that comes now. */
  lemma RunClock(es: seq<Event>)
    requires InOrder(es) && es != [] && Tokens(Run(es[..|es| - 1]))
    ensures Run(es[..|es| - 1]).bucket.t <= Minutes(es[|es| - 1].now)
  {
    LastTake(es[..|es| - 1]);
  }

  lemma {:induction false} AdmissionRun(es: seq<Event>)
    requires InOrder(es)
    ensures Inv(Run(es))
  {
    if es != [] {
      var before, e := es[..|es| - 1], es[|es| - 1];
      AdmissionRun(before);
      RunClock(es);
      assert Run(es) == Next(Run(before), e);
      NextKeeps(Run(before), e);
    }
  }

  /** However the rate is rewritten, the bucket never goes negative nor over its burst. */
  lemma TokensBounded(es: seq<Event>)
    requires InOrder(es)
    ensures 0.0 <= Run(es).bucket.tokens <= BURST && 0.2 <= Run(es).bucket.rate <= 10.0
  {
    AdmissionRun(es);
  }

  /** The admissions between any two takes T minutes apart, both included, are at most burst + 10 T. */
  lemma AdmissionsBounded(es: seq<Event>)
    requires InOrder(es)
    ensures Rationed(Run(es).log)
  {
    AdmissionRun(es);
  }

  /** No starvation: a heavy spawn is refused only less than five minutes after an admitted one. */
  lemma RefusedOnlyAfterAdmission(es: seq<Event>)
    requires InOrder(es)
    ensures Served(Run(es).log)
  {
    AdmissionRun(es);
  }

  // ---------------------------------------------------------------- the pruned spawn times

  function Times(log: seq<Take>): seq<int> {
    if log == [] then [] else Times(log[..|log| - 1]) + [log[|log| - 1].at]
  }

  lemma {:induction false} RecentlyTwice(xs: seq<int>, a: int, b: int)
    requires a <= b
    ensures Recently(Recently(xs, a), b) == Recently(xs, b)
  {
    if xs != [] {
      var n := |xs| - 1;
      RecentlyTwice(xs[..n], a, b);
      RecentlySnoc(Recently(xs[..n], a), xs[n], b);
      assert Recently(xs[..n], a) + [] == Recently(xs[..n], a);
      assert Recently(xs[..n], b) + [] == Recently(xs[..n], b);
    }
  }

  lemma RecentlySnoc(xs: seq<int>, x: int, now: int)
    ensures Recently(xs + [x], now) == Recently(xs, now) + if now - x <= WINDOW_MS then [x] else []
  {
    assert (xs + [x])[..|xs|] == xs;
  }

  /** Pruning is invisible: from the last spawn on a tick counts exactly the heavy spawns of the whole run in its last ten minutes. */
  lemma {:induction false} TickCountsWholeHistory(es: seq<Event>)
    requires InOrder(es)
    ensures var s := Run(es); forall now :: (s.log == [] || s.log[|s.log| - 1].at <= now) ==>
      Recently(s.heavy, now) == Recently(Times(s.log), now)
  {
    if es != [] {
      var s, e := Run(es[..|es| - 1]), es[|es| - 1];
      TickCountsWholeHistory(es[..|es| - 1]);
      LastTake(es[..|es| - 1]);
      if e.Spawn? {
        forall now | e.now <= now ensures Recently(DoSpawn(s, e.now).heavy, now) == Recently(Times(DoSpawn(s, e.now).log), now) {
          SpawnPruned(s.heavy, s.log, DoSpawn(s, e.now).log[|s.log|], now);
        }
      }
    }
  }

  lemma SpawnPruned(heavy: seq<int>, log: seq<Take>, x: Take, now: int)
    requires x.at <= now && Recently(heavy, now) == Recently(Times(log), now)
    ensures Recently(Recently(heavy, x.at) + [x.at], now) == Recently(Times(log + [x]), now)
  {
    assert (log + [x])[..|log|] == log;
    RecentlyTwice(heavy, x.at, now);
    RecentlySnoc(Recently(heavy, x.at), x.at, now);
    RecentlySnoc(Times(log), x.at, now);
  }

  // ---------------------------------------------------------------- the runtime's own fields

  class Limiter {
    var bucket: Bucket
    var heavySpawns: seq<int>
    ghost var model: State

    ghost predicate Valid()
      reads this
    {
      bucket == model.bucket && heavySpawns == model.heavy
    }

    constructor ()
      ensures Valid() && model == Init
    {
      bucket, heavySpawns := Bucket(10.0, BURST, BURST, 0.0), [];
      model := Init;
    }

    /** The heavy-tier branch of `beforeSpawn`. */
    method BeforeSpawn(now: int) returns (admitted: bool)
      requires Valid()
      modifies this
      ensures Valid() && model == DoSpawn(old(model), now) && admitted == model.log[|model.log| - 1].allowed
    {
      var r := BucketTake(bucket, Minutes(now), 1.0);
      bucket := r.1;
      admitted := r.0;
      heavySpawns := Recently(heavySpawns, now) + [now];
      model := DoSpawn(model, now);
    }

    method Tick(now: int, slope: real, headroom: real, minutesToReset: real)
      requires Valid()
      modifies this
      ensures Valid() && model == DoTick(old(model), now, slope, headroom, minutesToReset)
    {
      var spawnsPerMin := |Recently(heavySpawns, now)| as real / 10.0;
      bucket := bucket.(rate := AdmissionRate(spawnsPerMin, slope, headroom, minutesToReset));
      model := DoTick(model, now, slope, headroom, minutesToReset);
    }
  }
}
