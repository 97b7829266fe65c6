/**
 * Which agents need the user: `_apply_acks`, `resolve` and the blocker tokens of
 * src/apex_router/agent_inbox.py, over the acks file of module AckFile.
 */
module Needs {
  import opened Base
  import opened AckStore
  import opened AckFile

  const NEEDS_STATES: set<string> := {"failed", "capped", "blocked", "cancelled", "timed_out"}
  const BAD_VERDICTS: set<string> := {"NO-GO", "BLOCKED"}
  const NEEDS_MAX_AGE_S: real := 172800.0

  /** One open blocker; its key is a hash of its text. */
  datatype Blocker = Blocker(key: string, text: string)

  datatype Agent = Agent(id: string, state: string, verdict: Option<string>, start: Option<real>, end: Option<real>, open: seq<Blocker>)

  datatype Group = NeedsYou | Running | Done

  datatype Judgement = Judgement(resolved: seq<bool>, badState: bool, badVerdict: bool, stale: bool, group: Group)

  /** What `e.get(field)` gives: None for a field that is not there. */
  function Shown(f: Field): Option<string> {
    match f
    case Absent => None
    case Nil => None
    case Text(t) => Some(t)
  }

  /** `it.get("end") or it.get("start")`: an end of 0 counts as none. */
  function TimeOf(a: Agent): Option<real> {
    if a.end.Some? && a.end.value != 0.0 then a.end else a.start
  }

  predicate TooOld(a: Agent, now: Option<real>) {
    a.state != "running" && now.Some? && TimeOf(a).Some? && now.value - TimeOf(a).value > NEEDS_MAX_AGE_S
  }

  function ResolvedFlags(open: seq<Blocker>, keys: seq<string>): (r: seq<bool>)
    ensures |r| == |open| && forall i :: 0 <= i < |open| ==> r[i] == (open[i].key in keys)
  {
    if open == [] then [] else [open[0].key in keys] + ResolvedFlags(open[1..], keys)
  }

  function KnownKeys(e: Option<Entry>): seq<string> {
    if e.Some? then e.value.keys else []
  }

  predicate BadState(a: Agent, e: Option<Entry>) {
    a.state in NEEDS_STATES && !(e.Some? && e.value.all && Shown(e.value.state) == Some(a.state))
  }

  predicate BadVerdict(a: Agent, e: Option<Entry>) {
    a.verdict.Some? && a.verdict.value in BAD_VERDICTS && !(e.Some? && e.value.all && Shown(e.value.verdict) == a.verdict)
  }

  predicate Alarming(a: Agent, e: Option<Entry>) {
    BadState(a, e) || BadVerdict(a, e) || exists i :: 0 <= i < |a.open| && a.open[i].key !in KnownKeys(e)
  }

  function Judge(a: Agent, e: Option<Entry>, now: Option<real>): Judgement {
    var group :=
      if Alarming(a, e) then (if TooOld(a, now) then Done else NeedsYou)
      else if a.state == "running" then Running else Done;
    Judgement(ResolvedFlags(a.open, KnownKeys(e)), BadState(a, e), BadVerdict(a, e), Alarming(a, e) && TooOld(a, now), group)
  }

  /** The entry `_apply_acks` looks up; a corrupt file counts as no acks. */
  function AckOf(f: File, id: string): Option<Entry> {
    if AckRead(f).Some? then Lookup(AckRead(f).value, id) else None
  }

  function OpenKeys(open: seq<Blocker>): (ks: seq<string>)
    ensures |ks| == |open| && forall i :: 0 <= i < |open| ==> ks[i] == open[i].key
  {
    if open == [] then [] else [open[0].key] + OpenKeys(open[1..])
  }

  function VerdictField(v: Option<string>): Field {
    if v.Some? then Text(v.value) else Nil
  }

  /** `agents resolve <id>` without a key, and each item of `resolve --all`. */
  function ResolveAll(a: Agent, now: Stamp): Op {
    Resolve(a.id, OpenKeys(a.open), true, VerdictField(a.verdict), Text(a.state), now)
  }

  // ---------------------------------------------------------------- resolving everything

  predicate HasKeys(a: Agent) {
    forall i :: 0 <= i < |a.open| ==> KeyOk(a.open[i].key)
  }

  /** The keys on record for an item leave room for its open ones. */
  ghost predicate RoomFor(known: seq<string>, keys: seq<string>) {
    var added := |Merge(known, keys)| - |known|;
    added <= KEYS_MAX && forall i :: 0 <= i < |known| + added - KEYS_MAX ==> known[i] !in keys
  }

  lemma EntryAfter(f: File, op: Op)
    requires Sound(f) && op.Resolve? && IdOk(op.iid) && OpFits(f, op)
    ensures var g := AfterWrite(f, op).1;
      Sound(g) && AckOf(g, op.iid) == Some(Settle(NewEntry(AckOf(f, op.iid), op.keys, op.all, op.verdict, op.state, op.now)))
  {
    var cur := AckRead(f).value;
    var own := OwnItem(cur, op);
    ResolveIsSound(f, op);
    WrittenKeeps(cur, own);
    LookupSettled(Written(cur, own), op.iid);
    LookupIn(Written(cur, own), own);
  }

  lemma ResolvedEntry(f: File, a: Agent, now: Stamp)
    requires Sound(f) && IdOk(a.id) && HasKeys(a) && OpFits(f, ResolveAll(a, now))
    ensures var g := AfterWrite(f, ResolveAll(a, now)).1;
      && Sound(g) && AckOf(g, a.id).Some? && AckOf(g, a.id).value.all
      && AckOf(g, a.id).value.keys == Last(Merge(KnownKeys(AckOf(f, a.id)), OpenKeys(a.open)), KEYS_MAX)
      && AckOf(g, a.id).value.verdict == SettleField(VerdictField(a.verdict))
      && AckOf(g, a.id).value.state == SettleField(Text(a.state))
  {
    EntryAfter(f, ResolveAll(a, now));
  }

  lemma BadAreShort(s: string)
    requires s in NEEDS_STATES || s in BAD_VERDICTS
    ensures |s| <= SHOWN_MAX && s != "running"
  {
  }

  /** Only a short text can be bad, so losing an overlong one on the way through the file changes nothing. */
  lemma FieldMatches(stored: Option<string>, shown: string)
    requires shown in NEEDS_STATES || shown in BAD_VERDICTS
    ensures Shown(SettleField(VerdictField(stored))) == Some(shown) <==> stored == Some(shown)
  {
    BadAreShort(shown);
  }

  lemma KnownIsClean(f: File, id: string)
    requires Sound(f)
    ensures CleanKeys(KnownKeys(AckOf(f, id)))
  {
    var cur := AckRead(f).value;
    LookupFound(cur, id);
    if Lookup(cur, id).Some? {
      assert CleanItem(Item(id, Lookup(cur, id).value));
    }
  }

  /** Both stays resolved and comes back as it should: what a later look at a resolved item finds. */
  lemma AlarmingAfterResolve(f: File, a: Agent, now: Stamp, g: File, b: Agent)
    requires Sound(f) && IdOk(a.id) && HasKeys(a) && OpFits(f, ResolveAll(a, now))
    requires b.id == a.id && AckOf(g, a.id) == AckOf(AfterWrite(f, ResolveAll(a, now)).1, a.id)
    ensures Alarming(b, AckOf(g, b.id)) <==>
      || (exists i :: 0 <= i < |b.open| && b.open[i].key !in Last(Merge(KnownKeys(AckOf(f, a.id)), OpenKeys(a.open)), KEYS_MAX))
      || (b.verdict.Some? && b.verdict.value in BAD_VERDICTS && b.verdict != a.verdict)
      || (b.state in NEEDS_STATES && b.state != a.state)
  {
    ResolvedEntry(f, a, now);
    AlarmingAgainst(AckOf(g, a.id).value, a, b);
  }

  lemma AlarmingAgainst(e: Entry, a: Agent, b: Agent)
    requires e.all && e.verdict == SettleField(VerdictField(a.verdict)) && e.state == SettleField(Text(a.state))
    ensures Alarming(b, Some(e)) <==>
      || (exists i :: 0 <= i < |b.open| && b.open[i].key !in e.keys)
      || (b.verdict.Some? && b.verdict.value in BAD_VERDICTS && b.verdict != a.verdict)
      || (b.state in NEEDS_STATES && b.state != a.state)
  {
    if b.verdict.Some? && b.verdict.value in BAD_VERDICTS {
      FieldMatches(a.verdict, b.verdict.value);
    }
    if b.state in NEEDS_STATES {
      FieldMatches(Some(a.state), b.state);
    }
  }

  /**
   * After "resolve all" an item is not in "needs", whatever the time, exactly when its open keys found
   * room beside those on record for it (or it is too old to be there anyway).
   */
  lemma ResolveAllClears(f: File, a: Agent, stamp: Stamp, now: Option<real>)
    requires Sound(f) && IdOk(a.id) && HasKeys(a) && OpFits(f, ResolveAll(a, stamp))
    ensures var g := AfterWrite(f, ResolveAll(a, stamp)).1;
      Judge(a, AckOf(g, a.id), now).group != NeedsYou
      <==> RoomFor(KnownKeys(AckOf(f, a.id)), OpenKeys(a.open)) || TooOld(a, now)
  {
    var g := AfterWrite(f, ResolveAll(a, stamp)).1;
    AlarmingAfterResolve(f, a, stamp, g, a);
    KnownIsClean(f, a.id);
    RoomExactly(KnownKeys(AckOf(f, a.id)), a);
    NeedsYouIf(a, AckOf(g, a.id), now);
  }

  lemma RoomExactly(known: seq<string>, a: Agent)
    requires CleanKeys(known) && HasKeys(a)
    ensures (exists i :: 0 <= i < |a.open| && a.open[i].key !in Last(Merge(known, OpenKeys(a.open)), KEYS_MAX))
       <==> !RoomFor(known, OpenKeys(a.open))
  {
    ResolvedKeysStay(known, OpenKeys(a.open));
    KeysLeft(a.open, Last(Merge(known, OpenKeys(a.open)), KEYS_MAX));
    AllKeysOk(a);
  }

  lemma KeysLeft(open: seq<Blocker>, kept: seq<string>)
    ensures (exists i :: 0 <= i < |open| && open[i].key !in kept) <==> exists k :: k in OpenKeys(open) && k !in kept
  {
    var keys := OpenKeys(open);
    if i :| 0 <= i < |open| && open[i].key !in kept { assert keys[i] in keys; }
    if k :| k in keys && k !in kept { var i :| 0 <= i < |keys| && keys[i] == k; }
  }

  lemma AllKeysOk(a: Agent)
    requires HasKeys(a)
    ensures forall k :: k in OpenKeys(a.open) ==> KeyOk(k)
  {
    forall k | k in OpenKeys(a.open) ensures KeyOk(k) {
      var i :| 0 <= i < |OpenKeys(a.open)| && OpenKeys(a.open)[i] == k;
    }
  }

  /**
   * A resolved item comes back to "needs" exactly when a blocker whose key is not on record, another bad
   * verdict or another bad state shows up while it runs, has no time or is at most 48 hours old. On record
   * are, as long as they are at most 200, the keys known before and those resolved.
   */
  lemma ReturnsExactly(f: File, a: Agent, stamp: Stamp, g: File, b: Agent, now: Option<real>)
    requires Sound(f) && IdOk(a.id) && HasKeys(a) && OpFits(f, ResolveAll(a, stamp))
    requires b.id == a.id && AckOf(g, a.id) == AckOf(AfterWrite(f, ResolveAll(a, stamp)).1, a.id)
    ensures Judge(b, AckOf(g, b.id), now).group == NeedsYou <==>
      && (|| (exists i :: 0 <= i < |b.open| && b.open[i].key !in KnownKeys(AckOf(g, b.id)))
          || (b.verdict.Some? && b.verdict.value in BAD_VERDICTS && b.verdict != a.verdict)
          || (b.state in NEEDS_STATES && b.state != a.state))
      && (b.state == "running" || now.None? || TimeOf(b).None? || now.value - TimeOf(b).value <= 172800.0)
    ensures |Merge(KnownKeys(AckOf(f, a.id)), OpenKeys(a.open))| <= KEYS_MAX ==>
      forall k :: k in KnownKeys(AckOf(g, b.id)) <==> k in KnownKeys(AckOf(f, a.id)) || k in OpenKeys(a.open)
  {
    ResolvedEntry(f, a, stamp);
    AlarmingAfterResolve(f, a, stamp, g, b);
    MergeMembers(KnownKeys(AckOf(f, a.id)), OpenKeys(a.open));
    AllKeysOk(a);
    NeedsYouIf(b, AckOf(g, b.id), now);
  }

  lemma NeedsYouIf(b: Agent, e: Option<Entry>, now: Option<real>)
    ensures Judge(b, e, now).group == NeedsYou <==> Alarming(b, e) && !TooOld(b, now)
  {
  }

  /** The oldest of 200 keys on record makes room for a new one. */
  predicate PushesOut(known: seq<string>, k: string) {
    k !in known && |known| >= KEYS_MAX
  }

  /**
   * Resolving one key leaves the verdict and the state as they were. It clears that blocker and leaves
   * every other one alone exactly if the key was known, fewer than 200 keys were, or no open blocker has
   * the oldest known key.
   */
  lemma ResolveOneKey(f: File, a: Agent, k: string, stamp: Stamp)
    requires Sound(f) && IdOk(a.id) && KeyOk(k) && stamp.len <= 24
    ensures var g := AfterWrite(f, Resolve(a.id, [k], false, Nil, Nil, stamp)).1; var known := KnownKeys(AckOf(f, a.id));
      var before, after := Judge(a, AckOf(f, a.id), None), Judge(a, AckOf(g, a.id), None);
      && ((forall i :: 0 <= i < |a.open| ==> after.resolved[i] == (before.resolved[i] || a.open[i].key == k))
          <==> k in known || |known| < KEYS_MAX || forall i :: 0 <= i < |a.open| ==> a.open[i].key != known[0])
      && after.badState == before.badState && after.badVerdict == before.badVerdict
  {
    OneKeyEntry(f, a.id, k, stamp);
    KnownIsClean(f, a.id);
  }

  lemma OneKeyMerged(known: seq<string>, k: string)
    requires CleanKeys(known) && KeyOk(k)
    ensures var kept := Last(Merge(known, [k]), KEYS_MAX);
      forall x :: x in kept <==> (x in known || x == k) && (PushesOut(known, k) ==> x != known[0])
  {
    MergeMembers(known, [k]);
    var all := Merge(known, [k]);
    if PushesOut(known, k) {
      assert |known| == KEYS_MAX && [k][1..] == [] && all == known + [k];
      var kept := Last(all, KEYS_MAX);
      assert kept == known[1..] + [k];
      assert forall x :: x in known <==> x == known[0] || x in known[1..];
      assert known[0] !in known[1..];
    } else {
      OneNewKey(known, k);
    }
  }

  lemma OneNewKey(known: seq<string>, k: string)
    requires KeyOk(k)
    ensures Merge(known, [k]) == if k in known then known else known + [k]
  {
    assert [k][1..] == [];
  }

  lemma OneKeyEntry(f: File, id: string, k: string, stamp: Stamp)
    requires Sound(f) && IdOk(id) && KeyOk(k) && stamp.len <= 24
    ensures var e, e' := AckOf(f, id), AckOf(AfterWrite(f, Resolve(id, [k], false, Nil, Nil, stamp)).1, id);
      var known := KnownKeys(e);
      && e'.Some?
      && (forall x :: x in e'.value.keys <==> (x in known || x == k) && (PushesOut(known, k) ==> x != known[0]))
      && e'.value.all == (e.Some? && e.value.all)
      && e'.value.verdict == (if e.Some? then e.value.verdict else Absent)
      && e'.value.state == (if e.Some? then e.value.state else Absent)
  {
    var op := Resolve(id, [k], false, Nil, Nil, stamp);
    ShortTextsFit(f, op);
    EntryAfter(f, op);
    KnownIsClean(f, id);
    OneKeyMerged(KnownKeys(AckOf(f, id)), k);
    LookupSettled(AckRead(f).value, id);
  }

  /** New keys that are all well formed and different are simply appended. */
  lemma {:induction false} MergeNew(ks: seq<string>, keys: seq<string>)
    requires NoDup(ks + keys) && forall i :: 0 <= i < |keys| ==> KeyOk(keys[i])
    ensures Merge(ks, keys) == ks + keys
    decreases |keys|
  {
    if keys == [] {
      assert ks + keys == ks;
    } else {
      var all := ks + keys;
      forall i | 0 <= i < |ks| ensures ks[i] != keys[0] { assert all[i] == ks[i] && all[|ks|] == keys[0]; }
      assert ks + [keys[0]] + keys[1..] == all;
      MergeNew(ks + [keys[0]], keys[1..]);
    }
  }

  const MANY_KEYS := Resolve("x", HexKeys(200), false, Nil, Nil, Stamp(0.0, 3))

  const ONE_MORE := Resolve("x", [HexKey(200)], false, Nil, Nil, Stamp(1.0, 3))

  const TWO_BLOCKERS := Agent("x", "running", None, None, None, [Blocker(HexKey(0), "a"), Blocker(HexKey(200), "b")])

  lemma ManyKeysMerged()
    ensures Last(Merge([], HexKeys(200)), KEYS_MAX) == HexKeys(200)
  {
    HexKeysClean(200);
    assert forall i :: 0 <= i < |HexKeys(200)| ==> HexKeys(200)[i] in HexKeys(200);
    assert [] + HexKeys(200) == HexKeys(200);
    MergeNew([], HexKeys(200));
  }

  lemma NothingIsSound()
    ensures Sound(NoFile) && AckOf(NoFile, "x") == None
  {
    DocLength([]);
  }

  lemma ManyKeysKnown()
    ensures var f := AfterWrite(NoFile, MANY_KEYS).1; Sound(f) && KnownKeys(AckOf(f, "x")) == HexKeys(200)
  {
    NothingIsSound();
    ManyKeysMerged();
    ShortTextsFit(NoFile, MANY_KEYS);
    EntryAfter(NoFile, MANY_KEYS);
  }

  lemma TwoFlags(e: Option<Entry>)
    ensures Judge(TWO_BLOCKERS, e, None).resolved == [HexKey(0) in KnownKeys(e), HexKey(200) in KnownKeys(e)]
  {
  }

  lemma OneMoreKnown(f: File)
    requires Sound(f) && KnownKeys(AckOf(f, "x")) == HexKeys(200)
    ensures var ks := KnownKeys(AckOf(AfterWrite(f, ONE_MORE).1, "x")); HexKey(0) !in ks && HexKey(200) in ks
  {
    HexKeyOk(200);
    HexKeysAt(200, 0);
    HexKeysDiffer(0, 200);
    NextKeyIsNew();
    OneKeyEntry(f, "x", HexKey(200), Stamp(1.0, 3));
  }

  /** An item with 200 keys on record: resolving one of its two open blockers reopens the other. */
  lemma NewKeyReopensOldest()
    ensures var f := AfterWrite(NoFile, MANY_KEYS).1; var g := AfterWrite(f, ONE_MORE).1;
      && Judge(TWO_BLOCKERS, AckOf(f, "x"), None).resolved == [true, false]
      && Judge(TWO_BLOCKERS, AckOf(g, "x"), None).resolved == [false, true]
  {
    var f := AfterWrite(NoFile, MANY_KEYS).1;
    ManyKeysKnown();
    OneMoreKnown(f);
    TwoFlags(AckOf(f, "x"));
    TwoFlags(AckOf(AfterWrite(f, ONE_MORE).1, "x"));
    HexKeysAt(200, 0);
    assert HexKeys(200)[0] in HexKeys(200);
    NextKeyIsNew();
  }

  // ---------------------------------------------------------------- tokens

  /** Why an item needs the user. */
  datatype Reason = Key(key: string) | Verdict(verdict: string) | State(state: string)

  function TokenTail(r: Reason): string {
    match r
    case Key(key) => key
    case Verdict(v) => "verdict:" + v
    case State(s) => "state:" + s
  }

  function Token(id: string, r: Reason): string {
    id + ":" + TokenTail(r)
  }

  lemma {:induction false} SplitAtColon(a: string, x: string, b: string, y: string)
    requires ':' !in a && ':' !in b && a + ":" + x == b + ":" + y
    ensures a == b && x == y
  {
    var s := a + ":" + x;
    assert s[|a|] == ':' && s[..|a|] == a && s[|a| + 1..] == x;
    assert s == b + ":" + y;
    assert s[|b|] == ':' && s[..|b|] == b && s[|b| + 1..] == y;
    assert forall i :: 0 <= i < |a| ==> s[i] in a;
    assert forall i :: 0 <= i < |b| ==> s[i] in b;
  }

  /** The first character of a token's tail tells the kind of its reason. */
  lemma TailHead(r: Reason)
    requires r.Key? ==> KeyOk(r.key)
    ensures TokenTail(r) != "" && (r.Verdict? <==> TokenTail(r)[0] == 'v') && (r.State? <==> TokenTail(r)[0] == 's')
  {
    if r.Key? {
      assert r.key[0] in r.key;
    }
  }

  /** Two different reasons, or the same one at two agents, never share a token. */
  lemma TokensDiffer(id: string, r: Reason, id': string, r': Reason)
    requires IdOk(id) && IdOk(id') && (r.Key? ==> KeyOk(r.key)) && (r'.Key? ==> KeyOk(r'.key))
    ensures Token(id, r) == Token(id', r') ==> id == id' && r == r'
  {
    if Token(id, r) == Token(id', r') {
      SplitAtColon(id, TokenTail(r), id', TokenTail(r'));
      TailHead(r);
      TailHead(r');
      var t := TokenTail(r);
      if r.Verdict? && r'.Verdict? { assert t[8..] == r.verdict && t[8..] == r'.verdict; }
      if r.State? && r'.State? { assert t[6..] == r.state && t[6..] == r'.state; }
    }
  }

  function OpenReasons(open: seq<Blocker>, resolved: seq<bool>): seq<Reason>
    requires |resolved| == |open|
  {
    if open == [] then []
    else (if resolved[0] then [] else [Key(open[0].key)]) + OpenReasons(open[1..], resolved[1..])
  }

  function Reasons(a: Agent, j: Judgement): seq<Reason>
    requires |j.resolved| == |a.open|
  {
    OpenReasons(a.open, j.resolved)
    + (if j.badVerdict && a.verdict.Some? then [Verdict(a.verdict.value)] else [])
    + (if j.badState then [State(a.state)] else [])
  }

  lemma {:induction false} OpenReasonsExist(open: seq<Blocker>, resolved: seq<bool>)
    requires |resolved| == |open|
    ensures OpenReasons(open, resolved) != [] <==> exists i :: 0 <= i < |open| && !resolved[i]
  {
    if open != [] {
      OpenReasonsExist(open[1..], resolved[1..]);
      if i :| 0 <= i < |open[1..]| && !resolved[1..][i] {
        assert !resolved[i + 1];
      }
      if i :| 0 < i < |open| && !resolved[i] {
        assert !resolved[1..][i - 1];
      }
    }
  }

  /** An item is in "needs" exactly when it is not too old and has at least one token to announce. */
  lemma NeedsHasAToken(a: Agent, e: Option<Entry>, now: Option<real>)
    ensures var j := Judge(a, e, now); j.group == NeedsYou <==> Reasons(a, j) != [] && !TooOld(a, now)
  {
    OpenReasonsExist(a.open, Judge(a, e, now).resolved);
  }

  // ---------------------------------------------------------------- the item's own fields

  /** The fields `_apply_acks` sets on an item. */
  class InboxItem {
    const agent: Agent
    var resolved: seq<bool>
    var badState: bool
    var badVerdict: bool
    var stale: bool
    var group: Group

    constructor (agent: Agent)
      ensures this.agent == agent
    {
      this.agent := agent;
      resolved, badState, badVerdict, stale, group := [], false, false, false, Done;
    }

    method ApplyAcks(e: Option<Entry>, now: Option<real>)
      modifies this
      ensures Judgement(resolved, badState, badVerdict, stale, group) == Judge(agent, e, now)
    {
      var open;
      resolved, open := MarkResolved(agent.open, KnownKeys(e));
      badState := BadState(agent, e);
      badVerdict := BadVerdict(agent, e);
      stale := false;
      if badState || badVerdict || open {
        if TooOld(agent, now) {
          group, stale := Done, true;
        } else {
          group := NeedsYou;
        }
      } else if agent.state == "running" {
        group := Running;
      } else {
        group := Done;
      }
    }
  }

  /** The loop that marks each blocker, and whether any is left. */
  method MarkResolved(open: seq<Blocker>, keys: seq<string>) returns (resolved: seq<bool>, left: bool)
    ensures resolved == ResolvedFlags(open, keys)
    ensures left <==> exists i :: 0 <= i < |open| && open[i].key !in keys
  {
    resolved, left := [], false;
    var i := 0;
    while i < |open|
      invariant 0 <= i <= |open| && |resolved| == i
      invariant forall k :: 0 <= k < i ==> resolved[k] == (open[k].key in keys)
      invariant left <==> exists k :: 0 <= k < i && open[k].key !in keys
    {
      resolved := resolved + [open[i].key in keys];
      left := left || open[i].key !in keys;
      i := i + 1;
    }
  }
}
