/**
 * The bounded retry buffer of plugin/hooks/observe.ts (`record`, `keep`, the append of `flushAll`).
 *
 * A row is known by its number in recording order. A flush is two steps, because the append is
 * awaited: one takes the whole buffer, a later one learns whether the append went through. Several
 * flushes may be in flight at once, and they end in any order.
 */
module RetryBuffer {
  import opened Base

  const MAX_PENDING: nat := 5_000

  /** `flying` holds the batches handed to an append; `file` and `dropped` are where rows end. */
  datatype State = State(next: nat, buf: seq<nat>, flying: seq<seq<nat>>, file: seq<nat>, dropped: seq<nat>)

  const Init := State(0, [], [], [], [])

  /** `Begin` takes the buffer; `Finish(k, ok)` is the end of the append of the k-th batch in flight. */
  datatype Event = Record | Begin | Finish(k: nat, ok: bool)

  /** How many rows a buffer of this length is over the cap. */
  function Over(n: nat): nat {
    if n > MAX_PENDING then n - MAX_PENDING else 0
  }

  /** The cap: the front of the buffer goes. */
  function Capped(s: State, all: seq<nat>): State {
    s.(buf := all[Over(|all|)..], dropped := s.dropped + all[..Over(|all|)])
  }

  function DoRecord(s: State): State {
    Capped(s.(next := s.next + 1), s.buf + [s.next])
  }

  function DoBegin(s: State): State {
    if s.buf == [] then s else s.(buf := [], flying := s.flying + [s.buf])
  }

  /** A failed append puts its rows back in front (`keep`). */
  function DoFinish(s: State, k: nat, ok: bool): State
    requires k < |s.flying|
  {
    var s1 := s.(flying := s.flying[..k] + s.flying[k + 1..]);
    if ok then s1.(file := s.file + s.flying[k]) else Capped(s1, s.flying[k] + s.buf)
  }

  /** A batch that is not in flight cannot finish. */
  predicate CanHappen(s: State, e: Event) {
    e.Finish? ==> e.k < |s.flying|
  }

  function Next(s: State, e: Event): State
    requires CanHappen(s, e)
  {
    match e
    case Record => DoRecord(s)
    case Begin => DoBegin(s)
    case Finish(k, ok) => DoFinish(s, k, ok)
  }

  predicate Happens(es: seq<Event>)
    decreases es, 0
  {
    es != [] ==> Happens(es[..|es| - 1]) && CanHappen(Run(es[..|es| - 1]), es[|es| - 1])
  }

  function Run(es: seq<Event>): State
    requires Happens(es)
    decreases es, 1
  {
    if es == [] then Init else Next(Run(es[..|es| - 1]), es[|es| - 1])
  }

  // ---------------------------------------------------------------- conservation

  function UpTo(n: nat): (xs: seq<nat>)
    ensures |xs| == n && forall i :: 0 <= i < n ==> xs[i] == i
  {
    seq(n, i requires 0 <= i < n => i)
  }

  /** The rows of every place, with multiplicity. */
  function Mass(s: State): multiset<nat> {
    multiset(s.buf) + multiset(Flat<nat>(s.flying)) + multiset(s.file) + multiset(s.dropped)
  }

  lemma CappedMass(s: State, all: seq<nat>)
    ensures Mass(Capped(s, all)) == Mass(s.(buf := all)) && |Capped(s, all).buf| <= MAX_PENDING
  {
    assert all == all[..Over(|all|)] + all[Over(|all|)..];
  }

  lemma FinishMass(s: State, k: nat, ok: bool)
    requires k < |s.flying|
    ensures Mass(DoFinish(s, k, ok)) == Mass(s)
  {
    FlatTake<nat>(s.flying, k);
    var s1 := s.(flying := s.flying[..k] + s.flying[k + 1..]);
    if !ok { CappedMass(s1, s.flying[k] + s.buf); }
  }

  lemma RecordMass(s: State)
    ensures Mass(Next(s, Record)) == Mass(s) + multiset{s.next} && |Next(s, Record).buf| <= MAX_PENDING
  {
    CappedMass(s.(next := s.next + 1), s.buf + [s.next]);
  }

  lemma BeginMass(s: State)
    ensures Mass(DoBegin(s)) == Mass(s)
  {
    FlatConcat<nat>(s.flying, [s.buf]);
    assert [s.buf][1..] == [];
    assert Flat<nat>([s.buf]) == s.buf;
  }

  lemma MassNext(s: State, e: Event)
    requires CanHappen(s, e)
    ensures Mass(Next(s, e)) == Mass(s) + (if e == Record then multiset{s.next} else multiset{})
    ensures |s.buf| <= MAX_PENDING ==> |Next(s, e).buf| <= MAX_PENDING
  {
    match e
    case Record => RecordMass(s);
    case Begin => BeginMass(s);
    case Finish(k, ok) => FinishMass(s, k, ok);
  }

  /** Every number given out so far is somewhere, and the buffer is within its cap. */
  ghost predicate AllThere(s: State) {
    Mass(s) == multiset(UpTo(s.next)) && |s.buf| <= MAX_PENDING
  }

  lemma CountNext(s: State, e: Event)
    requires CanHappen(s, e)
    ensures Next(s, e).next == s.next + if e == Record then 1 else 0
  {
  }

  lemma AllThereNext(s: State, e: Event)
    requires CanHappen(s, e) && AllThere(s)
    ensures AllThere(Next(s, e))
  {
    MassNext(s, e);
    CountNext(s, e);
    StaysAllThere(s, Next(s, e), e == Record);
  }

  lemma StaysAllThere(s: State, s': State, more: bool)
    requires AllThere(s) && s'.next == s.next + (if more then 1 else 0) && |s'.buf| <= MAX_PENDING
    requires Mass(s') == Mass(s) + if more then multiset{s.next} else multiset{}
    ensures AllThere(s')
  {
    if more { UpToSnoc(s.next); }
  }

  lemma {:induction false} MassRun(es: seq<Event>)
    requires Happens(es)
    ensures AllThere(Run(es))
  {
    if es != [] {
      MassRun(es[..|es| - 1]);
      AllThereNext(Run(es[..|es| - 1]), es[|es| - 1]);
    }
  }

  lemma UpToSnoc(n: nat)
    ensures multiset(UpTo(n + 1)) == multiset(UpTo(n)) + multiset{n}
  {
    assert UpTo(n + 1) == UpTo(n) + [n];
  }

  lemma {:induction false} UpToOnce(n: nat, i: nat)
    requires i < n
    ensures multiset(UpTo(n))[i] == 1
  {
    assert UpTo(n) == UpTo(n - 1) + [n - 1];
    if i < n - 1 {
      UpToOnce(n - 1, i);
    } else {
      assert i !in UpTo(n - 1);
    }
  }

  /**
   * Under any interleaving with any number of overlapping flushes, every recorded row is in exactly
   * one place, once: buffered, in flight, in the file, or dropped. The buffer never exceeds its cap.
   */
  lemma EveryRowInOnePlace(es: seq<Event>, i: nat)
    requires Happens(es) && i < Run(es).next
    ensures var s := Run(es);
      multiset(s.buf)[i] + multiset(Flat<nat>(s.flying))[i] + multiset(s.file)[i] + multiset(s.dropped)[i] == 1
    ensures |Run(es).buf| <= MAX_PENDING
  {
    MassRun(es);
    UpToOnce(Run(es).next, i);
  }

  // ---------------------------------------------------------------- order

  ghost predicate Increasing(xs: seq<nat>) {
    forall i, j :: 0 <= i < j < |xs| ==> xs[i] < xs[j]
  }

  /** No flush begins while another is in flight. */
  predicate OneAtATime(es: seq<Event>)
    requires Happens(es)
  {
    es != [] ==>
      OneAtATime(es[..|es| - 1]) && (es[|es| - 1] == Begin ==> Run(es[..|es| - 1]).flying == [])
  }

  /** The file, then what is in flight, then the buffer: in recording order. */
  ghost predicate InOrder(s: State) {
    && |s.flying| <= 1
    && Increasing(s.file + Flat<nat>(s.flying) + s.buf)
    && forall i :: 0 <= i < |s.file + Flat<nat>(s.flying) + s.buf| ==> (s.file + Flat<nat>(s.flying) + s.buf)[i] < s.next
  }

  lemma Cut(xs: seq<nat>, ys: seq<nat>, k: nat, top: nat)
    requires k <= |ys| && Increasing(xs + ys) && forall i :: 0 <= i < |xs + ys| ==> (xs + ys)[i] < top
    ensures Increasing(xs + ys[k..]) && forall i :: 0 <= i < |xs + ys[k..]| ==> (xs + ys[k..])[i] < top
  {
    assert forall i :: 0 <= i < |xs + ys[k..]| ==> (xs + ys[k..])[i] == (xs + ys)[if i < |xs| then i else i + k];
  }

  lemma RecordInOrder(s: State)
    requires InOrder(s)
    ensures InOrder(DoRecord(s))
  {
    var xs := s.file + Flat<nat>(s.flying);
    var ys := s.buf + [s.next];
    assert xs + ys == s.file + Flat<nat>(s.flying) + s.buf + [s.next];
    Cut(xs, ys, Over(|ys|), s.next + 1);
  }

  lemma FinishInOrder(s: State, k: nat, ok: bool)
    requires InOrder(s) && k < |s.flying|
    ensures InOrder(DoFinish(s, k, ok))
  {
    assert s.flying == [s.flying[0]] && s.flying[1..] == [] && Flat<nat>(s.flying) == s.flying[0];
    assert s.flying[..0] + s.flying[1..] == [];
    var ys := s.flying[0] + s.buf;
    assert s.file + ys == s.file + s.flying[0] + s.buf;
    Cut(s.file, ys, Over(|ys|), s.next);
    var s' := DoFinish(s, k, ok);
    assert s'.file + Flat<nat>(s'.flying) + s'.buf == if ok then s.file + s.flying[0] + s.buf else s.file + ys[Over(|ys|)..];
  }

  /**
   * With one flush at a time the file is written in recording order, everything in flight is newer
   * than the file and everything buffered newer still.
   */
  lemma {:induction false} OneFlushKeepsOrder(es: seq<Event>)
    requires Happens(es) && OneAtATime(es)
    ensures InOrder(Run(es)) && Increasing(Run(es).file)
  {
    if es != [] {
      var s := Run(es[..|es| - 1]);
      OneFlushKeepsOrder(es[..|es| - 1]);
      match es[|es| - 1]
      case Record => RecordInOrder(s);
      case Begin => BeginInOrder(s);
      case Finish(k, ok) => FinishInOrder(s, k, ok);
    }
    FileInOrder(Run(es));
  }

  lemma BeginInOrder(s: State)
    requires InOrder(s) && s.flying == []
    ensures InOrder(DoBegin(s))
  {
    assert [s.buf][1..] == [] && Flat<nat>([s.buf]) == s.buf;
    assert s.file + Flat<nat>([]) + s.buf == s.file + s.buf + [];
  }

  lemma FileInOrder(s: State)
    requires InOrder(s)
    ensures Increasing(s.file)
  {
    assert forall i :: 0 <= i < |s.file| ==> s.file[i] == (s.file + Flat<nat>(s.flying) + s.buf)[i];
  }

  /** The rows the cap takes are older than every row it keeps. */
  ghost predicate DropsOldest(all: seq<nat>) {
    forall i, j :: 0 <= i < Over(|all|) <= j < |all| ==> all[i] < all[j]
  }

  /** What a step drops is older than all that its buffer then keeps. */
  ghost predicate StepDropsOldest(s: State, e: Event)
    requires CanHappen(s, e)
  {
    && (e == Record ==> DropsOldest(s.buf + [s.next]))
    && (e.Finish? && !e.ok ==> DropsOldest(s.flying[e.k] + s.buf))
  }

  ghost predicate Safe(es: seq<Event>)
    requires Happens(es)
  {
    es != [] ==> Safe(es[..|es| - 1]) && StepDropsOldest(Run(es[..|es| - 1]), es[|es| - 1])
  }

  /** A batch put back ends below the oldest buffered row. */
  predicate FitsInFront(batch: seq<nat>, buf: seq<nat>) {
    batch == [] || buf == [] || batch[|batch| - 1] < buf[0]
  }

  ghost predicate Orderly(es: seq<Event>)
    requires Happens(es)
  {
    es != [] ==>
      && Orderly(es[..|es| - 1])
      && var s, e := Run(es[..|es| - 1]), es[|es| - 1]; e.Finish? && !e.ok ==> FitsInFront(s.flying[e.k], s.buf)
  }

  ghost predicate Sorted(xs: seq<nat>, top: nat) {
    Increasing(xs) && |xs| <= MAX_PENDING && forall i :: 0 <= i < |xs| ==> xs[i] < top
  }

  ghost predicate AllSorted(s: State) {
    Sorted(s.buf, s.next) && EachSorted(s.flying, s.next)
  }

  ghost predicate EachSorted(flying: seq<seq<nat>>, top: nat) {
    forall k :: 0 <= k < |flying| ==> Sorted(flying[k], top)
  }

  lemma OthersSorted(flying: seq<seq<nat>>, k: nat, top: nat)
    requires EachSorted(flying, top) && k < |flying|
    ensures EachSorted(flying[..k] + flying[k + 1..], top)
  {
    var others := flying[..k] + flying[k + 1..];
    forall j | 0 <= j < |others| ensures Sorted(others[j], top) {
      assert others[j] == flying[if j < k then j else j + 1];
    }
  }

  function Newest(all: seq<nat>): seq<nat> {
    all[Over(|all|)..]
  }

  lemma NewestSorted(all: seq<nat>, top: nat)
    requires Increasing(all) && forall i :: 0 <= i < |all| ==> all[i] < top
    ensures Sorted(Newest(all), top) && DropsOldest(all)
  {
  }

  lemma JoinSorted(batch: seq<nat>, buf: seq<nat>, top: nat)
    requires Sorted(batch, top) && Sorted(buf, top) && FitsInFront(batch, buf)
    ensures Increasing(batch + buf) && forall i :: 0 <= i < |batch + buf| ==> (batch + buf)[i] < top
  {
    forall i, j | 0 <= i < j < |batch + buf| ensures (batch + buf)[i] < (batch + buf)[j] {
      if i < |batch| <= j {
        assert batch[i] <= batch[|batch| - 1] < buf[0] <= buf[j - |batch|];
      }
    }
  }

  lemma OrderlyStep(s: State, e: Event)
    requires CanHappen(s, e) && AllSorted(s) && (e.Finish? && !e.ok ==> FitsInFront(s.flying[e.k], s.buf))
    ensures AllSorted(Next(s, e)) && StepDropsOldest(s, e)
  {
    match e
    case Record => RecordSorted(s);
    case Begin =>
    case Finish(k, ok) =>
      if ok { OthersSorted(s.flying, k, s.next); } else { PutBackSorted(s, k); }
  }

  lemma RecordSorted(s: State)
    requires AllSorted(s)
    ensures AllSorted(Next(s, Record)) && DropsOldest(s.buf + [s.next])
  {
    NewestOf(s.buf, [s.next], s.next + 1);
  }

  lemma PutBackSorted(s: State, k: nat)
    requires AllSorted(s) && k < |s.flying| && FitsInFront(s.flying[k], s.buf)
    ensures AllSorted(DoFinish(s, k, false)) && DropsOldest(s.flying[k] + s.buf)
  {
    OthersSorted(s.flying, k, s.next);
    NewestOf(s.flying[k], s.buf, s.next);
  }

  lemma NewestOf(batch: seq<nat>, buf: seq<nat>, top: nat)
    requires Sorted(batch, top) && Sorted(buf, top) && FitsInFront(batch, buf)
    ensures Sorted((batch + buf)[Over(|batch + buf|)..], top) && DropsOldest(batch + buf)
  {
    JoinSorted(batch, buf, top);
    NewestSorted(batch + buf, top);
  }

  lemma {:induction false} OrderlyRun(es: seq<Event>)
    requires Happens(es) && Orderly(es)
    ensures AllSorted(Run(es)) && Safe(es)
  {
    if es != [] {
      OrderlyRun(es[..|es| - 1]);
      OrderlyStep(Run(es[..|es| - 1]), es[|es| - 1]);
    }
  }

  lemma {:induction false} PrefixOrderly(es: seq<Event>, m: nat)
    requires Happens(es) && m <= |es|
    ensures Happens(es[..m]) && (Orderly(es) ==> Orderly(es[..m]))
  {
    if m == |es| {
      assert es[..m] == es;
    } else {
      assert es[..|es| - 1][..m] == es[..m];
      PrefixOrderly(es[..|es| - 1], m);
    }
  }

  /** `n` more rows were recorded. */
  ghost predicate Recorded(s: State, t: State, n: nat) {
    t.next == s.next + n && t.buf == Newest(s.buf + From(s.next, n))
  }

  lemma RecordMore(s: State, t: State, n: nat)
    requires Recorded(s, t, n)
    ensures Recorded(s, DoRecord(t), n + 1)
  {
    NewestAgain(s.buf + From(s.next, n), t.next);
    Assoc(s.buf, From(s.next, n), [t.next]);
  }

  lemma NewestAgain(xs: seq<nat>, x: nat)
    ensures Newest(Newest(xs) + [x]) == Newest(xs + [x])
  {
  }

  lemma RecordsSnoc(es: seq<Event>, n: nat)
    ensures es + Records(n + 1) == es + Records(n) + [Record]
  {
  }

  lemma NoneRecorded(es: seq<Event>)
    requires Happens(es)
    ensures Recorded(Run(es), Run(es), 0)
  {
    assert Run(es).buf + From(Run(es).next, 0) == Run(es).buf;
    MassRun(es);
  }

  lemma {:induction false} MoreRecords(es: seq<Event>, n: nat)
    requires Happens(es)
    ensures Happens(es + Records(n)) && Recorded(Run(es), Run(es + Records(n)), n)
  {
    if n == 0 {
      assert es + Records(0) == es;
      NoneRecorded(es);
    } else {
      MoreRecords(es, n - 1);
      RecordsSnoc(es, n - 1);
      Extend(es + Records(n - 1), Record);
      RecordMore(Run(es), Run(es + Records(n - 1)), n - 1);
    }
  }

  lemma ExtendOrderly(es: seq<Event>)
    requires Happens(es) && Happens(es + [Record])
    ensures Orderly(es) ==> Orderly(es + [Record])
    ensures Safe(es + [Record]) ==> StepDropsOldest(Run(es), Record)
  {
    assert (es + [Record])[..|es|] == es;
  }

  lemma {:induction false} RecordsOrderly(es: seq<Event>, n: nat)
    requires Happens(es) && Orderly(es)
    ensures Happens(es + Records(n)) && Orderly(es + Records(n))
  {
    MoreRecords(es, n);
    if n == 0 {
      assert es + Records(0) == es;
    } else {
      RecordsOrderly(es, n - 1);
      RecordsSnoc(es, n - 1);
      ExtendOrderly(es + Records(n - 1));
    }
  }

  /** An older row behind a newer one is kept when the newer one is dropped from the front. */
  lemma FrontInverted(s: State, t: State, n: nat, k: nat)
    requires Recorded(s, t, n) && k + 1 < |s.buf| && s.buf[k] >= s.buf[k + 1] && |s.buf| + n == MAX_PENDING + k
    ensures !StepDropsOldest(t, Record)
  {
    var all := s.buf + From(s.next, n);
    var ys := t.buf + [t.next];
    assert Over(|all|) == k && t.buf[0] == all[k] && t.buf[1] == all[k + 1];
    assert ys[0] == s.buf[k] && ys[1] == s.buf[k + 1] && Over(|ys|) == 1;
  }

  /** So after enough records an inversion in the buffer shows. */
  lemma InversionShows(es: seq<Event>, k: nat)
    requires Happens(es) && k + 1 < |Run(es).buf| && Run(es).buf[k] >= Run(es).buf[k + 1]
    ensures exists n: nat :: Happens(es + Records(n)) && !Safe(es + Records(n))
  {
    MassRun(es);
    var n := MAX_PENDING - |Run(es).buf| + k;
    MoreRecords(es, n);
    MoreRecords(es, n + 1);
    FrontInverted(Run(es), Run(es + Records(n)), n, k);
    RecordsSnoc(es, n);
    ExtendOrderly(es + Records(n));
    assert !Safe(es + Records(n + 1));
  }

  /** A batch that does not fit in front is put back: the cap takes a newer row at once, or leaves one before an older. */
  lemma PutBackInverts(batch: seq<nat>, buf: seq<nat>)
    requires !FitsInFront(batch, buf) && |batch| <= MAX_PENDING && |buf| <= MAX_PENDING
    ensures var all := batch + buf; var k := |batch| - 1 - Over(|all|);
      !DropsOldest(all) || (0 <= k && k + 1 < |Newest(all)| && Newest(all)[k] >= Newest(all)[k + 1])
  {
    var all := batch + buf;
    assert all[|batch| - 1] == batch[|batch| - 1] && all[|batch|] == buf[0];
  }

  ghost predicate SafeWith(es: seq<Event>, m: nat, n: nat)
    requires m <= |es|
  {
    Happens(es[..m] + Records(n)) && Safe(es[..m] + Records(n))
  }

  lemma {:induction false} DisorderShows(es: seq<Event>)
    requires Happens(es) && !Orderly(es)
    ensures exists m: nat, n: nat :: m <= |es| && !SafeWith(es, m, n)
  {
    var pre := es[..|es| - 1];
    if !Orderly(pre) {
      DisorderShows(pre);
      var m: nat, n: nat :| m <= |pre| && !SafeWith(pre, m, n);
      assert pre[..m] == es[..m];
      assert !SafeWith(es, m, n);
    } else {
      var s, e := Run(pre), es[|es| - 1];
      OrderlyRun(pre);
      PutBackInverts(s.flying[e.k], s.buf);
      var all := s.flying[e.k] + s.buf;
      assert es[..|es|] == es;
      if !DropsOldest(all) {
        assert es[..|es|] + Records(0) == es;
        assert !SafeWith(es, |es|, 0);
      } else {
        var k := |s.flying[e.k]| - 1 - Over(|all|);
        assert Run(es).buf == Newest(all);
        InversionShows(es, k);
        var n: nat :| Happens(es + Records(n)) && !Safe(es + Records(n));
        assert !SafeWith(es, |es|, n);
      }
    }
  }

  /**
   * Whatever else is recorded after any part of the run, only rows older than all kept are dropped, by
   * a record and by a batch put back alike, exactly when every batch put back ended below the oldest
   * row then buffered.
   */
  lemma DropsOldestExactly(es: seq<Event>)
    requires Happens(es)
    ensures (forall m: nat, n: nat :: m <= |es| ==> SafeWith(es, m, n)) <==> Orderly(es)
  {
    if Orderly(es) {
      forall m: nat, n: nat | m <= |es| ensures SafeWith(es, m, n) {
        PrefixOrderly(es, m);
        RecordsOrderly(es[..m], n);
        OrderlyRun(es[..m] + Records(n));
      }
    } else {
      DisorderShows(es);
    }
  }

  lemma Tail(xs: seq<nat>, ys: seq<nat>, top: nat)
    requires Increasing(xs + ys) && forall i :: 0 <= i < |xs + ys| ==> (xs + ys)[i] < top
    ensures Increasing(ys) && forall i :: 0 <= i < |ys| ==> ys[i] < top
  {
    assert forall i :: 0 <= i < |ys| ==> ys[i] == (xs + ys)[|xs| + i];
  }

  /** With one flush at a time that is always so, at every step. */
  lemma OneFlushDropsOldest(es: seq<Event>, e: Event)
    requires Happens(es) && OneAtATime(es) && CanHappen(Run(es), e)
    ensures StepDropsOldest(Run(es), e)
  {
    OneFlushKeepsOrder(es);
    MassRun(es);
    if e.Finish? { FinishDropsOldest(Run(es), e.k); } else { RecordDropsOldest(Run(es)); }
  }

  lemma FinishDropsOldest(s: State, k: nat)
    requires InOrder(s) && k < |s.flying|
    ensures DropsOldest(s.flying[k] + s.buf)
  {
    assert s.flying == [s.flying[0]] && s.flying[1..] == [] && Flat<nat>(s.flying) == s.flying[0];
    Assoc(s.file, s.flying[0], s.buf);
    Tail(s.file, s.flying[0] + s.buf, s.next);
  }

  lemma RecordDropsOldest(s: State)
    requires InOrder(s) && |s.buf| <= MAX_PENDING
    ensures DropsOldest(s.buf + [s.next])
  {
    Tail(s.file + Flat<nat>(s.flying), s.buf, s.next);
    JoinSorted(s.buf, [s.next], s.next + 1);
  }

  // ---------------------------------------------------------------- overlapping flushes

  function Records(n: nat): seq<Event> {
    seq(n, i => Record)
  }

  function From(a: nat, n: nat): (xs: seq<nat>)
    ensures |xs| == n && forall i :: 0 <= i < n ==> xs[i] == a + i
  {
    if n == 0 then [] else From(a, n - 1) + [a + n - 1]
  }

  function RecordedAfter(s: State, n: nat): State {
    s.(next := s.next + n, buf := From(s.next, n))
  }

  lemma {:induction false} AfterRecords(es: seq<Event>, n: nat)
    requires Happens(es) && Run(es).buf == [] && n <= MAX_PENDING
    ensures Happens(es + Records(n)) && Run(es + Records(n)) == RecordedAfter(Run(es), n)
  {
    if n == 0 {
      assert es + Records(0) == es;
    } else {
      AfterRecords(es, n - 1);
      assert es + Records(n) == es + Records(n - 1) + [Record];
      Extend(es + Records(n - 1), Record);
      RecordOne(Run(es), n - 1);
    }
  }

  lemma RecordOne(s: State, n: nat)
    requires n < MAX_PENDING && s.buf == []
    ensures DoRecord(RecordedAfter(s, n)) == RecordedAfter(s, n + 1)
  {
    var t := RecordedAfter(s, n);
    var all := t.buf + [t.next];
    assert Over(|all|) == 0 && all[0..] == all && all[..0] == [];
    assert t.dropped + all[..0] == t.dropped;
    assert all == RecordedAfter(s, n + 1).buf;
  }

  lemma Extend(es: seq<Event>, e: Event)
    requires Happens(es) && CanHappen(Run(es), e)
    ensures Happens(es + [e]) && Run(es + [e]) == Next(Run(es), e)
  {
    assert (es + [e])[..|es|] == es;
  }

  /** `n` rows are recorded and taken. */
  lemma BatchTaken(es: seq<Event>, n: nat)
    requires Happens(es) && Run(es).buf == [] && 0 < n <= MAX_PENDING
    ensures var s := Run(es); var fs := es + Records(n) + [Begin];
      Happens(fs) && Run(fs) == s.(next := s.next + n, flying := s.flying + [From(s.next, n)])
  {
    AfterRecords(es, n);
    Extend(es + Records(n), Begin);
  }

  /** Row 0 is taken, then rows 1 to `m`; both appends fail, the earlier one first. */
  function Overlap(m: nat): seq<Event> {
    [] + Records(1) + [Begin] + Records(m) + [Begin] + [Finish(0, false)]
  }

  lemma OverlapReached(m: nat)
    requires 0 < m <= MAX_PENDING
    ensures Happens(Overlap(m)) && Run(Overlap(m)) == State(m + 1, [0], [From(1, m)], [], [])
  {
    BatchTaken([], 1);
    var e1 := [] + Records(1) + [Begin];
    assert From(0, 1) == [0];
    BatchTaken(e1, m);
    var e2 := e1 + Records(m) + [Begin];
    assert Run(e2).flying == [[0], From(1, m)];
    Extend(e2, Finish(0, false));
    assert [[0], From(1, m)][1..] == [From(1, m)];
    assert [0] + [] == [0];
    assert [0][0..] == [0] && [0][..0] == [];
  }

  /** A full batch put back before an older row that is already there. */
  lemma FullBatchPutBack(s: State, batch: seq<nat>)
    requires s.flying == [batch] && s.buf == [0] && s.dropped == [] && |batch| == MAX_PENDING && batch[0] == 1
    ensures !DropsOldest(batch + s.buf)
    requires batch[1] == 2 && s.next == MAX_PENDING + 1
    ensures var t := DoFinish(s, 0, false);
      t.dropped == [1] && 0 in t.buf && DoRecord(t).dropped == [1, 2] && 0 in DoRecord(t).buf
  {
    var all := batch + [0];
    assert all[0] == 1 && all[|batch|] == 0 && Over(|all|) == 1;
    assert all[..1] == [1];
    assert all[1..][|batch| - 1] == 0;
    var more := all[1..] + [s.next];
    assert Over(|more|) == 1 && more[..1] == [2] && more[1..][|batch| - 2] == 0;
    assert [1] + [2] == [1, 2];
  }

  /** With m the cap, row 1 is dropped then and the older row 0 kept; the next record drops row 2 and keeps 0 still. */
  lemma OverlapDropsTheNewer(m: nat)
    requires m == MAX_PENDING
    ensures Happens(Overlap(m)) && |Run(Overlap(m)).flying| == 1
    ensures !DropsOldest(Run(Overlap(m)).flying[0] + Run(Overlap(m)).buf)
    ensures var s := DoFinish(Run(Overlap(m)), 0, false); var t := DoRecord(s);
      s.dropped == [1] && 0 in s.buf && t.dropped == [1, 2] && 0 in t.buf
  {
    OverlapReached(m);
    FullBatchPutBack(Run(Overlap(m)), From(1, m));
  }

  // ---------------------------------------------------------------- the buffer as the plugin keeps it

  class Buffer {
    var rows: seq<nat>
    ghost var model: State

    ghost predicate Valid()
      reads this
    {
      rows == model.buf
    }

    constructor ()
      ensures Valid() && model == Init
    {
      rows, model := [], Init;
    }

    method Record(row: nat)
      requires Valid() && row == model.next
      modifies this
      ensures Valid() && model == DoRecord(old(model))
    {
      rows := rows + [row];
      if |rows| > MAX_PENDING { rows := rows[|rows| - MAX_PENDING..]; }
      model := DoRecord(model);
    }

    /** Hands out all rows; the caller awaits the append of what it gets, if there is any. */
    method BeginFlush() returns (batch: seq<nat>)
      requires Valid()
      modifies this
      ensures Valid() && batch == old(model).buf && model == DoBegin(old(model))
    {
      batch := rows;
      rows := [];
      model := DoBegin(model);
    }

    /** The append of the batch ended. */
    method EndFlush(ghost k: nat, batch: seq<nat>, ok: bool)
      requires Valid() && k < |model.flying| && model.flying[k] == batch
      modifies this
      ensures Valid() && model == DoFinish(old(model), k, ok)
    {
      if !ok { Keep(batch); }
      model := DoFinish(model, k, ok);
    }

    /** `keep`: unshift, then cut the front to the cap. */
    method Keep(batch: seq<nat>)
      modifies `rows
      ensures rows == (batch + old(rows))[Over(|batch| + |old(rows)|)..]
    {
      rows := batch + rows;
      if |rows| > MAX_PENDING { rows := rows[|rows| - MAX_PENDING..]; }
    }
  }
}
