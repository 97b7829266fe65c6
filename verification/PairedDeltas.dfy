/**
 * Cell-local pairing of candidates against the incumbent: `deltas_from_rows` of src/apex_router/bench.py.
 * A dict in insertion order is a list of its keys beside a map.
 */
module PairedDeltas {
  import opened Base
  import opened Sorting

  /** A benchmark row; a field that is missing or None is None. */
  datatype Row = Row(split: Option<string>, cell: Option<string>, run: Option<string>, snapshot: Option<string>,
                     step: string, model: string, score: real)

  datatype Error = ManyRuns | ManySnapshots | Duplicate

  datatype Slot = Slot(models: seq<string>, scores: map<string, real>)

  /** `by_step`: the steps as they were first seen, and the scores of each. */
  datatype Table = Table(steps: seq<string>, slots: map<string, Slot>)

  datatype Deltas = Deltas(model: string, values: seq<real>)

  datatype Scope = Scope(split: Option<string>, cell: Option<string>, run: Option<string>, snapshot: Option<string>)

  // ---------------------------------------------------------------- scope

  function InCell(rows: seq<Row>, sc: Scope): (r: seq<Row>) {
    if rows == [] then []
    else (if rows[0].split == sc.split && rows[0].cell == sc.cell then [rows[0]] else []) + InCell(rows[1..], sc)
  }

  function AddNew(xs: seq<string>, x: Option<string>): seq<string> {
    if x.Some? && x.value !in xs then xs + [x.value] else xs
  }

  /** The distinct values of a field, None left out. */
  function Runs(rows: seq<Row>): seq<string> {
    if rows == [] then [] else AddNew(Runs(rows[..|rows| - 1]), rows[|rows| - 1].run)
  }

  function Snapshots(rows: seq<Row>): seq<string> {
    if rows == [] then [] else AddNew(Snapshots(rows[..|rows| - 1]), rows[|rows| - 1].snapshot)
  }

  /** An explicit argument wins; otherwise the only value there is, if there is one. */
  function Resolve(given: Option<string>, values: seq<string>, e: Error): Result<Option<string>, Error> {
    if given.Some? then Ok(given)
    else if |values| > 1 then Err(e)
    else Ok(if values == [] then None else Some(values[0]))
  }

  function Narrow(rows: seq<Row>, run: Option<string>, snapshot: Option<string>): seq<Row> {
    if rows == [] then []
    else
      (if (run.Some? ==> rows[0].run == run) && (snapshot.Some? ==> rows[0].snapshot == snapshot) then [rows[0]] else [])
      + Narrow(rows[1..], run, snapshot)
  }

  /** The rows that are paired, or why none can be. */
  function Scoped(rows: seq<Row>, sc: Scope): Result<seq<Row>, Error> {
    var cell := InCell(rows, sc);
    match Resolve(sc.run, Runs(cell), ManyRuns)
    case Err(e) => Err(e)
    case Ok(run) =>
      match Resolve(sc.snapshot, Snapshots(cell), ManySnapshots)
      case Err(e) => Err(e)
      case Ok(snapshot) => Ok(Narrow(cell, run, snapshot))
  }

  // ---------------------------------------------------------------- index

  function SlotOf(t: Table, step: string): Slot {
    if step in t.slots then t.slots[step] else Slot([], map[])
  }

  predicate Has(t: Table, step: string, model: string) {
    step in t.slots && model in t.slots[step].scores
  }

  function Put(t: Table, r: Row): Table {
    var slot := SlotOf(t, r.step);
    Table(if r.step in t.slots then t.steps else t.steps + [r.step],
          t.slots[r.step := Slot(slot.models + [r.model], slot.scores[r.model := r.score])])
  }

  function Index(rows: seq<Row>): Result<Table, Error> {
    if rows == [] then Ok(Table([], map[]))
    else
      match Index(rows[..|rows| - 1])
      case Err(e) => Err(e)
      case Ok(t) =>
        var r := rows[|rows| - 1];
        if Has(t, r.step, r.model) then Err(Duplicate) else Ok(Put(t, r))
  }

  // ---------------------------------------------------------------- deltas

  function Append(ds: seq<Deltas>, model: string, d: real): seq<Deltas> {
    if ds == [] then [Deltas(model, [d])]
    else if ds[0].model == model then [Deltas(model, ds[0].values + [d])] + ds[1..]
    else [ds[0]] + Append(ds[1..], model, d)
  }

  predicate Paired(slot: Slot, incumbent: string, model: string) {
    model != incumbent && incumbent in slot.scores && model in slot.scores
  }

  function Delta(slot: Slot, incumbent: string, model: string): real
    requires Paired(slot, incumbent, model)
  {
    slot.scores[model] - slot.scores[incumbent]
  }

  /** One step: each of the candidates named, in that order. */
  function StepDeltas(ds: seq<Deltas>, slot: Slot, models: seq<string>, incumbent: string): seq<Deltas> {
    if models == [] then ds
    else
      var before := StepDeltas(ds, slot, models[..|models| - 1], incumbent);
      var m := models[|models| - 1];
      if Paired(slot, incumbent, m) then Append(before, m, Delta(slot, incumbent, m)) else before
  }

  function AllDeltas(t: Table, steps: seq<string>, incumbent: string): seq<Deltas> {
    if steps == [] then []
    else
      var slot := SlotOf(t, steps[|steps| - 1]);
      StepDeltas(AllDeltas(t, steps[..|steps| - 1], incumbent), slot, SortStrings(slot.models), incumbent)
  }

  function DeltasFromRows(rows: seq<Row>, incumbent: string, sc: Scope): Result<seq<Deltas>, Error> {
    match Scoped(rows, sc)
    case Err(e) => Err(e)
    case Ok(scoped) =>
      match Index(scoped)
      case Err(e) => Err(e)
      case Ok(t) => Ok(AllDeltas(t, SortStrings(t.steps), incumbent))
  }

  // ---------------------------------------------------------------- the index is the set of its rows

  ghost predicate RowFor(rows: seq<Row>, step: string, model: string, score: real) {
    exists i :: 0 <= i < |rows| && rows[i].step == step && rows[i].model == model && rows[i].score == score
  }

  ghost predicate DistinctPairs(rows: seq<Row>) {
    forall i, j :: 0 <= i < j < |rows| ==> rows[i].step != rows[j].step || rows[i].model != rows[j].model
  }

  /** Steps and models are listed once each, just as they occur in the maps. */
  ghost predicate Listed(t: Table) {
    && NoDup(t.steps) && (forall s :: s in t.steps <==> s in t.slots)
    && forall s :: s in t.slots ==>
         NoDup(t.slots[s].models) && t.slots[s].models != [] && forall m :: m in t.slots[s].models <==> m in t.slots[s].scores
  }

  ghost predicate Holds(t: Table, rows: seq<Row>) {
    forall s, m, x :: (Has(t, s, m) && t.slots[s].scores[m] == x) <==> RowFor(rows, s, m, x)
  }

  lemma PutListed(t: Table, r: Row)
    requires Listed(t) && !Has(t, r.step, r.model)
    ensures Listed(Put(t, r))
  {
  }

  lemma PutHolds(t: Table, rows: seq<Row>, r: Row)
    requires Holds(t, rows) && !Has(t, r.step, r.model)
    ensures Holds(Put(t, r), rows + [r])
  {
    var t', rows' := Put(t, r), rows + [r];
    forall s, m, x ensures (Has(t', s, m) && t'.slots[s].scores[m] == x) <==> RowFor(rows', s, m, x) {
      assert RowFor(rows', s, m, x) <==> RowFor(rows, s, m, x) || (r.step == s && r.model == m && r.score == x) by {
        if RowFor(rows, s, m, x) {
          var i :| 0 <= i < |rows| && rows[i].step == s && rows[i].model == m && rows[i].score == x;
          assert rows'[i] == rows[i];
        }
        assert rows'[|rows|] == r;
      }
      assert !RowFor(rows, r.step, r.model, x);
    }
  }

  lemma NewPairs(t: Table, before: seq<Row>, r: Row)
    requires Holds(t, before) && DistinctPairs(before) && !Has(t, r.step, r.model)
    ensures DistinctPairs(before + [r])
  {
    forall i | 0 <= i < |before| ensures before[i].step != r.step || before[i].model != r.model {
      assert RowFor(before, before[i].step, before[i].model, before[i].score);
    }
  }

  lemma {:induction false} IndexIs(rows: seq<Row>)
    ensures Index(rows).Ok? <==> DistinctPairs(rows)
    ensures Index(rows).Ok? ==> Listed(Index(rows).value) && Holds(Index(rows).value, rows)
  {
    if rows != [] {
      var n := |rows| - 1;
      var before, r := rows[..n], rows[n];
      IndexIs(before);
      assert rows == before + [r];
      if Index(before).Ok? {
        var t := Index(before).value;
        assert Has(t, r.step, r.model) ==> RowFor(before, r.step, r.model, t.slots[r.step].scores[r.model]);
        if !Has(t, r.step, r.model) {
          PutListed(t, r);
          PutHolds(t, before, r);
          NewPairs(t, before, r);
        } else {
          var i :| 0 <= i < |before| && before[i].step == r.step && before[i].model == r.model;
          assert rows[i] == before[i];
        }
      } else {
        assert forall i :: 0 <= i < n ==> before[i] == rows[i];
      }
    }
  }

  // ---------------------------------------------------------------- the order of the rows does not matter

  lemma {:induction false} InCellCount(rows: seq<Row>, sc: Scope, x: Row)
    ensures multiset(InCell(rows, sc))[x] == if x.split == sc.split && x.cell == sc.cell then multiset(rows)[x] else 0
  {
    if rows != [] {
      InCellCount(rows[1..], sc, x);
      assert rows == [rows[0]] + rows[1..];
    }
  }

  lemma {:induction false} NarrowCount(rows: seq<Row>, run: Option<string>, snapshot: Option<string>, x: Row)
    ensures multiset(Narrow(rows, run, snapshot))[x] ==
            if (run.Some? ==> x.run == run) && (snapshot.Some? ==> x.snapshot == snapshot) then multiset(rows)[x] else 0
  {
    if rows != [] {
      NarrowCount(rows[1..], run, snapshot, x);
      assert rows == [rows[0]] + rows[1..];
    }
  }

  lemma InCellPermutes(rows: seq<Row>, rows': seq<Row>, sc: Scope)
    requires multiset(rows) == multiset(rows')
    ensures multiset(InCell(rows, sc)) == multiset(InCell(rows', sc))
  {
    forall x ensures multiset(InCell(rows, sc))[x] == multiset(InCell(rows', sc))[x] {
      InCellCount(rows, sc, x);
      InCellCount(rows', sc, x);
    }
  }

  lemma NarrowPermutes(rows: seq<Row>, rows': seq<Row>, run: Option<string>, snapshot: Option<string>)
    requires multiset(rows) == multiset(rows')
    ensures multiset(Narrow(rows, run, snapshot)) == multiset(Narrow(rows', run, snapshot))
  {
    forall x ensures multiset(Narrow(rows, run, snapshot))[x] == multiset(Narrow(rows', run, snapshot))[x] {
      NarrowCount(rows, run, snapshot, x);
      NarrowCount(rows', run, snapshot, x);
    }
  }

  lemma {:induction false} RunsAre(rows: seq<Row>)
    ensures NoDup(Runs(rows))
    ensures forall v :: v in Runs(rows) <==> exists r :: r in rows && r.run == Some(v)
  {
    if rows != [] {
      var n := |rows| - 1;
      RunsAre(rows[..n]);
      assert rows == rows[..n] + [rows[n]];
      assert forall r :: r in rows <==> r in rows[..n] || r == rows[n];
    }
  }

  lemma {:induction false} SnapshotsAre(rows: seq<Row>)
    ensures NoDup(Snapshots(rows))
    ensures forall v :: v in Snapshots(rows) <==> exists r :: r in rows && r.snapshot == Some(v)
  {
    if rows != [] {
      var n := |rows| - 1;
      SnapshotsAre(rows[..n]);
      assert rows == rows[..n] + [rows[n]];
      assert forall r :: r in rows <==> r in rows[..n] || r == rows[n];
    }
  }

  lemma {:induction false} NoDupCount(xs: seq<string>, x: string)
    requires NoDup(xs)
    ensures multiset(xs)[x] == if x in xs then 1 else 0
  {
    if xs != [] {
      assert xs == [xs[0]] + xs[1..];
      NoDupCount(xs[1..], x);
      assert x in xs[1..] ==> x != xs[0];
    }
  }

  /** Two lists of the same distinct strings are permutations of each other. */
  lemma SameMembers(xs: seq<string>, ys: seq<string>)
    requires NoDup(xs) && NoDup(ys) && forall x :: x in xs <==> x in ys
    ensures multiset(xs) == multiset(ys) && |xs| == |ys|
  {
    forall x ensures multiset(xs)[x] == multiset(ys)[x] {
      NoDupCount(xs, x);
      NoDupCount(ys, x);
    }
    assert |multiset(xs)| == |xs| && |multiset(ys)| == |ys|;
  }

  lemma SameResolution(given: Option<string>, xs: seq<string>, ys: seq<string>, e: Error)
    requires NoDup(xs) && NoDup(ys) && forall x :: x in xs <==> x in ys
    ensures Resolve(given, xs, e) == Resolve(given, ys, e)
  {
    SameMembers(xs, ys);
    if |xs| == 1 {
      assert xs[0] in ys;
    }
  }

  lemma SameRows(rows: seq<Row>, rows': seq<Row>)
    requires multiset(rows) == multiset(rows')
    ensures forall r :: r in rows <==> r in rows'
  {
    forall r ensures r in rows <==> r in rows' {
      assert r in rows <==> r in multiset(rows);
      assert r in rows' <==> r in multiset(rows');
    }
  }

  lemma ScopedPermutes(rows: seq<Row>, rows': seq<Row>, sc: Scope)
    requires multiset(rows) == multiset(rows')
    ensures var a, b := Scoped(rows, sc), Scoped(rows', sc);
      (a.Err? ==> b == a) && (a.Ok? ==> b.Ok? && multiset(a.value) == multiset(b.value))
  {
    var c, c' := InCell(rows, sc), InCell(rows', sc);
    InCellPermutes(rows, rows', sc);
    SameRows(c, c');
    RunsAre(c);
    RunsAre(c');
    SnapshotsAre(c);
    SnapshotsAre(c');
    SameResolution(sc.run, Runs(c), Runs(c'), ManyRuns);
    SameResolution(sc.snapshot, Snapshots(c), Snapshots(c'), ManySnapshots);
    var run, snapshot := Resolve(sc.run, Runs(c), ManyRuns), Resolve(sc.snapshot, Snapshots(c), ManySnapshots);
    if run.Ok? && snapshot.Ok? {
      NarrowPermutes(c, c', run.value, snapshot.value);
    }
  }

  lemma TwiceCounted(rows: seq<Row>, i: nat, j: nat)
    requires i < j < |rows| && rows[i] == rows[j]
    ensures multiset(rows)[rows[i]] >= 2
  {
    assert rows == rows[..j] + [rows[j]] + rows[j + 1..];
    assert rows[i] == rows[..j][i];
    assert multiset(rows[..j])[rows[i]] >= 1;
  }

  lemma {:induction false} DistinctCountedOnce(rows: seq<Row>, x: Row)
    requires DistinctPairs(rows)
    ensures multiset(rows)[x] <= 1
  {
    if rows != [] {
      assert rows == [rows[0]] + rows[1..];
      DistinctCountedOnce(rows[1..], x);
      assert rows[0] !in rows[1..];
    }
  }

  lemma DistinctPermutes(rows: seq<Row>, rows': seq<Row>)
    requires multiset(rows) == multiset(rows') && DistinctPairs(rows)
    ensures DistinctPairs(rows')
  {
    SameRows(rows, rows');
    forall i, j | 0 <= i < j < |rows'| ensures rows'[i].step != rows'[j].step || rows'[i].model != rows'[j].model {
      var x, y := rows'[i], rows'[j];
      assert x in rows' && y in rows';
      var k :| 0 <= k < |rows| && rows[k] == x;
      var l :| 0 <= l < |rows| && rows[l] == y;
      if x == y {
        TwiceCounted(rows', i, j);
        DistinctCountedOnce(rows, x);
        assert false;
      }
      assert k < l || l < k;
    }
  }

  /** All the deltas use of a table. */
  ghost predicate SameTable(t: Table, t': Table) {
    && SortStrings(t.steps) == SortStrings(t'.steps)
    && forall s :: SlotOf(t, s).scores == SlotOf(t', s).scores && SortStrings(SlotOf(t, s).models) == SortStrings(SlotOf(t', s).models)
  }

  lemma SameScores(t: Table, t': Table, rows: seq<Row>, rows': seq<Row>, s: string)
    requires Holds(t, rows) && Holds(t', rows') && forall r :: r in rows <==> r in rows'
    ensures SlotOf(t, s).scores == SlotOf(t', s).scores
  {
    forall m, x ensures RowFor(rows, s, m, x) <==> RowFor(rows', s, m, x) {
      assert RowFor(rows, s, m, x) <==> exists r :: r in rows && r.step == s && r.model == m && r.score == x;
      assert RowFor(rows', s, m, x) <==> exists r :: r in rows' && r.step == s && r.model == m && r.score == x;
    }
    var a, b := SlotOf(t, s).scores, SlotOf(t', s).scores;
    forall m ensures m in a <==> m in b {
      if m in a { assert Has(t, s, m) && RowFor(rows, s, m, a[m]); }
      if m in b { assert Has(t', s, m) && RowFor(rows', s, m, b[m]); }
    }
    forall m | m in a ensures a[m] == b[m] {
      assert Has(t, s, m) && RowFor(rows', s, m, a[m]);
    }
  }

  lemma SameTables(t: Table, t': Table, rows: seq<Row>, rows': seq<Row>)
    requires Listed(t) && Listed(t') && Holds(t, rows) && Holds(t', rows') && forall r :: r in rows <==> r in rows'
    ensures SameTable(t, t')
  {
    forall s ensures SlotOf(t, s).scores == SlotOf(t', s).scores && SortStrings(SlotOf(t, s).models) == SortStrings(SlotOf(t', s).models) {
      SameScores(t, t', rows, rows', s);
      SameMembers(SlotOf(t, s).models, SlotOf(t', s).models);
      SortOfPermutation(SlotOf(t, s).models, SlotOf(t', s).models);
    }
    forall s ensures s in t.steps <==> s in t'.steps {
      SlotListed(t, s);
      SlotListed(t', s);
    }
    SameMembers(t.steps, t'.steps);
    SortOfPermutation(t.steps, t'.steps);
  }

  lemma SlotListed(t: Table, s: string)
    requires Listed(t)
    ensures s in t.steps <==> SlotOf(t, s).scores != map[]
  {
    if s in t.slots {
      assert t.slots[s].models[0] in t.slots[s].scores;
    }
  }

  lemma {:induction false} StepDeltasSame(ds: seq<Deltas>, a: Slot, b: Slot, models: seq<string>, incumbent: string)
    requires a.scores == b.scores
    ensures StepDeltas(ds, a, models, incumbent) == StepDeltas(ds, b, models, incumbent)
  {
    if models != [] {
      StepDeltasSame(ds, a, b, models[..|models| - 1], incumbent);
    }
  }

  lemma {:induction false} AllDeltasSame(t: Table, t': Table, steps: seq<string>, incumbent: string)
    requires SameTable(t, t')
    ensures AllDeltas(t, steps, incumbent) == AllDeltas(t', steps, incumbent)
  {
    if steps != [] {
      var n := |steps| - 1;
      AllDeltasSame(t, t', steps[..n], incumbent);
      var a, b := SlotOf(t, steps[n]), SlotOf(t', steps[n]);
      StepDeltasSame(AllDeltas(t, steps[..n], incumbent), a, b, SortStrings(a.models), incumbent);
    }
  }

  lemma IndexedSame(rows: seq<Row>, rows': seq<Row>, incumbent: string)
    requires multiset(rows) == multiset(rows')
    ensures Index(rows).Ok? <==> Index(rows').Ok?
    ensures Index(rows).Ok? ==>
      AllDeltas(Index(rows).value, SortStrings(Index(rows).value.steps), incumbent)
      == AllDeltas(Index(rows').value, SortStrings(Index(rows').value.steps), incumbent)
  {
    IndexIs(rows);
    IndexIs(rows');
    if Index(rows).Ok? { DistinctPermutes(rows, rows'); }
    if Index(rows').Ok? { DistinctPermutes(rows', rows); }
    if Index(rows).Ok? {
      SameRows(rows, rows');
      SameTables(Index(rows).value, Index(rows').value, rows, rows');
      AllDeltasSame(Index(rows).value, Index(rows').value, SortStrings(Index(rows).value.steps), incumbent);
    }
  }

  lemma {:induction false} IndexError(rows: seq<Row>)
    ensures Index(rows).Err? ==> Index(rows).error == Duplicate
  {
    if rows != [] {
      IndexError(rows[..|rows| - 1]);
    }
  }

  /** Whatever the order of the rows, the deltas are the same, key order and error included. */
  lemma RowOrderIrrelevant(rows: seq<Row>, rows': seq<Row>, incumbent: string, sc: Scope)
    requires multiset(rows) == multiset(rows')
    ensures DeltasFromRows(rows, incumbent, sc) == DeltasFromRows(rows', incumbent, sc)
  {
    ScopedPermutes(rows, rows', sc);
    if Scoped(rows, sc).Ok? {
      var a, b := Scoped(rows, sc).value, Scoped(rows', sc).value;
      IndexedSame(a, b, incumbent);
      IndexError(a);
      IndexError(b);
    }
  }

  predicate InScope(r: Row, sc: Scope) {
    r.split == sc.split && r.cell == sc.cell && (sc.run.Some? ==> r.run == sc.run) && (sc.snapshot.Some? ==> r.snapshot == sc.snapshot)
  }

  function OnlyInScope(rows: seq<Row>, sc: Scope): seq<Row> {
    if rows == [] then [] else (if InScope(rows[0], sc) then [rows[0]] else []) + OnlyInScope(rows[1..], sc)
  }

  lemma {:induction false} ScopedIsOnlyInScope(rows: seq<Row>, sc: Scope)
    ensures Narrow(InCell(rows, sc), sc.run, sc.snapshot) == OnlyInScope(rows, sc)
    ensures OnlyInScope(OnlyInScope(rows, sc), sc) == OnlyInScope(rows, sc)
  {
    if rows != [] {
      ScopedIsOnlyInScope(rows[1..], sc);
      var rest := InCell(rows[1..], sc);
      assert ([rows[0]] + rest)[1..] == rest && [] + rest == rest;
      assert [] + OnlyInScope(rows[1..], sc) == OnlyInScope(rows[1..], sc);
      assert ([rows[0]] + OnlyInScope(rows[1..], sc))[1..] == OnlyInScope(rows[1..], sc);
    }
  }

  /** With run and snapshot given, rows of any other cell, split, run or snapshot change nothing. */
  lemma OtherRowsIrrelevant(rows: seq<Row>, incumbent: string, sc: Scope)
    requires sc.run.Some? && sc.snapshot.Some?
    ensures DeltasFromRows(rows, incumbent, sc) == DeltasFromRows(OnlyInScope(rows, sc), incumbent, sc)
  {
    ScopedIsOnlyInScope(rows, sc);
    ScopedIsOnlyInScope(OnlyInScope(rows, sc), sc);
  }

  // ---------------------------------------------------------------- what the lists hold

  function ValuesOf(ds: seq<Deltas>, model: string): seq<real> {
    if ds == [] then [] else if ds[0].model == model then ds[0].values else ValuesOf(ds[1..], model)
  }

  /** Candidate minus incumbent, over the steps given, where both are present. */
  function PairList(t: Table, steps: seq<string>, incumbent: string, model: string): seq<real> {
    if steps == [] then []
    else
      var slot := SlotOf(t, steps[|steps| - 1]);
      PairList(t, steps[..|steps| - 1], incumbent, model)
      + if Paired(slot, incumbent, model) then [Delta(slot, incumbent, model)] else []
  }

  ghost predicate Keyed(ds: seq<Deltas>) {
    && (forall i, j :: 0 <= i < j < |ds| ==> ds[i].model != ds[j].model)
    && forall i :: 0 <= i < |ds| ==> ds[i].values != []
  }

  lemma {:induction false} AppendKeyed(ds: seq<Deltas>, m: string, d: real)
    requires Keyed(ds)
    ensures Keyed(Append(ds, m, d))
    ensures forall x :: x in Append(ds, m, d) ==> x.model == m || x in ds
  {
    if ds != [] && ds[0].model != m {
      AppendKeyed(ds[1..], m, d);
      var tail := Append(ds[1..], m, d);
      forall i | 0 <= i < |tail| ensures tail[i].model != ds[0].model {
        assert tail[i] in tail;
        if tail[i] in ds[1..] {
          var k :| 0 <= k < |ds[1..]| && ds[1..][k] == tail[i];
          assert ds[k + 1] == tail[i];
        }
      }
      assert Append(ds, m, d) == [ds[0]] + tail;
    }
  }

  lemma {:induction false} AppendValues(ds: seq<Deltas>, m: string, d: real, c: string)
    ensures ValuesOf(Append(ds, m, d), c) == ValuesOf(ds, c) + if c == m then [d] else []
  {
    if ds == [] {
      assert Append(ds, m, d)[1..] == [];
    } else if ds[0].model == m {
      assert Append(ds, m, d)[1..] == ds[1..];
    } else {
      AppendValues(ds[1..], m, d, c);
      assert Append(ds, m, d)[1..] == Append(ds[1..], m, d);
    }
  }

  lemma {:induction false} StepValues(ds: seq<Deltas>, slot: Slot, models: seq<string>, incumbent: string, c: string)
    requires Keyed(ds) && NoDup(models)
    ensures Keyed(StepDeltas(ds, slot, models, incumbent))
    ensures ValuesOf(StepDeltas(ds, slot, models, incumbent), c)
            == ValuesOf(ds, c) + if c in models && Paired(slot, incumbent, c) then [Delta(slot, incumbent, c)] else []
  {
    if models != [] {
      var n := |models| - 1;
      StepValues(ds, slot, models[..n], incumbent, c);
      var before := StepDeltas(ds, slot, models[..n], incumbent);
      assert models == models[..n] + [models[n]];
      if Paired(slot, incumbent, models[n]) {
        AppendKeyed(before, models[n], Delta(slot, incumbent, models[n]));
        AppendValues(before, models[n], Delta(slot, incumbent, models[n]), c);
      }
    }
  }

  lemma {:induction false} AllValues(t: Table, steps: seq<string>, incumbent: string, c: string)
    requires Listed(t)
    ensures Keyed(AllDeltas(t, steps, incumbent))
    ensures ValuesOf(AllDeltas(t, steps, incumbent), c) == PairList(t, steps, incumbent, c)
  {
    if steps != [] {
      var n := |steps| - 1;
      AllValues(t, steps[..n], incumbent, c);
      var slot := SlotOf(t, steps[n]);
      SortNoDup(slot.models);
      StepValues(AllDeltas(t, steps[..n], incumbent), slot, SortStrings(slot.models), incumbent, c);
    }
  }

  /**
   * The list of every candidate is exactly its score minus the incumbent's over the sorted steps where both
   * are present, and the steps are those of the rows in scope, each with the one score its row has.
   */
  lemma ListsAreExact(rows: seq<Row>, incumbent: string, sc: Scope, candidate: string)
    requires DeltasFromRows(rows, incumbent, sc).Ok?
    ensures Scoped(rows, sc).Ok? && Index(Scoped(rows, sc).value).Ok?
    ensures var t := Index(Scoped(rows, sc).value).value;
      && ValuesOf(DeltasFromRows(rows, incumbent, sc).value, candidate) == PairList(t, SortStrings(t.steps), incumbent, candidate)
      && Keyed(DeltasFromRows(rows, incumbent, sc).value)
      && NoDup(SortStrings(t.steps)) && Ordered(SortStrings(t.steps), StrLe)
      && Listed(t) && Holds(t, Scoped(rows, sc).value)
  {
    IndexIs(Scoped(rows, sc).value);
    var t := Index(Scoped(rows, sc).value).value;
    AllValues(t, SortStrings(t.steps), incumbent, candidate);
    SortNoDup(t.steps);
    StrOrder();
    SortOrdered(t.steps, StrLe);
  }

  /** It raises exactly when the scope is ambiguous or some model has two rows for one step. */
  lemma RaisesExactly(rows: seq<Row>, incumbent: string, sc: Scope)
    ensures var cell := InCell(rows, sc);
      DeltasFromRows(rows, incumbent, sc).Err? <==>
      || (sc.run.None? && |Runs(cell)| > 1) || (sc.snapshot.None? && |Snapshots(cell)| > 1)
      || !DistinctPairs(Scoped(rows, sc).value)
  {
    if Scoped(rows, sc).Ok? {
      IndexIs(Scoped(rows, sc).value);
    }
  }

  // ---------------------------------------------------------------- the order of the candidates

  function Keys(ds: seq<Deltas>): (ks: seq<string>)
    ensures |ks| == |ds| && forall i :: 0 <= i < |ds| ==> ks[i] == ds[i].model
  {
    if ds == [] then [] else [ds[0].model] + Keys(ds[1..])
  }

  /** The position of the first step that pairs the candidate; the number of steps when none does. */
  function First(t: Table, steps: seq<string>, incumbent: string, c: string): (n: nat)
    ensures n <= |steps|
  {
    if steps == [] then 0
    else
      var before := First(t, steps[..|steps| - 1], incumbent, c);
      if before < |steps| - 1 || Paired(SlotOf(t, steps[|steps| - 1]), incumbent, c) then before else |steps|
  }

  function Newcomers(slot: Slot, models: seq<string>, incumbent: string, known: seq<string>): seq<string> {
    if models == [] then []
    else
      var m := models[|models| - 1];
      Newcomers(slot, models[..|models| - 1], incumbent, known)
      + if Paired(slot, incumbent, m) && m !in known then [m] else []
  }

  lemma {:induction false} AppendKeys(ds: seq<Deltas>, m: string, d: real)
    ensures Keys(Append(ds, m, d)) == Keys(ds) + if m in Keys(ds) then [] else [m]
  {
    if ds != [] {
      if ds[0].model == m {
        assert Append(ds, m, d)[1..] == ds[1..];
        assert Keys(ds)[0] == m;
      } else {
        AppendKeys(ds[1..], m, d);
        assert Append(ds, m, d)[1..] == Append(ds[1..], m, d);
        assert m in Keys(ds) <==> m in Keys(ds[1..]);
      }
    }
  }

  lemma {:induction false} NewcomersAre(slot: Slot, models: seq<string>, incumbent: string, known: seq<string>)
    ensures forall m :: m in Newcomers(slot, models, incumbent, known) <==> m in models && Paired(slot, incumbent, m) && m !in known
  {
    if models != [] {
      var n := |models| - 1;
      NewcomersAre(slot, models[..n], incumbent, known);
      assert models == models[..n] + [models[n]];
    }
  }

  lemma {:induction false} NewcomersOrdered(slot: Slot, models: seq<string>, incumbent: string, known: seq<string>)
    requires Ordered(models, StrLe)
    ensures Ordered(Newcomers(slot, models, incumbent, known), StrLe)
  {
    if models != [] {
      var n := |models| - 1;
      NewcomersOrdered(slot, models[..n], incumbent, known);
      NewcomersAre(slot, models[..n], incumbent, known);
      var before := Newcomers(slot, models[..n], incumbent, known);
      forall i | 0 <= i < |before| ensures StrLe(before[i], models[n]) {
        assert before[i] in before;
        var k :| 0 <= k < n && models[..n][k] == before[i];
        assert StrLe(models[k], models[n]);
      }
    }
  }

  lemma {:induction false} StepKeys(ds: seq<Deltas>, slot: Slot, models: seq<string>, incumbent: string)
    requires NoDup(models)
    ensures Keys(StepDeltas(ds, slot, models, incumbent)) == Keys(ds) + Newcomers(slot, models, incumbent, Keys(ds))
  {
    if models != [] {
      var n := |models| - 1;
      var m, before := models[n], StepDeltas(ds, slot, models[..n], incumbent);
      StepKeys(ds, slot, models[..n], incumbent);
      NewcomersAre(slot, models[..n], incumbent, Keys(ds));
      assert m !in models[..n];
      if Paired(slot, incumbent, m) {
        AppendKeys(before, m, Delta(slot, incumbent, m));
      }
    }
  }

  ghost predicate ByFirst(keys: seq<string>, t: Table, steps: seq<string>, incumbent: string) {
    && (forall c :: c in keys <==> First(t, steps, incumbent, c) < |steps|)
    && forall i, j :: 0 <= i < j < |keys| ==>
         var a, b := First(t, steps, incumbent, keys[i]), First(t, steps, incumbent, keys[j]);
         a < b || (a == b && StrLe(keys[i], keys[j]))
  }

  lemma KeysGrow(keys: seq<string>, more: seq<string>, t: Table, steps: seq<string>, incumbent: string)
    requires steps != [] && ByFirst(keys, t, steps[..|steps| - 1], incumbent) && Ordered(more, StrLe)
    requires forall c :: c in more <==> Paired(SlotOf(t, steps[|steps| - 1]), incumbent, c) && c !in keys
    ensures ByFirst(keys + more, t, steps, incumbent)
  {
    var n := |steps| - 1;
    var all := keys + more;
    forall c ensures First(t, steps, incumbent, c) == if c in keys then First(t, steps[..n], incumbent, c) else if c in more then n else n + 1 {
      assert c in keys <==> First(t, steps[..n], incumbent, c) < n;
    }
    forall i, j | 0 <= i < j < |all|
      ensures var a, b := First(t, steps, incumbent, all[i]), First(t, steps, incumbent, all[j]); a < b || (a == b && StrLe(all[i], all[j]))
    {
      if i < |keys| {
        assert all[i] in keys;
      }
      if j >= |keys| {
        assert more[j - |keys|] in more;
        if i >= |keys| {
          assert more[i - |keys|] in more;
        }
      }
    }
  }

  /** Candidates stand in the order of the first step that pairs them, those of one step by name. */
  lemma {:induction false} KeysByFirstStep(t: Table, steps: seq<string>, incumbent: string)
    requires Listed(t)
    ensures ByFirst(Keys(AllDeltas(t, steps, incumbent)), t, steps, incumbent)
  {
    if steps != [] {
      var n := |steps| - 1;
      var before, slot := AllDeltas(t, steps[..n], incumbent), SlotOf(t, steps[n]);
      KeysByFirstStep(t, steps[..n], incumbent);
      var models := SortStrings(slot.models);
      SortNoDup(slot.models);
      StrOrder();
      SortOrdered(slot.models, StrLe);
      StepKeys(before, slot, models, incumbent);
      NewcomersAre(slot, models, incumbent, Keys(before));
      NewcomersOrdered(slot, models, incumbent, Keys(before));
      KeysGrow(Keys(before), Newcomers(slot, models, incumbent, Keys(before)), t, steps, incumbent);
    }
  }

  /**
   * The candidate keys are sorted, as the documentation says they are, if and only if no candidate is
   * paired for the first time on an earlier step than one whose name comes before its own.
   */
  lemma KeysSortedExactly(t: Table, steps: seq<string>, incumbent: string)
    requires Listed(t)
    ensures var keys := Keys(AllDeltas(t, steps, incumbent));
      Ordered(keys, StrLe) <==>
      forall c, d :: c in keys && d in keys && c != d && StrLe(c, d) ==> First(t, steps, incumbent, c) <= First(t, steps, incumbent, d)
  {
    KeysByFirstStep(t, steps, incumbent);
    var keys := Keys(AllDeltas(t, steps, incumbent));
    if Ordered(keys, StrLe) {
      forall c, d | c in keys && d in keys && c != d && StrLe(c, d) ensures First(t, steps, incumbent, c) <= First(t, steps, incumbent, d) {
        InKeyOrder(keys, t, steps, incumbent, c, d);
      }
    } else {
      OutOfOrder(keys, t, steps, incumbent);
    }
  }

  lemma OutOfOrder(keys: seq<string>, t: Table, steps: seq<string>, incumbent: string)
    requires ByFirst(keys, t, steps, incumbent) && !Ordered(keys, StrLe)
    ensures exists c, d :: c in keys && d in keys && c != d && StrLe(c, d) && First(t, steps, incumbent, c) > First(t, steps, incumbent, d)
  {
    var i, j :| 0 <= i < j < |keys| && !StrLe(keys[i], keys[j]);
    StrTotal(keys[i], keys[j]);
    assert keys[i] in keys && keys[j] in keys;
  }

  lemma InFirstOrder(keys: seq<string>, t: Table, steps: seq<string>, incumbent: string, i: nat, j: nat)
    requires ByFirst(keys, t, steps, incumbent) && i < j < |keys|
    ensures First(t, steps, incumbent, keys[i]) <= First(t, steps, incumbent, keys[j])
  {
  }

  lemma InKeyOrder(keys: seq<string>, t: Table, steps: seq<string>, incumbent: string, c: string, d: string)
    requires ByFirst(keys, t, steps, incumbent) && Ordered(keys, StrLe) && c in keys && d in keys && c != d && StrLe(c, d)
    ensures First(t, steps, incumbent, c) <= First(t, steps, incumbent, d)
  {
    var i :| 0 <= i < |keys| && keys[i] == c;
    var j :| 0 <= j < |keys| && keys[j] == d;
    if i < j {
      InFirstOrder(keys, t, steps, incumbent, i, j);
    } else {
      assert StrLe(keys[j], keys[i]);
      StrAntisymmetric(c, d);
    }
  }

  const TWO_STEPS: Table := Table(["a", "b"],
    map["a" := Slot(["z", "inc"], map["z" := 1.0, "inc" := 0.0]), "b" := Slot(["m", "inc"], map["m" := 1.0, "inc" := 0.0])])

  lemma FirstOfTwo()
    ensures First(TWO_STEPS, ["a", "b"], "inc", "z") == 0 && First(TWO_STEPS, ["a", "b"], "inc", "m") == 1
  {
    var t := TWO_STEPS;
    assert ["a", "b"][..1] == ["a"] && ["a"][..0] == [];
    assert Paired(SlotOf(t, "a"), "inc", "z") && !Paired(SlotOf(t, "a"), "inc", "m") && Paired(SlotOf(t, "b"), "inc", "m");
    assert First(t, ["a"], "inc", "z") == 0 && First(t, ["a"], "inc", "m") == 1;
  }

  lemma KeysOutOfOrder()
    ensures Listed(TWO_STEPS) && !Ordered(Keys(AllDeltas(TWO_STEPS, ["a", "b"], "inc")), StrLe)
  {
    var t := TWO_STEPS;
    FirstOfTwo();
    KeysByFirstStep(t, ["a", "b"], "inc");
    assert StrLe("m", "z");
    KeysSortedExactly(t, ["a", "b"], "inc");
  }

  function BareRow(step: string, model: string, score: real): Row {
    Row(None, None, None, None, step, model, score)
  }

  const BARE: Scope := Scope(None, None, None, None)

  const TWO_STEP_ROWS := [BareRow("a", "z", 1.0), BareRow("a", "inc", 0.0), BareRow("b", "m", 1.0), BareRow("b", "inc", 0.0)]

  ghost predicate AllBare(rows: seq<Row>) {
    forall i :: 0 <= i < |rows| ==> rows[i] == BareRow(rows[i].step, rows[i].model, rows[i].score)
  }

  lemma {:induction false} BareInCell(rows: seq<Row>)
    requires AllBare(rows)
    ensures InCell(rows, BARE) == rows && Narrow(rows, None, None) == rows
  {
    if rows != [] {
      BareInCell(rows[1..]);
    }
  }

  lemma {:induction false} BareNames(rows: seq<Row>)
    requires AllBare(rows)
    ensures Runs(rows) == [] && Snapshots(rows) == []
  {
    if rows != [] {
      BareNames(rows[..|rows| - 1]);
    }
  }

  lemma BareScoped(rows: seq<Row>)
    requires AllBare(rows)
    ensures Scoped(rows, BARE) == Ok(rows)
  {
    BareInCell(rows);
    BareNames(rows);
  }

  lemma IndexSnoc(rows: seq<Row>, r: Row)
    requires Index(rows).Ok? && !Has(Index(rows).value, r.step, r.model)
    ensures Index(rows + [r]) == Ok(Put(Index(rows).value, r))
  {
    assert (rows + [r])[..|rows|] == rows;
  }

  lemma TwoIndexed(rows: seq<Row>, a: Row, b: Row)
    requires Index(rows).Ok? && a.step == b.step && a.step !in Index(rows).value.slots && a.model != b.model
    ensures var t := Index(rows).value;
      Index(rows + [a, b]) == Ok(Table(t.steps + [a.step],
        t.slots[a.step := Slot([a.model, b.model], map[a.model := a.score, b.model := b.score])]))
  {
    var t := Index(rows).value;
    IndexSnoc(rows, a);
    IndexSnoc(rows + [a], b);
    assert rows + [a] + [b] == rows + [a, b];
    var t1 := Put(t, a);
    var t2 := Put(t1, b);
    assert t1.slots[a.step].scores == map[a.model := a.score];
    assert t2.slots[a.step] == Slot([a.model, b.model], map[a.model := a.score, b.model := b.score]);
    assert t2.slots == t.slots[a.step := t2.slots[a.step]];
  }

  lemma TwoStepsIndexed()
    ensures Index(TWO_STEP_ROWS) == Ok(TWO_STEPS)
  {
    var rows := TWO_STEP_ROWS;
    TwoIndexed([], rows[0], rows[1]);
    assert [] + [rows[0], rows[1]] == rows[..2];
    TwoIndexed(rows[..2], rows[2], rows[3]);
    assert rows[..2] + [rows[2], rows[3]] == rows;
    var t := Index(rows).value;
    assert t.steps == TWO_STEPS.steps && t.slots == TWO_STEPS.slots;
  }

  lemma TwoStepsSorted()
    ensures SortStrings(["a", "b"]) == ["a", "b"]
  {
    assert ["a", "b"][..1] == ["a"] && ["a"][..0] == [] && StrLe("a", "b");
  }

  /** The keys need not be sorted: with "z" paired on step "a" and "m" only on step "b", "z" comes first. */
  lemma KeysNotSorted()
    ensures var r := DeltasFromRows(TWO_STEP_ROWS, "inc", BARE); r.Ok? && !Ordered(Keys(r.value), StrLe)
  {
    BareScoped(TWO_STEP_ROWS);
    TwoStepsIndexed();
    TwoStepsSorted();
    KeysOutOfOrder();
  }

  // ---------------------------------------------------------------- the loops

  method ScopeLoop(rows: seq<Row>, sc: Scope) returns (r: seq<Row>)
    ensures r == InCell(rows, sc)
  {
    r := [];
    var i := 0;
    while i < |rows|
      invariant 0 <= i <= |rows| && r + InCell(rows[i..], sc) == InCell(rows, sc)
    {
      assert rows[i..][0] == rows[i] && rows[i..][1..] == rows[i + 1..];
      var rest := InCell(rows[i + 1..], sc);
      assert r + ([rows[i]] + rest) == (r + [rows[i]]) + rest && [] + rest == rest;
      if rows[i].split == sc.split && rows[i].cell == sc.cell {
        r := r + [rows[i]];
      }
      i := i + 1;
    }
  }

  method IndexLoop(rows: seq<Row>) returns (r: Result<Table, Error>)
    ensures r == Index(rows)
  {
    var t := Table([], map[]);
    for i := 0 to |rows|
      invariant Index(rows[..i]) == Ok(t)
    {
      assert rows[..i + 1][..i] == rows[..i];
      if Has(t, rows[i].step, rows[i].model) {
        IndexStops(rows, i + 1);
        return Err(Duplicate);
      }
      t := Put(t, rows[i]);
    }
    assert rows[..|rows|] == rows;
    return Ok(t);
  }

  lemma {:induction false} IndexStops(rows: seq<Row>, i: nat)
    requires i <= |rows| && Index(rows[..i]).Err?
    ensures Index(rows) == Err(Duplicate)
    decreases |rows| - i
  {
    IndexError(rows[..i]);
    if i == |rows| {
      assert rows[..i] == rows;
    } else {
      assert rows[..i + 1][..i] == rows[..i];
      IndexStops(rows, i + 1);
    }
  }

  method DeltaLoop(t: Table, incumbent: string) returns (ds: seq<Deltas>)
    ensures ds == AllDeltas(t, SortStrings(t.steps), incumbent)
  {
    var steps := SortStrings(t.steps);
    ds := [];
    for i := 0 to |steps|
      invariant ds == AllDeltas(t, steps[..i], incumbent)
    {
      assert steps[..i + 1][..i] == steps[..i];
      var slot := SlotOf(t, steps[i]);
      var models := SortStrings(slot.models);
      ghost var before := ds;
      if incumbent !in slot.scores {
        NoIncumbent(ds, slot, models, incumbent);
        continue;
      }
      for k := 0 to |models|
        invariant ds == StepDeltas(before, slot, models[..k], incumbent)
      {
        assert models[..k + 1][..k] == models[..k];
        if Paired(slot, incumbent, models[k]) {
          ds := Append(ds, models[k], slot.scores[models[k]] - slot.scores[incumbent]);
        }
      }
      assert models[..|models|] == models;
    }
    assert steps[..|steps|] == steps;
  }

  lemma {:induction false} NoIncumbent(ds: seq<Deltas>, slot: Slot, models: seq<string>, incumbent: string)
    requires incumbent !in slot.scores
    ensures StepDeltas(ds, slot, models, incumbent) == ds
  {
    if models != [] {
      NoIncumbent(ds, slot, models[..|models| - 1], incumbent);
    }
  }

  method PairRows(rows: seq<Row>, incumbent: string, sc: Scope) returns (r: Result<seq<Deltas>, Error>)
    ensures r == DeltasFromRows(rows, incumbent, sc)
  {
    var scoped := ScopeLoop(rows, sc);
    var run := Resolve(sc.run, Runs(scoped), ManyRuns);
    if run.Err? { return Err(run.error); }
    var snapshot := Resolve(sc.snapshot, Snapshots(scoped), ManySnapshots);
    if snapshot.Err? { return Err(snapshot.error); }
    scoped := Narrow(scoped, run.value, snapshot.value);
    var t := IndexLoop(scoped);
    if t.Err? { return Err(t.error); }
    var ds := DeltaLoop(t.value, incumbent);
    return Ok(ds);
  }
}
