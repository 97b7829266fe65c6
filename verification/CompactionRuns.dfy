/** What a whole run of `apply_compaction` does, compared with its preview and with a second run. */
module CompactionRuns {
  import opened Base
  import opened Sorting
  import opened Text
  import opened Compaction

  // ---------------------------------------------------------------- the plan

  ghost predicate DistinctRows(rows: seq<Row>) {
    forall i, j :: 0 <= i < j < |rows| ==> rows[i].file != rows[j].file
  }

  ghost predicate Apart(a: seq<Row>, b: seq<Row>) {
    forall x, y :: x in a && y in b ==> x.file != y.file
  }

  lemma DistinctConcat(a: seq<Row>, b: seq<Row>)
    ensures DistinctRows(a + b) <==> DistinctRows(a) && DistinctRows(b) && Apart(a, b)
  {
    if DistinctRows(a + b) {
      forall i, j | 0 <= i < j < |a| ensures a[i].file != a[j].file {
        assert (a + b)[i] == a[i] && (a + b)[j] == a[j];
      }
      forall i, j | 0 <= i < j < |b| ensures b[i].file != b[j].file {
        assert (a + b)[|a| + i] == b[i] && (a + b)[|a| + j] == b[j];
      }
      forall x, y | x in a && y in b ensures x.file != y.file {
        var i :| 0 <= i < |a| && a[i] == x;
        var j :| 0 <= j < |b| && b[j] == y;
        assert (a + b)[i] == x && (a + b)[|a| + j] == y;
      }
    }
    if DistinctRows(a) && DistinctRows(b) && Apart(a, b) {
      forall i, j | 0 <= i < j < |a + b| ensures (a + b)[i].file != (a + b)[j].file {
        if i < |a| <= j {
          assert a[i] in a && b[j - |a|] in b;
        }
      }
    }
  }

  lemma {:induction false} AddRowMembers(plan: seq<ClusterPlan>, r: Row)
    ensures forall x :: x in Planned(AddRow(plan, r)) <==> x in Planned(plan) || (r.cold && x == r)
  {
    if plan == [] {
      assert AddRow(plan, r)[1..] == [];
    } else if plan[0].name == r.cluster {
      assert AddRow(plan, r)[1..] == plan[1..];
    } else {
      AddRowMembers(plan[1..], r);
      assert AddRow(plan, r)[1..] == AddRow(plan[1..], r);
    }
  }

  lemma {:induction false} AddRowDistinct(plan: seq<ClusterPlan>, r: Row)
    requires DistinctRows(Planned(plan)) && forall x :: x in Planned(plan) ==> x.file != r.file
    ensures DistinctRows(Planned(AddRow(plan, r)))
  {
    var next := AddRow(plan, r);
    if plan == [] {
      assert next[1..] == [];
    } else {
      var own, rest := plan[0].archived, Planned(plan[1..]);
      DistinctConcat(own, rest);
      if plan[0].name == r.cluster {
        assert next[1..] == plan[1..];
        var more := own + if r.cold then [r] else [];
        DistinctConcat(own, if r.cold then [r] else []);
        DistinctConcat(more, rest);
      } else {
        assert next[1..] == AddRow(plan[1..], r);
        AddRowDistinct(plan[1..], r);
        AddRowMembers(plan[1..], r);
        DistinctConcat(own, Planned(next[1..]));
      }
    }
  }

  /** Planning groups the rows and drops the hot ones; it neither loses nor doubles a cold one. */
  lemma {:induction false} PlanIsColdRows(rows: seq<Row>)
    ensures forall x :: x in Planned(Plan(rows)) <==> x in rows && x.cold
    ensures DistinctRows(rows) ==> DistinctRows(Planned(Plan(rows)))
  {
    if rows != [] {
      var n := |rows| - 1;
      PlanIsColdRows(rows[..n]);
      AddRowMembers(Plan(rows[..n]), rows[n]);
      assert rows == rows[..n] + [rows[n]];
      if DistinctRows(rows) {
        forall x | x in Planned(Plan(rows[..n])) ensures x.file != rows[n].file {
          var i :| 0 <= i < n && rows[..n][i] == x;
        }
        AddRowDistinct(Plan(rows[..n]), rows[n]);
      }
    }
  }

  lemma {:induction false} MemoryNamesAre(files: seq<Named>)
    requires DistinctFiles(files)
    ensures NoDup(MemoryNames(files))
    ensures forall n :: n in MemoryNames(files) <==> IsMemory(n) && Find(files, n).Some?
  {
    if files != [] {
      MemoryNamesAre(files[1..]);
      NotThere(files[1..], files[0].name);
    }
  }

  ghost predicate RowOf(files: seq<Named>, r: Row, cold: string -> bool, multi: seq<string>) {
    && IsMemory(r.file) && r.cluster == ClusterOf(Stem(r.file), multi)
    && ReadText(Find(files, r.file)).Some? && r.cold == cold(ReadText(Find(files, r.file)).value)
  }

  lemma {:induction false} RowsForAre(files: seq<Named>, names: seq<string>, cold: string -> bool, multi: seq<string>)
    requires RowsFor(files, names, cold, multi).Some? && forall n :: n in names ==> IsMemory(n)
    ensures var rows := RowsFor(files, names, cold, multi).value;
      |rows| == |names| && forall i :: 0 <= i < |rows| ==> rows[i].file == names[i] && RowOf(files, rows[i], cold, multi)
  {
    if names != [] {
      RowsForAre(files, names[1..], cold, multi);
    }
  }

  /** The scan has exactly one row for each memory file. */
  lemma ScanRows(files: seq<Named>, cold: string -> bool, multi: seq<string>)
    requires DistinctFiles(files) && Scan(files, cold, multi).Some?
    ensures var rows := Scan(files, cold, multi).value;
      DistinctRows(rows) && forall r :: r in rows <==> RowOf(files, r, cold, multi)
  {
    var names := SortStrings(MemoryNames(files));
    MemoryNamesAre(files);
    SortNoDup(MemoryNames(files));
    RowsForAre(files, names, cold, multi);
    var rows := Scan(files, cold, multi).value;
    forall r | RowOf(files, r, cold, multi) ensures r in rows {
      assert r.file in names;
      var i :| 0 <= i < |names| && names[i] == r.file;
      assert rows[i] == r;
    }
  }

  /** The rows a run works through: the cold memory files, each once. */
  lemma PlannedRows(files: seq<Named>, cold: string -> bool, multi: seq<string>)
    requires DistinctFiles(files) && Scan(files, cold, multi).Some?
    ensures var plan := Planned(Plan(Scan(files, cold, multi).value));
      DistinctRows(plan) && Housed(plan, multi) && forall r :: r in plan <==> RowOf(files, r, cold, multi) && r.cold
  {
    ScanRows(files, cold, multi);
    PlanIsColdRows(Scan(files, cold, multi).value);
  }

  // ---------------------------------------------------------------- what the loops move

  function Pick(files: seq<Named>, clusters: map<string, Cluster>, rows: seq<Row>): seq<string> {
    if rows == [] then []
    else (if WillMove(files, clusters, rows[0]) then [rows[0].file] else []) + Pick(files, clusters, rows[1..])
  }

  lemma {:induction false} PickStable(w: Work, r: Row, rows: seq<Row>)
    requires DistinctFiles(w.files) && !Raises(w, r) && forall x :: x in rows ==> x.file != r.file
    ensures Pick(MoveOne(w, r).files, MoveOne(w, r).clusters, rows) == Pick(w.files, w.clusters, rows)
  {
    if rows != [] {
      PickStable(w, r, rows[1..]);
      MoveOneEffect(w, r);
      FindRemove(w.files, r.file, rows[0].file);
      assert rows[0].file != r.file;
    }
  }

  /** No move affects a later one: a run that ends has moved exactly what could be moved at its start. */
  lemma {:induction false} MovesExactly(w: Work, rows: seq<Row>, failAfter: Option<nat>)
    requires DistinctFiles(w.files) && DistinctRows(rows) && MoveRows(w, rows, failAfter).1
    ensures MoveRows(w, rows, failAfter).0.moved == w.moved + Pick(w.files, w.clusters, rows)
    decreases |rows|
  {
    if rows != [] {
      var w1, f1 := MoveOne(w, rows[0]), if failAfter.Some? then Some(failAfter.value - 1) else None;
      MoveOneEffect(w, rows[0]);
      FindRemove(w.files, rows[0].file, rows[0].file);
      MovesExactly(w1, rows[1..], f1);
      TailApart(rows);
      PickStable(w, rows[0], rows[1..]);
    }
  }

  lemma TailApart(rows: seq<Row>)
    requires DistinctRows(rows) && rows != []
    ensures DistinctRows(rows[1..]) && forall x :: x in rows[1..] ==> x.file != rows[0].file
  {
    forall x | x in rows[1..] ensures x.file != rows[0].file {
      var i :| 0 <= i < |rows[1..]| && rows[1..][i] == x;
      assert rows[i + 1] == x;
    }
  }

  lemma {:induction false} PickedAreGone(w: Work, rows: seq<Row>, failAfter: Option<nat>, name: string)
    requires DistinctFiles(w.files) && (name in w.moved ==> Find(w.files, name).None?)
    ensures var w' := MoveRows(w, rows, failAfter).0; name in w'.moved ==> Find(w'.files, name).None?
    decreases |rows|
  {
    if rows != [] && failAfter != Some(0) && !Raises(w, rows[0]) {
      MoveOneEffect(w, rows[0]);
      FindRemove(w.files, rows[0].file, name);
      PickedAreGone(MoveOne(w, rows[0]), rows[1..], if failAfter.Some? then Some(failAfter.value - 1) else None, name);
    }
  }

  lemma {:induction false} InPick(files: seq<Named>, clusters: map<string, Cluster>, rows: seq<Row>, r: Row)
    requires r in rows && WillMove(files, clusters, r)
    ensures r.file in Pick(files, clusters, rows)
  {
    if rows[0] != r {
      InPick(files, clusters, rows[1..], r);
    }
  }

  lemma {:induction false} NothingToMove(w: Work, rows: seq<Row>, failAfter: Option<nat>)
    requires forall r :: r in rows ==> !WillMove(w.files, w.clusters, r)
    ensures var w' := MoveRows(w, rows, failAfter).0;
      w'.files == w.files && w'.clusters == w.clusters && w'.moved == w.moved
    decreases |rows|
  {
    if rows != [] && failAfter != Some(0) && !Raises(w, rows[0]) {
      MoveOneEffect(w, rows[0]);
      NothingToMove(MoveOne(w, rows[0]), rows[1..], if failAfter.Some? then Some(failAfter.value - 1) else None);
    }
  }

  // ---------------------------------------------------------------- nothing is lost

  /**
   * Whatever the run meets, refused, interrupted or finished: every file is still where it was or, with
   * the same text, under its own cluster; no archived file changes; nothing else appears. A refused run
   * leaves the tree as it was. An interrupted one leaves no repository it made; its index is untouched or,
   * if the error struck while it was written, the beginning of the text that was to be written.
   */
  lemma NothingIsLost(t: Tree, cold: string -> bool, multi: seq<string>, env: Env)
    requires DistinctFiles(t.files)
    ensures var (o, t') := Apply(t, cold, multi, env);
      && DistinctFiles(t'.files) && Conserved(t.files, t.clusters, t'.files, t'.clusters, multi)
      && (o.Refused? ==> t' == t)
      && (o.Interrupted? ==> t'.git == t.git && (t'.index == t.index || Torn(t, t', cold, multi)))
  {
    if Apply(t, cold, multi, env).0.Refused? {
      NothingChanged(t, multi);
    } else {
      var plan, created := Planned(Plan(Scan(t.files, cold, multi).value)), env.initGit && !t.git && env.state.Outside?;
      PlannedRows(t.files, cold, multi);
      CarryConserves(t, plan, created, env, multi);
      InterruptedIndex(t, plan, created, env);
      assert Apply(t, cold, multi, env) == Carry(t, plan, created, env);
    }
  }

  lemma NothingChanged(t: Tree, multi: seq<string>)
    ensures Conserved(t.files, t.clusters, t.files, t.clusters, multi)
  {
  }

  lemma CarryConserves(t: Tree, plan: seq<Row>, created: bool, env: Env, multi: seq<string>)
    requires DistinctFiles(t.files) && Housed(plan, multi)
    ensures var t' := Carry(t, plan, created, env).1;
      DistinctFiles(t'.files) && Conserved(t.files, t.clusters, t'.files, t'.clusters, multi)
  {
    MoveRowsConserves(Work(t.files, t.clusters, [], []), plan, env.failAfter, multi);
  }

  lemma InterruptedIndex(t: Tree, plan: seq<Row>, created: bool, env: Env)
    requires DistinctFiles(t.files) && DistinctRows(plan)
    ensures var (o, t') := Carry(t, plan, created, env);
      o.Interrupted? ==> t'.git == t.git && (t'.index == t.index || TornAfter(t, t', Pick(t.files, t.clusters, plan)))
  {
    var w := Work(t.files, t.clusters, [], []);
    var (w', ended) := MoveRows(w, plan, env.failAfter);
    if ended && env.torn.Some? && t.index.IndexFile? {
      MovesExactly(w, plan, env.failAfter);
      assert w'.moved == Pick(t.files, t.clusters, plan);
      AllPickedGone(w, plan, env.failAfter);
      TornPrefix(t.index, w'.moved, env.torn);
    }
  }

  /** The index is the beginning of the text without the links to these names, all of which were moved. */
  ghost predicate TornAfter(t: Tree, t': Tree, names: seq<string>) {
    && t.index.IndexFile? && t'.index.IndexFile? && t'.index.text <= CompactIndex(t.index.text, names)
    && forall n :: n in names ==> Find(t'.files, n).None?
  }

  /** So it is for the names of all that could be moved at the start. */
  ghost predicate Torn(t: Tree, t': Tree, cold: string -> bool, multi: seq<string>) {
    Scan(t.files, cold, multi).Some?
    && TornAfter(t, t', Pick(t.files, t.clusters, Planned(Plan(Scan(t.files, cold, multi).value))))
  }

  lemma TornPrefix(index: Index, names: seq<string>, left: Option<nat>)
    requires index.IndexFile?
    ensures Rewritten(index, names, left).IndexFile? && Rewritten(index, names, left).text <= CompactIndex(index.text, names)
  {
  }

  lemma AllPickedGone(w: Work, rows: seq<Row>, failAfter: Option<nat>)
    requires DistinctFiles(w.files) && w.moved == []
    ensures var w' := MoveRows(w, rows, failAfter).0; forall n :: n in w'.moved ==> Find(w'.files, n).None?
  {
    var w' := MoveRows(w, rows, failAfter).0;
    forall n | n in w'.moved ensures Find(w'.files, n).None? { PickedAreGone(w, rows, failAfter, n); }
  }

  // ---------------------------------------------------------------- preview and apply

  lemma {:induction false} PreviewPicks(files: seq<Named>, clusters: map<string, Cluster>, rows: seq<Row>)
    ensures |Pick(files, clusters, rows)| <= |WouldMoveAll(files, clusters, rows)|
    ensures Pick(files, clusters, rows) == WouldMoveAll(files, clusters, rows)
            <==> forall r :: r in rows && WouldMove(files, clusters, r) ==> !IsLinked(clusters, r.cluster)
  {
    if rows != [] {
      PreviewPicks(files, clusters, rows[1..]);
      var p, q := Pick(files, clusters, rows[1..]), WouldMoveAll(files, clusters, rows[1..]);
      assert forall r :: r in rows <==> r == rows[0] || r in rows[1..];
      if WillMove(files, clusters, rows[0]) {
        assert ([rows[0].file] + p)[1..] == p && ([rows[0].file] + q)[1..] == q;
      } else if WouldMove(files, clusters, rows[0]) {
        assert |Pick(files, clusters, rows)| < |WouldMoveAll(files, clusters, rows)|;
      } else {
        assert [] + p == p && [] + q == q;
      }
    }
  }

  /**
   * A finished run moves exactly the names its preview announced if and only if no announced file belongs
   * to a cluster whose archive directory is a link; then the index it leaves is the proposed one.
   */
  lemma ApplyMatchesPreview(t: Tree, cold: string -> bool, multi: seq<string>, env: Env)
    requires DistinctFiles(t.files) && Apply(t, cold, multi, env).0.Finished?
    ensures Report(t, cold, multi).Some?
    ensures var (names, proposed) := Report(t, cold, multi).value;
      var plan := Planned(Plan(Scan(t.files, cold, multi).value));
      && (Apply(t, cold, multi, env).0.moved == names
          <==> forall r :: r in plan && WouldMove(t.files, t.clusters, r) ==> !IsLinked(t.clusters, r.cluster))
      && (Apply(t, cold, multi, env).0.moved == names && t.index.IndexFile? ==> Apply(t, cold, multi, env).1.index == IndexFile(proposed))
  {
    var plan := Planned(Plan(Scan(t.files, cold, multi).value));
    PlannedRows(t.files, cold, multi);
    MovesExactly(Work(t.files, t.clusters, [], []), plan, env.failAfter);
    PreviewPicks(t.files, t.clusters, plan);
  }

  predicate AllCold(text: string) {
    true
  }

  /** The preview ignores links: with a linked cluster directory it announces a move that apply skips. */
  lemma LinkedClusterBreaksPreview()
    ensures var t := Tree(NoIndex, [Named("a.md", File("x"))], false, map["a" := LinkDir(map[])], true);
      var env := Env(true, Inside, true, true, None, None);
      && Report(t, AllCold, []) == Some((["a.md"], ""))
      && Apply(t, AllCold, [], env).0 == Finished([], ["a.md"])
  {
    var files, row := [Named("a.md", File("x"))], Row("a.md", "a", true);
    var t := Tree(NoIndex, files, false, map["a" := LinkDir(map[])], true);
    ScanOne(files, row);
    OneRowPlan(row);
    SkipLinked(t, row);
  }

  lemma ScanOne(files: seq<Named>, row: Row)
    requires files == [Named("a.md", File("x"))] && row == Row("a.md", "a", true)
    ensures Scan(files, AllCold, []) == Some([row]) && Find(files, "a.md") == Some(File("x"))
  {
    assert files[1..] == [] && MemoryNames(files) == ["a.md"];
    assert ["a.md"][..0] == [] && SortStrings(["a.md"]) == ["a.md"];
    assert "a"[1..] == "" && HeadBefore("a", '_') == "a";
    assert Stem("a.md") == "a" && ClusterOf("a", []) == "a";
    var names := ["a.md"];
    assert names[1..] == [] && RowsFor(files, [], AllCold, []) == Some([]);
    assert Find(files, "a.md") == Some(File("x"));
    assert AllCold("x");
    assert RowsFor(files, names, AllCold, []).value[0] == row;
    assert [row] + [] == [row] && RowsFor(files, names, AllCold, []) == Some([row]);
    assert SortStrings(MemoryNames(files)) == names;
    assert Scan(files, AllCold, []) == RowsFor(files, names, AllCold, []);
  }

  lemma SkipLinked(t: Tree, row: Row)
    requires Find(t.files, row.file).Some? && Find(t.files, row.file).value.File?
    requires row.cluster in t.clusters && t.clusters[row.cluster] == LinkDir(map[])
    ensures WouldMoveAll(t.files, t.clusters, [row]) == [row.file]
    ensures var w := Work(t.files, t.clusters, [], []); MoveRows(w, [row], None) == (w.(skipped := [row.file]), true)
  {
    assert [row][1..] == [];
    assert WouldMoveAll(t.files, t.clusters, [row][1..]) == [];
    var w := Work(t.files, t.clusters, [], []);
    assert MoveOne(w, row) == w.(skipped := [row.file]);
    assert MoveRows(MoveOne(w, row), [], None) == (MoveOne(w, row), true);
  }

  lemma OneRowPlan(row: Row)
    requires row.cold
    ensures Planned(Plan([row])) == [row]
  {
    assert [row][..0] == [] && Plan([row]) == AddRow([], row) == [ClusterPlan(row.cluster, [row])];
    assert [ClusterPlan(row.cluster, [row])][1..] == [];
  }

  // ---------------------------------------------------------------- the lines of the index

  /**
   * The lines of the new index are the lines of the old one that link to no moved file, in their order and
   * letter for letter, but for blank lines and white space at the very end.
   */
  lemma IndexKeepsOtherLines(text: string, names: seq<string>)
    ensures var kept := StripTail(Unlinked(SplitLines(text), names));
      SplitLines(CompactIndex(text, names)) == if kept == [] then [""] else kept
  {
    var kept := Unlinked(SplitLines(text), names);
    LinesUnbroken(text);
    forall i | 0 <= i < |kept| ensures Unbroken(kept[i]) {
      assert kept[i] in kept && kept[i] in SplitLines(text);
    }
    RStripJoin(kept);
    StripTailUnbroken(kept);
    if StripTail(kept) == [] {
      SplitOne("", "");
      assert "" + "\n" + "" == "\n" && [""] + [] == [""];
    } else {
      SplitJoined(StripTail(kept));
    }
  }

  // ---------------------------------------------------------------- a second run

  lemma {:induction false} UnlinkedNone(lines: seq<string>)
    ensures Unlinked(lines, []) == lines
  {
    if lines != [] {
      UnlinkedNone(lines[1..]);
    }
  }

  /** Compacting a compacted index again, with nothing more moved, gives back the same text. */
  lemma CompactIndexTwice(text: string, names: seq<string>)
    ensures CompactIndex(CompactIndex(text, names), []) == CompactIndex(text, names)
  {
    var kept := Unlinked(SplitLines(text), names);
    LinesUnbroken(text);
    forall i | 0 <= i < |kept| ensures Unbroken(kept[i]) {
      assert kept[i] in kept && kept[i] in SplitLines(text);
    }
    JoinHasLineFeeds(kept);
    var y := RStrip(JoinLines(kept));
    assert forall i :: 0 <= i < |y| ==> y[i] == JoinLines(kept)[i];
    SplitEnded(y);
    UnlinkedNone(SplitLines(y + "\n"));
  }

  lemma StillThere(t: Tree, t': Tree, r: Row, multi: seq<string>)
    requires Conserved(t.files, t.clusters, t'.files, t'.clusters, multi)
    requires Find(t'.files, r.file).Some? && Find(t'.files, r.file).value.File? && !WillMove(t.files, t.clusters, r)
    ensures !WillMove(t'.files, t'.clusters, r)
  {
    if Taken(t.clusters, r) && t.clusters[r.cluster].Dir? {
      assert InArchive(t.clusters, r.cluster, r.file, t.clusters[r.cluster].files[r.file]);
      assert InArchive(t'.clusters, r.cluster, r.file, t.clusters[r.cluster].files[r.file]);
    }
  }

  /**
   * After a finished run another one, however it ends, moves nothing and leaves files, archive and index as
   * they are, unless it is interrupted while it writes the same index again.
   */
  lemma SecondRunMovesNothing(t: Tree, cold: string -> bool, multi: seq<string>, env: Env, again: Env)
    requires DistinctFiles(t.files) && Apply(t, cold, multi, env).0.Finished?
    ensures var t' := Apply(t, cold, multi, env).1;
      var (o, t'') := Apply(t', cold, multi, again);
      && (o.Finished? ==> o.moved == [])
      && t''.files == t'.files && t''.clusters == t'.clusters
      && (t''.index == t'.index
          || (o.Interrupted? && t'.index.IndexFile? && t''.index.IndexFile? && t''.index.text <= t'.index.text))
  {
    var t' := Apply(t, cold, multi, env).1;
    NothingIsLost(t, cold, multi, env);
    if Scan(t'.files, cold, multi).Some? {
      var rest := Planned(Plan(Scan(t'.files, cold, multi).value));
      forall r | r in rest ensures !WillMove(t'.files, t'.clusters, r) { LeftBehind(t, cold, multi, env, r); }
      NothingToMove(Work(t'.files, t'.clusters, [], []), rest, again.failAfter);
    }
    FinishedIndex(t, cold, multi, env);
    if !Apply(t', cold, multi, again).0.Refused? {
      var rest := Planned(Plan(Scan(t'.files, cold, multi).value));
      IndexAgain(t', rest, again.initGit && !t'.git && again.state.Outside?, again);
    }
  }

  lemma FinishedIndex(t: Tree, cold: string -> bool, multi: seq<string>, env: Env)
    requires Apply(t, cold, multi, env).0.Finished?
    ensures var t' := Apply(t, cold, multi, env).1; t'.index.IndexFile? ==> CompactIndex(t'.index.text, []) == t'.index.text
  {
    if t.index.IndexFile? {
      CompactIndexTwice(t.index.text, Apply(t, cold, multi, env).0.moved);
    }
  }

  lemma IndexAgain(t: Tree, plan: seq<Row>, created: bool, again: Env)
    requires MoveRows(Work(t.files, t.clusters, [], []), plan, again.failAfter).0.moved == []
    requires t.index.IndexFile? ==> CompactIndex(t.index.text, []) == t.index.text
    ensures var (o, t') := Carry(t, plan, created, again);
      || t'.index == t.index
      || (o.Interrupted? && t.index.IndexFile? && t'.index.IndexFile? && t'.index.text <= t.index.text)
  {
    if t.index.IndexFile? { TornPrefix(t.index, [], again.torn); }
  }

  lemma LeftBehind(t: Tree, cold: string -> bool, multi: seq<string>, env: Env, r: Row)
    requires DistinctFiles(t.files) && Apply(t, cold, multi, env).0.Finished?
    requires var t' := Apply(t, cold, multi, env).1;
      Scan(t'.files, cold, multi).Some? && r in Planned(Plan(Scan(t'.files, cold, multi).value))
    ensures var t' := Apply(t, cold, multi, env).1; !WillMove(t'.files, t'.clusters, r)
  {
    var t' := Apply(t, cold, multi, env).1;
    NothingIsLost(t, cold, multi, env);
    PlannedRows(t'.files, cold, multi);
    PlannedRows(t.files, cold, multi);
    var plan := Planned(Plan(Scan(t.files, cold, multi).value));
    assert RowOf(t'.files, r, cold, multi) && r.cold;
    if Find(t'.files, r.file).Some? && Find(t'.files, r.file).value.File? {
      assert Find(t.files, r.file) == Find(t'.files, r.file);
      assert RowOf(t.files, r, cold, multi);
      var w := Work(t.files, t.clusters, [], []);
      MovesExactly(w, plan, env.failAfter);
      PickedAreGone(w, plan, env.failAfter, r.file);
      if WillMove(t.files, t.clusters, r) {
        InPick(t.files, t.clusters, plan, r);
        assert false;
      }
      StillThere(t, t', r, multi);
    }
  }

  // ---------------------------------------------------------------- the directory itself

  lemma {:induction false} MoveRowsConcat(w: Work, a: seq<Row>, b: seq<Row>, failAfter: Option<nat>)
    ensures MoveRows(w, a + b, failAfter) ==
            var (w1, ended) := MoveRows(w, a, failAfter);
            if !ended then (w1, false)
            else MoveRows(w1, b, if failAfter.Some? then (if failAfter.value >= |a| then Some(failAfter.value - |a|) else Some(0)) else None)
    decreases |a|
  {
    if a == [] {
      assert a + b == b;
    } else {
      assert (a + b)[0] == a[0] && (a + b)[1..] == a[1..] + b;
      if failAfter != Some(0) && !Raises(w, a[0]) {
        MoveRowsConcat(MoveOne(w, a[0]), a[1..], b, if failAfter.Some? then Some(failAfter.value - 1) else None);
      }
    }
  }

  method PlanLoop(rows: seq<Row>) returns (plan: seq<ClusterPlan>)
    ensures plan == Plan(rows)
  {
    plan := [];
    for i := 0 to |rows|
      invariant plan == Plan(rows[..i])
    {
      assert rows[..i + 1][..i] == rows[..i];
      plan := AddRow(plan, rows[i]);
    }
    assert rows[..|rows|] == rows;
  }

  /** The inner loop; `left` counts down to the I/O error. */
  method MoveCluster(w0: Work, rows: seq<Row>, left0: Option<nat>) returns (w: Work, ended: bool, left: Option<nat>)
    ensures (w, ended) == MoveRows(w0, rows, left0)
    ensures ended ==> left == if left0.Some? then (if left0.value >= |rows| then Some(left0.value - |rows|) else Some(0)) else None
    ensures ended && left0.Some? ==> left0.value >= |rows|
  {
    w, left := w0, left0;
    var i := 0;
    while i < |rows|
      invariant 0 <= i <= |rows|
      invariant MoveRows(w, rows[i..], left) == MoveRows(w0, rows, left0)
      invariant left == if left0.Some? then Some(left0.value - i) else None
      invariant left0.Some? ==> i <= left0.value
    {
      assert rows[i..][0] == rows[i] && rows[i..][1..] == rows[i + 1..];
      if left == Some(0) || Raises(w, rows[i]) {
        return w, false, left;
      }
      w := MoveOne(w, rows[i]);
      left := if left.Some? then Some(left.value - 1) else None;
      i := i + 1;
    }
    ended := true;
  }

  method MoveAll(w0: Work, plan: seq<ClusterPlan>, failAfter: Option<nat>) returns (w: Work, ended: bool)
    ensures (w, ended) == MoveRows(w0, Planned(plan), failAfter)
  {
    w := w0;
    var left, k := failAfter, 0;
    while k < |plan|
      invariant 0 <= k <= |plan|
      invariant MoveRows(w, Planned(plan[k..]), left) == MoveRows(w0, Planned(plan), failAfter)
    {
      assert plan[k..][0] == plan[k] && plan[k..][1..] == plan[k + 1..];
      MoveRowsConcat(w, plan[k].archived, Planned(plan[k + 1..]), left);
      w, ended, left := MoveCluster(w, plan[k].archived, left);
      if !ended { return; }
      k := k + 1;
    }
    ended := true;
  }

  class MemoryDir {
    var tree: Tree

    constructor (tree: Tree)
      ensures this.tree == tree
    {
      this.tree := tree;
    }

    method ApplyCompaction(cold: string -> bool, multi: seq<string>, env: Env) returns (o: Outcome)
      modifies this
      ensures (o, tree) == Apply(old(tree), cold, multi, env)
    {
      if tree.index.IndexLink? || tree.archiveLink { return Refused; }
      var created := false;
      if env.initGit && !tree.git {
        match env.state
        case Outside =>
          if !env.initOk { return Refused; }
          tree := tree.(git := true);
          created := true;
        case Unknown => return Refused;
        case Inside =>
      }
      var rows := Scan(tree.files, cold, multi);
      if !env.clean || rows.None? {
        if created { tree := tree.(git := false); }
        return Refused;
      }
      var plan := PlanLoop(rows.value);
      var w, ended := MoveAll(Work(tree.files, tree.clusters, [], []), plan, env.failAfter);
      tree := tree.(files := w.files, clusters := w.clusters);
      if !ended || env.failAfter.Some? {
        if ended && env.torn.Some? { tree := tree.(index := Rewritten(tree.index, w.moved, env.torn)); }
        if created { tree := tree.(git := false); }
        return Interrupted;
      }
      if tree.index.IndexFile? {
        tree := tree.(index := IndexFile(CompactIndex(tree.index.text, w.moved)));
      }
      return Finished(w.moved, w.skipped);
    }
  }
}
