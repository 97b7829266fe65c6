/**
 * Memory compaction (scripts/memory_compact.py) as a transformation of a directory tree: scan, plan,
 * preview and apply. The tier of a file (frontmatter and age) is a predicate on its text.
 */
module Compaction {
  import opened Base
  import opened Sorting
  import opened Text

  const INDEX_NAME: string := "MEMORY.md"

  /** A top-level entry; a link carries the text it leads to, if it can be read. */
  datatype Node = File(text: string) | Link(target: Option<string>) | Folder

  datatype Named = Named(name: string, node: Node)

  /** `archive/<cluster>`: a directory, a link to one, or something else that is in the way. */
  datatype Cluster = Dir(files: map<string, string>) | LinkDir(files: map<string, string>) | InTheWay

  datatype Index = NoIndex | IndexFile(text: string) | IndexLink

  /** `files` are the other top-level entries; `git` says that a .git is there. */
  datatype Tree = Tree(index: Index, files: seq<Named>, archiveLink: bool, clusters: map<string, Cluster>, git: bool)

  datatype Row = Row(file: string, cluster: string, cold: bool)

  datatype ClusterPlan = ClusterPlan(name: string, archived: seq<Row>)

  // ---------------------------------------------------------------- names

  predicate StartsWith(s: string, p: string) {
    |p| <= |s| && s[..|p|] == p
  }

  predicate IsMemory(name: string) {
    3 <= |name| && name[|name| - 3..] == ".md" && name != INDEX_NAME
  }

  function Stem(name: string): string {
    if 3 < |name| then name[..|name| - 3] else name
  }

  function HeadBefore(s: string, c: char): string {
    if s == "" || s[0] == c then "" else [s[0]] + HeadBefore(s[1..], c)
  }

  function ClusterOf(stem: string, multitoken: seq<string>): string {
    if multitoken == [] then (if HeadBefore(stem, '_') == "" then stem else HeadBefore(stem, '_'))
    else if stem == multitoken[0] || StartsWith(stem, multitoken[0] + "_") then multitoken[0]
    else ClusterOf(stem, multitoken[1..])
  }

  // ---------------------------------------------------------------- scan and plan

  function Find(files: seq<Named>, name: string): Option<Node> {
    if files == [] then None else if files[0].name == name then Some(files[0].node) else Find(files[1..], name)
  }

  function MemoryNames(files: seq<Named>): seq<string> {
    if files == [] then [] else (if IsMemory(files[0].name) then [files[0].name] else []) + MemoryNames(files[1..])
  }

  /** `read_text`: None where it raises. */
  function ReadText(n: Option<Node>): Option<string> {
    match n
    case Some(File(text)) => Some(text)
    case Some(Link(target)) => target
    case _ => None
  }

  function RowsFor(files: seq<Named>, names: seq<string>, cold: string -> bool, multi: seq<string>): Option<seq<Row>> {
    if names == [] then Some([])
    else
      var text := ReadText(Find(files, names[0]));
      var rest := RowsFor(files, names[1..], cold, multi);
      if text.None? || rest.None? then None
      else Some([Row(names[0], ClusterOf(Stem(names[0]), multi), cold(text.value))] + rest.value)
  }

  /** `scan_memory`: a row a file, in name order; None when a file cannot be read. */
  function Scan(files: seq<Named>, cold: string -> bool, multi: seq<string>): Option<seq<Row>> {
    RowsFor(files, SortStrings(MemoryNames(files)), cold, multi)
  }

  function AddRow(plan: seq<ClusterPlan>, r: Row): seq<ClusterPlan> {
    if plan == [] then [ClusterPlan(r.cluster, if r.cold then [r] else [])]
    else if plan[0].name == r.cluster then
      [plan[0].(archived := plan[0].archived + if r.cold then [r] else [])] + plan[1..]
    else [plan[0]] + AddRow(plan[1..], r)
  }

  function Plan(rows: seq<Row>): seq<ClusterPlan> {
    if rows == [] then [] else AddRow(Plan(rows[..|rows| - 1]), rows[|rows| - 1])
  }

  /** The planned rows in the order the two loops meet them. */
  function Planned(plan: seq<ClusterPlan>): seq<Row> {
    if plan == [] then [] else plan[0].archived + Planned(plan[1..])
  }

  // ---------------------------------------------------------------- the index

  /** The text up to the first ')' , and whether there is one. */
  function UpToParen(s: string): Option<string> {
    if s == "" then None
    else if s[0] == ')' then Some("")
    else
      var rest := UpToParen(s[1..]);
      if rest.None? then None else Some([s[0]] + rest.value)
  }

  /** What the first markdown link to a `.md` file in the line leads to. */
  function LinkTarget(line: string): Option<string> {
    if |line| < 2 then None
    else
      var inside := UpToParen(line[2..]);
      if line[0] == ']' && line[1] == '(' && inside.Some? && 4 <= |inside.value| && inside.value[|inside.value| - 3..] == ".md"
      then inside
      else LinkTarget(line[1..])
  }

  function AfterLastSlash(s: string): string {
    if s == "" || s[|s| - 1] == '/' then "" else AfterLastSlash(s[..|s| - 1]) + [s[|s| - 1]]
  }

  predicate LinksTo(line: string, names: seq<string>) {
    LinkTarget(line).Some? && AfterLastSlash(LinkTarget(line).value) in names
  }

  function Unlinked(lines: seq<string>, names: seq<string>): (kept: seq<string>)
    ensures forall x :: x in kept <==> x in lines && !LinksTo(x, names)
  {
    if lines == [] then [] else (if LinksTo(lines[0], names) then [] else [lines[0]]) + Unlinked(lines[1..], names)
  }

  function CompactIndex(text: string, names: seq<string>): string {
    RStrip(JoinLines(Unlinked(SplitLines(text), names))) + "\n"
  }

  // ---------------------------------------------------------------- preview

  /** Something with the row's name is in its cluster, be the cluster directory a link or not. */
  predicate Taken(clusters: map<string, Cluster>, r: Row) {
    r.cluster in clusters && !clusters[r.cluster].InTheWay? && r.file in clusters[r.cluster].files
  }

  predicate IsLinked(clusters: map<string, Cluster>, cluster: string) {
    cluster in clusters && clusters[cluster].LinkDir?
  }

  predicate WouldMove(files: seq<Named>, clusters: map<string, Cluster>, r: Row) {
    Find(files, r.file).Some? && Find(files, r.file).value.File? && !Taken(clusters, r)
  }

  function WouldMoveAll(files: seq<Named>, clusters: map<string, Cluster>, rows: seq<Row>): seq<string> {
    if rows == [] then []
    else (if WouldMove(files, clusters, rows[0]) then [rows[0].file] else []) + WouldMoveAll(files, clusters, rows[1..])
  }

  /** The names `build_report` says will move and the index it proposes; None when the scan raises. */
  function Report(t: Tree, cold: string -> bool, multi: seq<string>): Option<(seq<string>, string)> {
    var rows := Scan(t.files, cold, multi);
    if rows.None? then None
    else
      var names := WouldMoveAll(t.files, t.clusters, Planned(Plan(rows.value)));
      Some((names, if t.index.IndexFile? then CompactIndex(t.index.text, names) else ""))
  }

  // ---------------------------------------------------------------- apply

  datatype RepoState = Inside | Outside | Unknown

  /**
   * What the run meets outside the tree: git's answers, and the number of planned rows after which an
   * I/O error strikes. When no row is left it strikes at the index, and `torn` is how much of the new
   * text was written over the old one by then, None before the first write.
   */
  datatype Env = Env(initGit: bool, state: RepoState, initOk: bool, clean: bool, failAfter: Option<nat>, torn: Option<nat>)

  datatype Outcome = Refused | Interrupted | Finished(moved: seq<string>, skipped: seq<string>)

  datatype Work = Work(files: seq<Named>, clusters: map<string, Cluster>, moved: seq<string>, skipped: seq<string>)

  function Remove(files: seq<Named>, name: string): seq<Named> {
    if files == [] then []
    else if files[0].name == name then files[1..]
    else [files[0]] + Remove(files[1..], name)
  }

  /** `mkdir(exist_ok=True)` raises when something that is no directory has the cluster's name. */
  predicate Raises(w: Work, r: Row) {
    var n := Find(w.files, r.file);
    n.Some? && !n.value.Link? && r.cluster in w.clusters && w.clusters[r.cluster].InTheWay?
  }

  /** One turn of the inner loop. */
  function MoveOne(w: Work, r: Row): Work {
    var n := Find(w.files, r.file);
    if n.None? then w
    else if n.value.Link? || IsLinked(w.clusters, r.cluster) then w.(skipped := w.skipped + [r.file])
    else
      var there := if r.cluster in w.clusters && w.clusters[r.cluster].Dir? then w.clusters[r.cluster].files else map[];
      if r.file in there then w.(skipped := w.skipped + [r.file])
      else if n.value.File? then
        Work(Remove(w.files, r.file), w.clusters[r.cluster := Dir(there[r.file := n.value.text])], w.moved + [r.file], w.skipped)
      else w
  }

  /** The loops: what they leave, and whether they came to their end. */
  function MoveRows(w: Work, rows: seq<Row>, failAfter: Option<nat>): (Work, bool)
    decreases |rows|
  {
    if rows == [] then (w, true)
    else if failAfter == Some(0) || Raises(w, rows[0]) then (w, false)
    else MoveRows(MoveOne(w, rows[0]), rows[1..], if failAfter.Some? then Some(failAfter.value - 1) else None)
  }

  /** The index after a write that may have been cut short. */
  function Rewritten(index: Index, names: seq<string>, left: Option<nat>): Index {
    if !index.IndexFile? then index
    else
      var text := CompactIndex(index.text, names);
      IndexFile(if left.Some? && left.value < |text| then text[..left.value] else text)
  }

  /** The moves and the index, once nothing was refused. */
  function Carry(t: Tree, plan: seq<Row>, created: bool, env: Env): (Outcome, Tree) {
    var (w, ended) := MoveRows(Work(t.files, t.clusters, [], []), plan, env.failAfter);
    var t1 := t.(files := w.files, clusters := w.clusters);
    if !ended || (env.failAfter.Some? && env.torn.None?) then (Interrupted, t1)
    else if env.failAfter.Some? then (Interrupted, t1.(index := Rewritten(t.index, w.moved, env.torn)))
    else (Finished(w.moved, w.skipped), t1.(index := Rewritten(t.index, w.moved, None), git := t.git || created))
  }

  function Apply(t: Tree, cold: string -> bool, multi: seq<string>, env: Env): (Outcome, Tree) {
    var created := env.initGit && !t.git && env.state.Outside?;
    if t.index.IndexLink? || t.archiveLink then (Refused, t)
    else if env.initGit && !t.git && env.state.Unknown? then (Refused, t)
    else if created && !env.initOk then (Refused, t)
    else if !env.clean then (Refused, t)
    else
      var rows := Scan(t.files, cold, multi);
      if rows.None? then (Refused, t) else Carry(t, Planned(Plan(rows.value)), created, env)
  }

  // ---------------------------------------------------------------- nothing is lost

  ghost predicate DistinctFiles(files: seq<Named>) {
    forall i, j :: 0 <= i < j < |files| ==> files[i].name != files[j].name
  }

  ghost predicate InArchive(clusters: map<string, Cluster>, cluster: string, name: string, text: string) {
    cluster in clusters && clusters[cluster].Dir? && name in clusters[cluster].files && clusters[cluster].files[name] == text
  }

  /** Every entry stays or is filed, as it was, under its cluster; the archive gains nothing else and loses nothing. */
  ghost predicate Conserved(files: seq<Named>, clusters: map<string, Cluster>, files': seq<Named>,
                            clusters': map<string, Cluster>, multi: seq<string>) {
    && (forall name :: Find(files, name).Some? ==>
          || Find(files', name) == Find(files, name)
          || (Find(files, name).value.File? && InArchive(clusters', ClusterOf(Stem(name), multi), name, Find(files, name).value.text)))
    && (forall name :: Find(files', name).Some? ==> Find(files, name) == Find(files', name))
    && (forall c, name, text :: InArchive(clusters, c, name, text) ==> InArchive(clusters', c, name, text))
    && (forall c, name, text :: InArchive(clusters', c, name, text) ==>
          || InArchive(clusters, c, name, text)
          || (c == ClusterOf(Stem(name), multi) && Find(files, name) == Some(File(text)) && Find(files', name).None?))
    && (forall c :: c in clusters && !clusters[c].Dir? ==> c in clusters' && clusters'[c] == clusters[c])
  }

  ghost predicate Housed(rows: seq<Row>, multi: seq<string>) {
    forall r :: r in rows ==> r.cluster == ClusterOf(Stem(r.file), multi)
  }

  lemma {:induction false} FindRemove(files: seq<Named>, gone: string, name: string)
    requires DistinctFiles(files)
    ensures DistinctFiles(Remove(files, gone))
    ensures Find(Remove(files, gone), name) == if name == gone then None else Find(files, name)
    ensures forall x :: x in Remove(files, gone) ==> x in files
  {
    if files != [] {
      var rest := files[1..];
      if files[0].name == gone {
        if name == gone { NotThere(rest, gone); }
      } else {
        FindRemove(rest, gone, name);
        var r := Remove(rest, gone);
        forall i | 0 <= i < |r| ensures r[i].name != files[0].name {
          assert r[i] in rest;
          var j :| 0 <= j < |rest| && rest[j] == r[i];
          assert files[j + 1] == r[i];
        }
      }
    }
  }

  lemma {:induction false} NotThere(files: seq<Named>, name: string)
    requires forall i :: 0 <= i < |files| ==> files[i].name != name
    ensures Find(files, name).None?
  {
    if files != [] {
      NotThere(files[1..], name);
    }
  }

  predicate WillMove(files: seq<Named>, clusters: map<string, Cluster>, r: Row) {
    WouldMove(files, clusters, r) && !IsLinked(clusters, r.cluster)
  }

  /** One turn either moves its row or leaves files and archive alone. */
  lemma MoveOneEffect(w: Work, r: Row)
    requires !Raises(w, r)
    ensures var w' := MoveOne(w, r);
      if WillMove(w.files, w.clusters, r) then
        && w'.files == Remove(w.files, r.file) && w'.moved == w.moved + [r.file]
        && w'.clusters == Filed(w.clusters, r, Find(w.files, r.file).value.text)
      else w'.files == w.files && w'.clusters == w.clusters && w'.moved == w.moved
  {
  }

  function Filed(clusters: map<string, Cluster>, r: Row, text: string): map<string, Cluster> {
    var there := if r.cluster in clusters && clusters[r.cluster].Dir? then clusters[r.cluster].files else map[];
    clusters[r.cluster := Dir(there[r.file := text])]
  }

  lemma FiledArchive(clusters: map<string, Cluster>, r: Row, text: string)
    requires !Taken(clusters, r) && !IsLinked(clusters, r.cluster) && !(r.cluster in clusters && clusters[r.cluster].InTheWay?)
    ensures forall c, name, x :: InArchive(Filed(clusters, r, text), c, name, x) <==>
      InArchive(clusters, c, name, x) || (c == r.cluster && name == r.file && x == text)
    ensures forall c :: c in clusters && !clusters[c].Dir? ==> c in Filed(clusters, r, text) && Filed(clusters, r, text)[c] == clusters[c]
  {
  }

  lemma MoveOneConserves(w: Work, r: Row, multi: seq<string>)
    requires DistinctFiles(w.files) && r.cluster == ClusterOf(Stem(r.file), multi) && !Raises(w, r)
    ensures var w' := MoveOne(w, r); DistinctFiles(w'.files) && Conserved(w.files, w.clusters, w'.files, w'.clusters, multi)
  {
    var w' := MoveOne(w, r);
    MoveOneEffect(w, r);
    if WillMove(w.files, w.clusters, r) {
      FiledArchive(w.clusters, r, Find(w.files, r.file).value.text);
      FindRemove(w.files, r.file, r.file);
      forall name ensures Find(w'.files, name) == (if name == r.file then None else Find(w.files, name)) {
        FindRemove(w.files, r.file, name);
      }
    }
  }

  lemma ConservedTwice(f: seq<Named>, c: map<string, Cluster>, f': seq<Named>, c': map<string, Cluster>,
                       f'': seq<Named>, c'': map<string, Cluster>, multi: seq<string>)
    requires Conserved(f, c, f', c', multi) && Conserved(f', c', f'', c'', multi)
    ensures Conserved(f, c, f'', c'', multi)
  {
  }

  lemma {:induction false} MoveRowsConserves(w: Work, rows: seq<Row>, failAfter: Option<nat>, multi: seq<string>)
    requires DistinctFiles(w.files) && Housed(rows, multi)
    ensures var w' := MoveRows(w, rows, failAfter).0;
      DistinctFiles(w'.files) && Conserved(w.files, w.clusters, w'.files, w'.clusters, multi)
    decreases |rows|
  {
    if rows != [] && failAfter != Some(0) && !Raises(w, rows[0]) {
      var w1 := MoveOne(w, rows[0]);
      var f1 := if failAfter.Some? then Some(failAfter.value - 1) else None;
      MoveOneConserves(w, rows[0], multi);
      MoveRowsConserves(w1, rows[1..], f1, multi);
      var w' := MoveRows(w1, rows[1..], f1).0;
      ConservedTwice(w.files, w.clusters, w1.files, w1.clusters, w'.files, w'.clusters, multi);
    }
  }
}
