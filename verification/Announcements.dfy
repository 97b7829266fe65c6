/**
 * "Announce once": the seen-set of `new_blockers` (src/apex_router/agent_inbox.py) over whole runs of
 * calls, and the at most five lines one call shows.
 */
module Announcements {
  import opened Base

  const SEEN_MAX: nat := 5000
  const LINES_MAX: nat := 5

  /** One unresolved blocker of an item in "needs". */
  datatype Open = Open(token: string, id: string, text: string)

  /** One call: what it gathered, whether every source was read in time, whether the file could be locked and written. */
  datatype Call = Call(open: seq<Open>, complete: bool, written: bool)

  function Tokens(xs: seq<Open>): (ts: seq<string>)
    ensures |ts| == |xs| && forall i :: 0 <= i < |xs| ==> ts[i] == xs[i].token
  {
    if xs == [] then [] else [xs[0].token] + Tokens(xs[1..])
  }

  function Unseen(xs: seq<Open>, seen: seq<string>): seq<Open> {
    if xs == [] then [] else (if xs[0].token in seen then [] else [xs[0]]) + Unseen(xs[1..], seen)
  }

  function LastOnes<T>(xs: seq<T>, n: nat): seq<T> {
    if |xs| <= n then xs else xs[|xs| - n..]
  }

  /** The list before it is cut to its limit. */
  function Keep(seen: seq<string>, c: Call): seq<string> {
    if c.complete then Tokens(c.open) else seen + Tokens(Unseen(c.open, seen))
  }

  function Announced(seen: seq<string>, c: Call): seq<Open> {
    if c.written then Unseen(c.open, seen) else []
  }

  function NextSeen(seen: seq<string>, c: Call): seq<string> {
    if c.written then LastOnes(Keep(seen, c), SEEN_MAX) else seen
  }

  function SeenAfter(cs: seq<Call>): seq<string> {
    if cs == [] then [] else NextSeen(SeenAfter(cs[..|cs| - 1]), cs[|cs| - 1])
  }

  /** Every token recorded from the last complete call on, in order; nothing is cut. */
  function Recorded(cs: seq<Call>): seq<string> {
    if cs == [] then []
    else
      var before, c := cs[..|cs| - 1], cs[|cs| - 1];
      if !c.written then Recorded(before)
      else if c.complete then Tokens(c.open)
      else Recorded(before) + Tokens(Unseen(c.open, SeenAfter(before)))
  }

  /** The token is among them, but at least 5000 others were recorded after it. */
  ghost predicate PushedOut(cs: seq<Call>, token: string) {
    var ts := Recorded(cs);
    token in ts && forall k :: 0 <= k < |ts| && ts[k] == token ==> k + SEEN_MAX < |ts|
  }

  // ---------------------------------------------------------------- announced once

  ghost predicate Has(c: Call, token: string) {
    exists i :: 0 <= i < |c.open| && c.open[i].token == token
  }

  ghost predicate Reported(seen: seq<string>, c: Call, token: string) {
    exists i :: 0 <= i < |Announced(seen, c)| && Announced(seen, c)[i].token == token
  }

  /** Call `i` recorded the token and no later complete call found it gone. */
  ghost predicate StillKnown(cs: seq<Call>, i: nat, token: string) {
    && i < |cs| && cs[i].written && Has(cs[i], token)
    && forall m :: i < m < |cs| && cs[m].written && cs[m].complete ==> Has(cs[m], token)
  }

  lemma {:induction false} UnseenTokens(xs: seq<Open>, seen: seq<string>)
    ensures forall x :: x in Unseen(xs, seen) <==> x in xs && x.token !in seen
    ensures |Unseen(xs, seen)| <= |xs|
  {
    if xs != [] {
      UnseenTokens(xs[1..], seen);
    }
  }

  lemma TokenOf(xs: seq<Open>, token: string)
    ensures token in Tokens(xs) <==> exists i :: 0 <= i < |xs| && xs[i].token == token
  {
  }

  lemma LastTwice<T>(xs: seq<T>, ys: seq<T>, n: nat)
    ensures LastOnes(LastOnes(xs, n) + ys, n) == LastOnes(xs + ys, n)
  {
  }

  /** The list holds the last 5000 of what was recorded. */
  lemma {:induction false} SeenAreTheLast(cs: seq<Call>)
    ensures SeenAfter(cs) == LastOnes(Recorded(cs), SEEN_MAX)
  {
    if cs != [] {
      var before, c := cs[..|cs| - 1], cs[|cs| - 1];
      SeenAreTheLast(before);
      LastTwice(Recorded(before), Tokens(Unseen(c.open, SeenAfter(before))), SEEN_MAX);
    }
  }

  /** A token is cut off the list exactly when it was pushed out of it. */
  lemma CutWhenPushedOut(cs: seq<Call>, token: string)
    ensures token in SeenAfter(cs) <==> token in Recorded(cs) && !PushedOut(cs, token)
  {
    SeenAreTheLast(cs);
    AmongLast(Recorded(cs), SEEN_MAX, token);
  }

  lemma AmongLast<T>(xs: seq<T>, n: nat, x: T)
    ensures x in LastOnes(xs, n) <==> exists k :: 0 <= k < |xs| && xs[k] == x && |xs| <= k + n
  {
    var last := LastOnes(xs, n);
    var d := |xs| - |last|;
    forall k | 0 <= k < |xs| && xs[k] == x && |xs| <= k + n ensures x in last {
      assert last[k - d] == x;
    }
    if x in last {
      var j :| 0 <= j < |last| && last[j] == x;
      assert xs[j + d] == x;
    }
  }

  lemma {:induction false} RecordedExactly(cs: seq<Call>, token: string)
    ensures token in Recorded(cs) <==> exists i: nat :: StillKnown(cs, i, token)
  {
    if cs != [] {
      var before, c := cs[..|cs| - 1], cs[|cs| - 1];
      RecordedExactly(before, token);
      KnownStep(cs, token);
      if c.written {
        TokenOf(c.open, token);
        if !c.complete {
          CutWhenPushedOut(before, token);
          TokenOf(Unseen(c.open, SeenAfter(before)), token);
          UnseenHas(c.open, SeenAfter(before), token);
        }
      }
    }
  }

  lemma UnseenHas(xs: seq<Open>, seen: seq<string>, token: string)
    ensures (exists i :: 0 <= i < |Unseen(xs, seen)| && Unseen(xs, seen)[i].token == token)
            <==> token !in seen && exists i :: 0 <= i < |xs| && xs[i].token == token
  {
    UnseenTokens(xs, seen);
    var u := Unseen(xs, seen);
    if i :| 0 <= i < |u| && u[i].token == token {
      assert u[i] in xs;
    }
    if i :| 0 <= i < |xs| && xs[i].token == token && token !in seen {
      assert xs[i] in u;
    }
  }

  /** How one more call changes what is still known. */
  lemma KnownStep(cs: seq<Call>, token: string)
    requires cs != []
    ensures var n := |cs| - 1;
      (exists i: nat :: StillKnown(cs, i, token)) <==>
      || (cs[n].written && Has(cs[n], token))
      || (!(cs[n].written && cs[n].complete) && exists i: nat :: StillKnown(cs[..n], i, token))
  {
    var n := |cs| - 1;
    if cs[n].written && Has(cs[n], token) {
      assert StillKnown(cs, n, token);
    }
    if i: nat :| StillKnown(cs, i, token) {
      if i < n {
        assert StillKnown(cs[..n], i, token);
      }
    }
    if i: nat :| StillKnown(cs[..n], i, token) {
      if !(cs[n].written && cs[n].complete) {
        assert cs[i] == cs[..n][i];
        forall m | i < m < |cs| && cs[m].written && cs[m].complete ensures Has(cs[m], token) {
          assert cs[m] == cs[..n][m];
        }
        assert StillKnown(cs, i, token);
      }
    }
  }

  /**
   * A call announces a token exactly when it has it, its file could be written, and no earlier call had
   * it without a complete call in between that did not, unless 5000 others have pushed it out since.
   */
  lemma AnnouncedExactly(cs: seq<Call>, c: Call, token: string)
    ensures Reported(SeenAfter(cs), c, token) <==>
      c.written && Has(c, token) && (PushedOut(cs, token) || !exists i: nat :: StillKnown(cs, i, token))
  {
    RecordedExactly(cs, token);
    CutWhenPushedOut(cs, token);
    ReportedIs(SeenAfter(cs), c, token);
  }

  lemma ReportedIs(seen: seq<string>, c: Call, token: string)
    ensures Reported(seen, c, token) <==> c.written && token !in seen && Has(c, token)
  {
    UnseenHas(c.open, seen, token);
    if c.written {
      assert Announced(seen, c) == Unseen(c.open, seen);
    }
  }

  /** Between two announcements of one token lies a complete call in which it was gone, or 5000 others pushed it out. */
  lemma AnnouncedOnce(cs: seq<Call>, i: nat, j: nat, token: string)
    requires i < j < |cs|
    requires Reported(SeenAfter(cs[..i]), cs[i], token) && Reported(SeenAfter(cs[..j]), cs[j], token)
    ensures PushedOut(cs[..j], token) || exists m :: i < m < j && cs[m].written && cs[m].complete && !Has(cs[m], token)
  {
    AnnouncedExactly(cs[..j], cs[j], token);
    ReportedIs(SeenAfter(cs[..i]), cs[i], token);
    assert cs[..j][i] == cs[i] && cs[i].written && Has(cs[i], token);
    if !PushedOut(cs[..j], token) {
      assert !StillKnown(cs[..j], i, token);
      var m :| i < m < |cs[..j]| && cs[..j][m].written && cs[..j][m].complete && !Has(cs[..j][m], token);
      assert cs[m] == cs[..j][m];
    }
  }

  /** A token that becomes unresolved is announced: it was in no call before. */
  lemma NewTokenAnnounced(cs: seq<Call>, c: Call, token: string)
    requires c.written && Has(c, token)
    requires forall i :: 0 <= i < |cs| ==> !Has(cs[i], token)
    ensures Reported(SeenAfter(cs), c, token)
  {
    AnnouncedExactly(cs, c, token);
  }

  ghost predicate DistinctTokens(xs: seq<Open>) {
    forall i, j :: 0 <= i < j < |xs| ==> xs[i].token != xs[j].token
  }

  lemma {:induction false} AllSeen(xs: seq<Open>, seen: seq<string>)
    ensures Unseen(xs, seen) == [] <==> forall i :: 0 <= i < |xs| ==> xs[i].token in seen
  {
    if xs != [] {
      AllSeen(xs[1..], seen);
      assert forall i :: 0 < i < |xs| ==> xs[i] == xs[1..][i - 1];
    }
  }

  /** The limit is where "once" ends: a complete call made twice in a row announces nothing anew exactly up to 5000 blockers. */
  lemma RepeatIsSilent(seen: seq<string>, open: seq<Open>)
    requires DistinctTokens(open)
    ensures var c := Call(open, true, true);
      Announced(NextSeen(seen, c), c) == [] <==> |open| <= 5000
  {
    var c := Call(open, true, true);
    var kept := NextSeen(seen, c);
    AllSeen(open, kept);
    if |open| <= SEEN_MAX {
      assert forall i :: 0 <= i < |open| ==> open[i].token == kept[i];
    } else {
      assert forall i :: 0 <= i < |kept| ==> kept[i] == open[|open| - SEEN_MAX + i].token;
      assert open[0].token !in kept;
    }
  }

  // ---------------------------------------------------------------- at most five lines

  /** The tokens of one item, under the text of the first. */
  datatype Row = Row(id: string, text: string, tokens: seq<string>)

  /** One item and the number of its other new blockers, or the number of items not shown. */
  datatype Line = Line(id: string, text: string, more: nat) | Rest(agents: nat)

  function AddTo(rows: seq<Row>, x: Open): seq<Row> {
    if rows == [] then [Row(x.id, x.text, [x.token])]
    else if rows[0].id == x.id then [rows[0].(tokens := rows[0].tokens + [x.token])] + rows[1..]
    else [rows[0]] + AddTo(rows[1..], x)
  }

  function Grouped(xs: seq<Open>): seq<Row> {
    if xs == [] then [] else AddTo(Grouped(xs[..|xs| - 1]), xs[|xs| - 1])
  }

  function LineOf(row: Row): Line
    requires row.tokens != []
  {
    Line(row.id, row.text, |row.tokens| - 1)
  }

  ghost predicate DistinctRows(rows: seq<Row>) {
    && (forall i, j :: 0 <= i < j < |rows| ==> rows[i].id != rows[j].id)
    && (forall i :: 0 <= i < |rows| ==> rows[i].tokens != [])
  }

  function RowTokens(rows: seq<Row>): nat {
    if rows == [] then 0 else |rows[0].tokens| + RowTokens(rows[1..])
  }

  lemma {:induction false} AddToTotal(rows: seq<Row>, x: Open)
    ensures RowTokens(AddTo(rows, x)) == RowTokens(rows) + 1
  {
    var r := AddTo(rows, x);
    if rows == [] {
      assert RowTokens(r[1..]) == 0;
    } else if rows[0].id == x.id {
      assert r[1..] == rows[1..];
    } else {
      AddToTotal(rows[1..], x);
      assert r[1..] == AddTo(rows[1..], x);
    }
  }

  lemma {:induction false} AddToDistinct(rows: seq<Row>, x: Open)
    requires DistinctRows(rows)
    ensures DistinctRows(AddTo(rows, x))
    ensures forall i :: 0 <= i < |AddTo(rows, x)| ==> AddTo(rows, x)[i].id == x.id || (i < |rows| && AddTo(rows, x)[i] == rows[i])
  {
    if rows != [] && rows[0].id != x.id {
      AddToDistinct(rows[1..], x);
      var tail := AddTo(rows[1..], x);
      forall j | 0 <= j < |tail| ensures tail[j].id != rows[0].id {
        if j < |rows[1..]| && tail[j] == rows[1..][j] {
          assert rows[j + 1] == tail[j];
        }
      }
      HeadDistinct(rows[0], tail);
    }
  }

  lemma HeadDistinct(r: Row, tail: seq<Row>)
    requires DistinctRows(tail) && r.tokens != [] && forall j :: 0 <= j < |tail| ==> tail[j].id != r.id
    ensures DistinctRows([r] + tail)
  {
  }

  /** The new token is filed, and what was filed stays. */
  lemma {:induction false} AddToFiles(rows: seq<Row>, x: Open, y: Open)
    requires y == x || Filed(rows, y)
    ensures Filed(AddTo(rows, x), y)
  {
    var r := AddTo(rows, x);
    if rows == [] {
      assert r[0].id == x.id && x.token in r[0].tokens;
    } else if rows[0].id == x.id {
      if y == x {
        assert r[0].id == y.id && y.token in r[0].tokens;
      } else {
        var i :| 0 <= i < |rows| && rows[i].id == y.id && y.token in rows[i].tokens;
        assert r[i].id == y.id && y.token in r[i].tokens;
      }
    } else if y != x && rows[0].id == y.id && y.token in rows[0].tokens {
      assert r[0].id == y.id && y.token in r[0].tokens;
    } else {
      if y != x {
        var i :| 0 <= i < |rows| && rows[i].id == y.id && y.token in rows[i].tokens;
        assert rows[1..][i - 1] == rows[i];
      }
      AddToFiles(rows[1..], x, y);
      var tail := AddTo(rows[1..], x);
      var j :| 0 <= j < |tail| && tail[j].id == y.id && y.token in tail[j].tokens;
      assert r[j + 1] == tail[j];
    }
  }

  /** Grouping loses no token: one row an item, every new token in the row of its item. */
  lemma {:induction false} GroupedCovers(xs: seq<Open>)
    ensures DistinctRows(Grouped(xs)) && RowTokens(Grouped(xs)) == |xs|
    ensures forall k :: 0 <= k < |xs| ==> Filed(Grouped(xs), xs[k])
  {
    if xs != [] {
      var n := |xs| - 1;
      GroupedCovers(xs[..n]);
      AddToDistinct(Grouped(xs[..n]), xs[n]);
      AddToTotal(Grouped(xs[..n]), xs[n]);
      forall k | 0 <= k < |xs| ensures Filed(Grouped(xs), xs[k]) {
        assert k == n || xs[k] == xs[..n][k];
        AddToFiles(Grouped(xs[..n]), xs[n], xs[k]);
      }
    }
  }

  ghost predicate Filed(rows: seq<Row>, x: Open) {
    exists i :: 0 <= i < |rows| && rows[i].id == x.id && x.token in rows[i].tokens
  }

  /** Items shown plus items counted. */
  function AgentsShown(lines: seq<Line>): nat {
    if lines == [] then 0
    else (match lines[0] case Line(_, _, _) => 1 case Rest(n) => n) + AgentsShown(lines[1..])
  }

  function TextLines(rows: seq<Row>): (lines: seq<Line>)
    requires forall i :: 0 <= i < |rows| ==> rows[i].tokens != []
    ensures |lines| == |rows| && forall i :: 0 <= i < |rows| ==> lines[i] == LineOf(rows[i])
  {
    if rows == [] then [] else [LineOf(rows[0])] + TextLines(rows[1..])
  }

  function LinesOf(rows: seq<Row>): seq<Line>
    requires forall i :: 0 <= i < |rows| ==> rows[i].tokens != []
  {
    if |rows| <= LINES_MAX then TextLines(rows)
    else TextLines(rows[..LINES_MAX - 1]) + [Rest(|rows| - (LINES_MAX - 1))]
  }

  lemma {:induction false} TextLinesCount(rows: seq<Row>)
    requires forall i :: 0 <= i < |rows| ==> rows[i].tokens != []
    ensures AgentsShown(TextLines(rows)) == |rows|
  {
    if rows != [] {
      TextLinesCount(rows[1..]);
      assert TextLines(rows)[1..] == TextLines(rows[1..]);
    }
  }

  lemma {:induction false} AgentsConcat(a: seq<Line>, b: seq<Line>)
    ensures AgentsShown(a + b) == AgentsShown(a) + AgentsShown(b)
  {
    if a == [] {
      assert a + b == b;
    } else {
      assert (a + b)[1..] == a[1..] + b;
      AgentsConcat(a[1..], b);
    }
  }

  /** At most five lines, and together they show or count every item that has something new. */
  lemma LinesCoverEveryAgent(rows: seq<Row>)
    requires forall i :: 0 <= i < |rows| ==> rows[i].tokens != []
    ensures |LinesOf(rows)| <= 5 && AgentsShown(LinesOf(rows)) == |rows|
    ensures forall i :: 0 <= i < |rows| && (i < 4 || |rows| <= 5) ==> i < |LinesOf(rows)| && LinesOf(rows)[i] == LineOf(rows[i])
  {
    if |rows| <= LINES_MAX {
      TextLinesCount(rows);
    } else {
      var shown, rest := rows[..LINES_MAX - 1], [Rest(|rows| - (LINES_MAX - 1))];
      TextLinesCount(shown);
      AgentsConcat(TextLines(shown), rest);
      assert AgentsShown(rest[1..]) == 0;
    }
  }

  // ---------------------------------------------------------------- the state file

  method UnseenOf(open: seq<Open>, seen: seq<string>) returns (new_: seq<Open>)
    ensures new_ == Unseen(open, seen)
  {
    new_ := [];
    var i := 0;
    while i < |open|
      invariant 0 <= i <= |open| && new_ + Unseen(open[i..], seen) == Unseen(open, seen)
    {
      assert open[i..][0] == open[i] && open[i..][1..] == open[i + 1..];
      ghost var rest := Unseen(open[i + 1..], seen);
      if open[i].token !in seen {
        Assoc(new_, [open[i]], rest);
        new_ := new_ + [open[i]];
      } else {
        assert [] + rest == rest;
      }
      i := i + 1;
    }
  }

  method RowsFor(news: seq<Open>) returns (rows: seq<Row>)
    ensures rows == Grouped(news)
  {
    rows := [];
    for i := 0 to |news|
      invariant rows == Grouped(news[..i])
    {
      assert news[..i + 1][..i] == news[..i];
      rows := AddTo(rows, news[i]);
    }
    assert news[..|news|] == news;
  }

  method LinesFor(rows: seq<Row>) returns (lines: seq<Line>)
    requires forall i :: 0 <= i < |rows| ==> rows[i].tokens != []
    ensures lines == LinesOf(rows)
  {
    lines := [];
    var k := 0;
    while k < |rows| && !(k == LINES_MAX - 1 && |rows| > LINES_MAX)
      invariant 0 <= k <= |rows| && |lines| == k && (|rows| > LINES_MAX ==> k <= LINES_MAX - 1)
      invariant forall i :: 0 <= i < k ==> lines[i] == LineOf(rows[i])
    {
      lines := lines + [LineOf(rows[k])];
      k := k + 1;
    }
    assert lines == TextLines(rows[..k]);
    if |rows| > LINES_MAX {
      lines := lines + [Rest(|rows| - k)];
    } else {
      assert rows[..k] == rows;
    }
  }

  class SeenFile {
    var seen: seq<string>

    constructor ()
      ensures seen == []
    {
      seen := [];
    }

    method NewBlockers(c: Call) returns (lines: seq<Line>)
      modifies this
      ensures seen == NextSeen(old(seen), c)
      ensures forall i :: 0 <= i < |Grouped(Announced(old(seen), c))| ==> Grouped(Announced(old(seen), c))[i].tokens != []
      ensures lines == LinesOf(Grouped(Announced(old(seen), c)))
    {
      if !c.written { return []; }
      var news := UnseenOf(c.open, seen);
      var keep := if c.complete then Tokens(c.open) else seen + Tokens(news);
      seen := LastOnes(keep, SEEN_MAX);
      var rows := RowsFor(news);
      GroupedCovers(news);
      lines := LinesFor(rows);
    }
  }
}
