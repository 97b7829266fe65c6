/**
 * Splitting texts into bounded chunks: `_slice_text`, `chunk_lines` and `chunk_pages` of
 * scripts/booksearch.py. Both chunkers pack numbered pieces greedily; a chunk is a run of pieces.
 */
module Chunking {
  import opened Base
  import opened Text

  /** A piece of text and the line or page it comes from. */
  datatype Piece = Piece(no: nat, text: string)

  /** First and last number, and the joined text. */
  datatype Chunk = Chunk(start: nat, end: nat, text: string)

  // ---------------------------------------------------------------- slicing one text

  /** The place of the last blank among the first `n` characters, or -1. */
  function LastSpace(s: string, n: nat): (k: int)
    requires n <= |s|
    ensures -1 <= k < n && (k >= 0 ==> s[k] == ' ')
  {
    if n == 0 then -1 else if s[n - 1] == ' ' then n - 1 else LastSpace(s, n - 1)
  }

  function CutAt(s: string, size: nat): (cut: nat)
    requires 0 < size < |s| && !IsSpace(s[0])
    ensures 1 <= cut <= size
  {
    var k := LastSpace(s, size);
    if k < size / 2 then size else assert s[0] != ' '; k
  }

  /** The pieces of a stripped text. */
  function Pieces(txt: string, size: nat): seq<string>
    requires size >= 1 && (txt != "" ==> !IsSpace(txt[0]))
    decreases |txt|
  {
    if |txt| <= size then (if txt == "" then [] else [txt])
    else
      var cut := CutAt(txt, size);
      [Strip(txt[..cut])] + Pieces(Strip(txt[cut..]), size)
  }

  function SliceText(txt: string, size: nat): seq<string>
    requires size >= 1
  {
    Pieces(Strip(txt), size)
  }

  function InkOf(texts: seq<string>): string {
    if texts == [] then "" else Ink(texts[0]) + InkOf(texts[1..])
  }

  lemma {:induction false} StripKeepsHead(s: string)
    requires s != "" && !IsSpace(s[0])
    ensures Strip(s) != ""
  {
    RStripKeepsHead(s);
  }

  lemma InkOfTwo(a: string, b: string)
    ensures Ink(Strip(a)) + Ink(Strip(b)) == Ink(a + b)
  {
    InkConcat(a, b);
    InkStrip(a);
    InkStrip(b);
  }

  lemma CutText(txt: string, cut: nat)
    requires cut <= |txt|
    ensures txt[..cut] + txt[cut..] == txt
  {
  }

  lemma InkOfCut(txt: string, cut: nat)
    requires cut <= |txt|
    ensures Ink(Strip(txt[..cut])) + Ink(Strip(txt[cut..])) == Ink(txt)
  {
    CutText(txt, cut);
    InkOfTwo(txt[..cut], txt[cut..]);
  }

  lemma InkOfOne(x: string)
    ensures InkOf([x]) == Ink(x)
  {
    assert [x][1..] == [];
  }

  lemma InkOfHead(x: string, rest: seq<string>)
    ensures InkOf([x] + rest) == Ink(x) + InkOf(rest)
  {
    assert ([x] + rest)[1..] == rest;
  }

  lemma {:induction false} PiecesBounded(txt: string, size: nat)
    requires size >= 1 && (txt != "" ==> !IsSpace(txt[0]))
    ensures forall i :: 0 <= i < |Pieces(txt, size)| ==> 1 <= |Pieces(txt, size)[i]| <= size
    decreases |txt|
  {
    if |txt| > size {
      var cut := CutAt(txt, size);
      StripKeepsHead(txt[..cut]);
      PiecesBounded(Strip(txt[cut..]), size);
    }
  }

  lemma {:induction false} PiecesInk(txt: string, size: nat)
    requires size >= 1 && (txt != "" ==> !IsSpace(txt[0]))
    ensures InkOf(Pieces(txt, size)) == Ink(txt)
    decreases |txt|
  {
    if |txt| > size {
      var cut := CutAt(txt, size);
      PiecesInk(Strip(txt[cut..]), size);
      InkOfHead(Strip(txt[..cut]), Pieces(Strip(txt[cut..]), size));
      InkOfCut(txt, cut);
    } else if txt != "" {
      InkOfOne(txt);
    }
  }

  /** Slicing ends, every piece has between one and `size` characters, and no ink is lost or moved. */
  lemma SlicesBounded(txt: string, size: nat)
    requires size >= 1
    ensures forall p :: p in SliceText(txt, size) ==> 1 <= |p| <= size
    ensures InkOf(SliceText(txt, size)) == Ink(txt)
  {
    PiecesBounded(Strip(txt), size);
    PiecesInk(Strip(txt), size);
    InkStrip(txt);
  }

  // ---------------------------------------------------------------- packing pieces

  /** Characters used, with `extra` for each piece. */
  function Size(ps: seq<Piece>, extra: nat): nat {
    if ps == [] then 0 else Size(ps[..|ps| - 1], extra) + |ps[|ps| - 1].text| + extra
  }

  datatype Packing = Packing(done: seq<seq<Piece>>, buf: seq<Piece>)

  function Add(k: Packing, p: Piece, target: nat, extra: nat): Packing {
    if Size(k.buf, extra) > 0 && Size(k.buf, extra) + |p.text| + extra > target then Packing(k.done + [k.buf], [p])
    else k.(buf := k.buf + [p])
  }

  function Pack(ps: seq<Piece>, target: nat, extra: nat): Packing {
    if ps == [] then Packing([], []) else Add(Pack(ps[..|ps| - 1], target, extra), ps[|ps| - 1], target, extra)
  }

  function Runs(k: Packing): seq<seq<Piece>> {
    k.done + if k.buf == [] then [] else [k.buf]
  }

  function Flatten(runs: seq<seq<Piece>>): seq<Piece> {
    if runs == [] then [] else Flatten(runs[..|runs| - 1]) + runs[|runs| - 1]
  }

  function Texts(ps: seq<Piece>): (ts: seq<string>)
    ensures |ts| == |ps| && forall i :: 0 <= i < |ps| ==> ts[i] == ps[i].text
  {
    if ps == [] then [] else [ps[0].text] + Texts(ps[1..])
  }

  function Joined(run: seq<Piece>): string {
    JoinLines(Texts(run))
  }

  function ChunkOf(run: seq<Piece>): Chunk
    requires run != []
  {
    Chunk(run[0].no, run[|run| - 1].no, Joined(run))
  }

  function ChunksOf(runs: seq<seq<Piece>>): (cs: seq<Chunk>)
    requires forall i :: 0 <= i < |runs| ==> runs[i] != []
    ensures |cs| == |runs| && forall i :: 0 <= i < |runs| ==> cs[i] == ChunkOf(runs[i])
  {
    if runs == [] then [] else [ChunkOf(runs[0])] + ChunksOf(runs[1..])
  }

  ghost predicate SomeText(ps: seq<Piece>, extra: nat) {
    forall i :: 0 <= i < |ps| ==> |ps[i].text| + extra > 0
  }

  lemma {:induction false} SizePositive(ps: seq<Piece>, extra: nat)
    requires SomeText(ps, extra)
    ensures Size(ps, extra) > 0 <==> ps != []
    ensures Size(ps, extra) >= |ps|
  {
    if ps != [] {
      SizePositive(ps[..|ps| - 1], extra);
    }
  }

  lemma FlattenSnoc(runs: seq<seq<Piece>>, run: seq<Piece>)
    ensures Flatten(runs + [run]) == Flatten(runs) + run
  {
    assert (runs + [run])[..|runs|] == runs;
  }

  lemma RunsFlatten(k: Packing)
    ensures Flatten(Runs(k)) == Flatten(k.done) + k.buf
  {
    if k.buf == [] {
      assert Runs(k) == k.done && Flatten(k.done) + k.buf == Flatten(k.done);
    } else {
      FlattenSnoc(k.done, k.buf);
    }
  }

  lemma AddFlattens(k: Packing, p: Piece, target: nat, extra: nat)
    ensures Flatten(Runs(Add(k, p, target, extra))) == Flatten(Runs(k)) + [p]
  {
    var k' := Add(k, p, target, extra);
    RunsFlatten(k);
    RunsFlatten(k');
    if k'.done == k.done {
      Assoc(Flatten(k.done), k.buf, [p]);
    } else {
      FlattenSnoc(k.done, k.buf);
    }
  }

  /** Nothing is lost, doubled or moved by packing. */
  lemma {:induction false} PackFlattens(ps: seq<Piece>, target: nat, extra: nat)
    ensures Flatten(Runs(Pack(ps, target, extra))) == ps
    ensures forall i :: 0 <= i < |Runs(Pack(ps, target, extra))| ==> Runs(Pack(ps, target, extra))[i] != []
  {
    if ps != [] {
      var front, p := ps[..|ps| - 1], ps[|ps| - 1];
      assert ps == front + [p];
      PackFlattens(front, target, extra);
      AddFlattens(Pack(front, target, extra), p, target, extra);
      RunsNotEmpty(Pack(front, target, extra), p, target, extra);
    }
  }

  lemma RunsNotEmpty(k: Packing, p: Piece, target: nat, extra: nat)
    requires forall i :: 0 <= i < |Runs(k)| ==> Runs(k)[i] != []
    ensures forall i :: 0 <= i < |Runs(Add(k, p, target, extra))| ==> Runs(Add(k, p, target, extra))[i] != []
  {
    forall i | 0 <= i < |k.done| ensures k.done[i] != [] {
      assert Runs(k)[i] == k.done[i];
    }
  }

  /** A run is within its target, or a single piece. */
  ghost predicate Within(run: seq<Piece>, target: nat, extra: nat) {
    Size(run, extra) <= target || |run| == 1
  }

  ghost predicate AllWithin(k: Packing, target: nat, extra: nat) {
    (forall i :: 0 <= i < |k.done| ==> Within(k.done[i], target, extra)) && (k.buf != [] ==> Within(k.buf, target, extra))
  }

  lemma AddWithin(k: Packing, p: Piece, target: nat, extra: nat)
    requires AllWithin(k, target, extra) && SomeText(k.buf, extra)
    ensures AllWithin(Add(k, p, target, extra), target, extra)
  {
    SizePositive(k.buf, extra);
    if Size(k.buf, extra) > 0 && Size(k.buf, extra) + |p.text| + extra > target {
      assert |[p]| == 1;
    } else {
      SizeSnoc(k.buf, p, extra);
    }
  }

  lemma {:induction false} PackWithin(ps: seq<Piece>, target: nat, extra: nat)
    requires SomeText(ps, extra)
    ensures AllWithin(Pack(ps, target, extra), target, extra) && SomeText(Pack(ps, target, extra).buf, extra)
  {
    if ps != [] {
      var n := |ps| - 1;
      PackWithin(ps[..n], target, extra);
      AddWithin(Pack(ps[..n], target, extra), ps[n], target, extra);
    }
  }

  /** The first piece of the next run would not have fitted. */
  ghost predicate Closed(run: seq<Piece>, next: seq<Piece>, target: nat, extra: nat) {
    next != [] && Size(run, extra) + |next[0].text| + extra > target
  }

  /** A run is closed only when the next piece would not have fitted. */
  ghost predicate Greedy(runs: seq<seq<Piece>>, target: nat, extra: nat) {
    forall i, j :: 0 <= i && i + 1 == j < |runs| ==> Closed(runs[i], runs[j], target, extra)
  }

  lemma AddGreedy(k: Packing, p: Piece, target: nat, extra: nat)
    requires Greedy(Runs(k), target, extra) && (k.done != [] ==> k.buf != [])
    ensures Greedy(Runs(Add(k, p, target, extra)), target, extra)
  {
    var was, runs := Runs(k), Runs(Add(k, p, target, extra));
    var n := |runs| - 1;
    forall i, j | 0 <= i && i + 1 == j < |runs| ensures Closed(runs[i], runs[j], target, extra) {
      if j < n {
        assert runs[i] == was[i] && runs[j] == was[j];
      } else if |was| == |runs| {
        LastGrows(k, p, target, extra);
        assert Closed(was[i], was[j], target, extra);
      }
    }
  }

  /** When no run is closed, the last one only grows. */
  lemma LastGrows(k: Packing, p: Piece, target: nat, extra: nat)
    requires |Runs(Add(k, p, target, extra))| == |Runs(k)|
    ensures var was, runs := Runs(k), Runs(Add(k, p, target, extra));
      |was| > 0 && was[..|was| - 1] == runs[..|was| - 1] && was[|was| - 1] <= runs[|was| - 1]
  {
  }

  lemma BufferStarted(ps: seq<Piece>, target: nat, extra: nat)
    ensures Pack(ps, target, extra).done != [] ==> Pack(ps, target, extra).buf != []
  {
    if ps != [] {
      var k := Pack(ps[..|ps| - 1], target, extra);
      assert Add(k, ps[|ps| - 1], target, extra).buf != [];
    }
  }

  lemma {:induction false} PackGreedy(ps: seq<Piece>, target: nat, extra: nat)
    ensures Greedy(Runs(Pack(ps, target, extra)), target, extra)
  {
    if ps != [] {
      var n := |ps| - 1;
      PackGreedy(ps[..n], target, extra);
      BufferStarted(ps[..n], target, extra);
      AddGreedy(Pack(ps[..n], target, extra), ps[n], target, extra);
    }
  }

  lemma TextsConcat(a: seq<Piece>, b: seq<Piece>)
    ensures Texts(a + b) == Texts(a) + Texts(b)
  {
  }

  lemma SizeSnoc(ps: seq<Piece>, p: Piece, extra: nat)
    ensures Size(ps + [p], extra) == Size(ps, extra) + |p.text| + extra
  {
    assert (ps + [p])[..|ps|] == ps;
  }

  lemma JoinedSnoc(front: seq<Piece>, p: Piece)
    requires front != []
    ensures |Joined(front + [p])| == |Joined(front)| + 1 + |p.text|
  {
    TextsConcat(front, [p]);
    assert Texts([p]) == [p.text];
    JoinSnoc(Texts(front), p.text);
  }

  /** A joined run has its characters and the breaks between its pieces. */
  lemma {:induction false} JoinedLength(ps: seq<Piece>)
    requires ps != []
    ensures |Joined(ps)| == Size(ps, 0) + |ps| - 1
  {
    var front, p := ps[..|ps| - 1], ps[|ps| - 1];
    assert ps == front + [p];
    SizeSnoc(front, p, 0);
    if front == [] {
      assert Texts(ps) == [p.text];
    } else {
      JoinedLength(front);
      JoinedSnoc(front, p);
    }
  }

  lemma {:induction false} BreaksCounted(ps: seq<Piece>)
    ensures Size(ps, 1) == Size(ps, 0) + |ps|
  {
    if ps != [] {
      BreaksCounted(ps[..|ps| - 1]);
    }
  }

  lemma SizeOne(ps: seq<Piece>, extra: nat)
    requires |ps| == 1
    ensures Size(ps, extra) == |ps[0].text| + extra
  {
    assert ps[..0] == [];
  }

  // ---------------------------------------------------------------- chunk_lines

  function Number(no: nat, texts: seq<string>): (ps: seq<Piece>)
    ensures |ps| == |texts| && forall i :: 0 <= i < |texts| ==> ps[i] == Piece(no, texts[i])
  {
    if texts == [] then [] else [Piece(no, texts[0])] + Number(no, texts[1..])
  }

  function LineTexts(line: string, target: nat): seq<string>
    requires target >= 1
  {
    if |line| > target then SliceText(line, target) else [line]
  }

  /** The pieces of the lines, numbered from 1. */
  function LinePieces(lines: seq<string>, target: nat): seq<Piece>
    requires target >= 1
  {
    if lines == [] then []
    else LinePieces(lines[..|lines| - 1], target) + Number(|lines|, LineTexts(lines[|lines| - 1], target))
  }

  function LineRuns(text: string, target: nat): seq<seq<Piece>>
    requires target >= 1
  {
    Runs(Pack(LinePieces(SplitLines(text), target), target, 1))
  }

  /** Pieces of at most `target` characters, numbered from 1 to `n` in order. */
  ghost predicate Numbered(ps: seq<Piece>, target: nat, n: nat) {
    && (forall i :: 0 <= i < |ps| ==> |ps[i].text| <= target && 1 <= ps[i].no <= n)
    && (forall i, j :: 0 <= i <= j < |ps| ==> ps[i].no <= ps[j].no)
  }

  lemma NumberedMore(ps: seq<Piece>, target: nat, n: nat, own: seq<string>)
    requires Numbered(ps, target, n) && forall p :: p in own ==> |p| <= target
    ensures Numbered(ps + Number(n + 1, own), target, n + 1)
  {
    assert forall i :: 0 <= i < |own| ==> own[i] in own;
  }

  lemma {:induction false} LinePiecesBounded(lines: seq<string>, target: nat)
    requires target >= 1
    ensures Numbered(LinePieces(lines, target), target, |lines|)
  {
    if lines != [] {
      var front, line := lines[..|lines| - 1], lines[|lines| - 1];
      LinePiecesBounded(front, target);
      SlicesBounded(line, target);
      NumberedMore(LinePieces(front, target), target, |front|, LineTexts(line, target));
    }
  }

  lemma {:induction false} FlattenParts(runs: seq<seq<Piece>>, i: nat)
    requires i < |runs|
    ensures Flatten(runs) == Flatten(runs[..i]) + runs[i] + Flatten(runs[i + 1..])
  {
    if i == |runs| - 1 {
      assert runs[i + 1..] == [];
    } else {
      FlattenParts(runs[..|runs| - 1], i);
      assert runs[..|runs| - 1][..i] == runs[..i];
      assert runs[..|runs| - 1][i + 1..] == runs[i + 1..][..|runs[i + 1..]| - 1];
    }
  }

  /** Where a run stands in the flattened pieces. */
  lemma RunInPieces(runs: seq<seq<Piece>>, i: nat, k: nat)
    requires i < |runs| && k < |runs[i]|
    ensures |Flatten(runs[..i])| + k < |Flatten(runs)| && Flatten(runs)[|Flatten(runs[..i])| + k] == runs[i][k]
  {
    FlattenParts(runs, i);
  }

  /** Every chunk of lines has at most `target` characters. */
  lemma LineChunksBounded(text: string, target: nat, i: nat)
    requires target >= 1 && i < |LineRuns(text, target)|
    ensures LineRuns(text, target)[i] != [] && |Joined(LineRuns(text, target)[i])| <= target
  {
    var ps := LinePieces(SplitLines(text), target);
    var runs := LineRuns(text, target);
    PackFlattens(ps, target, 1);
    PackWithin(ps, target, 1);
    LinePiecesBounded(SplitLines(text), target);
    JoinedLength(runs[i]);
    BreaksCounted(runs[i]);
    if |runs[i]| == 1 {
      SizeOne(runs[i], 0);
      RunInPieces(runs, i, 0);
    }
  }

  lemma RunsFollow(runs: seq<seq<Piece>>, i: nat)
    requires i < |runs| && runs[i] != []
    requires forall a, b :: 0 <= a <= b < |Flatten(runs)| ==> Flatten(runs)[a].no <= Flatten(runs)[b].no
    ensures runs[i][0].no <= runs[i][|runs[i]| - 1].no
    ensures i + 1 < |runs| && runs[i + 1] != [] ==> runs[i][|runs[i]| - 1].no <= runs[i + 1][0].no
  {
    RunInPieces(runs, i, 0);
    RunInPieces(runs, i, |runs[i]| - 1);
    if i + 1 < |runs| && runs[i + 1] != [] {
      RunInPieces(runs, i + 1, 0);
      assert runs[..i + 1][..i] == runs[..i];
    }
  }

  /** The span of a chunk lies within the lines, and spans follow one another. */
  lemma LineSpansOrdered(text: string, target: nat, i: nat)
    requires target >= 1 && i < |LineRuns(text, target)|
    ensures var runs := LineRuns(text, target);
      && runs[i] != [] && 1 <= runs[i][0].no <= runs[i][|runs[i]| - 1].no <= |SplitLines(text)|
      && (i + 1 < |runs| ==> runs[i + 1] != [] && runs[i][|runs[i]| - 1].no <= runs[i + 1][0].no)
  {
    var runs := LineRuns(text, target);
    PackFlattens(LinePieces(SplitLines(text), target), target, 1);
    LinePiecesBounded(SplitLines(text), target);
    RunInPieces(runs, i, 0);
    RunInPieces(runs, i, |runs[i]| - 1);
    RunsFollow(runs, i);
  }

  lemma {:induction false} InkOfConcat(a: seq<string>, b: seq<string>)
    ensures InkOf(a + b) == InkOf(a) + InkOf(b)
  {
    if a == [] {
      assert a + b == b;
    } else {
      assert (a + b)[1..] == a[1..] + b;
      InkOfConcat(a[1..], b);
    }
  }

  lemma InkAfterBreak(s: string)
    requires s != "" && IsBreak(s[0])
    ensures Ink(s) == Ink(s[BreakLen(s)..])
  {
    if BreakLen(s) == 2 {
      assert s[1..][0] == '\n' && s[1..][1..] == s[2..];
    }
  }

  /** A character put before the first line. */
  function Prefixed(c: char, rest: seq<string>): seq<string> {
    if rest == [] then [[c]] else [[c] + rest[0]] + rest[1..]
  }

  lemma InkOfPrefixed(c: char, rest: seq<string>)
    ensures InkOf(Prefixed(c, rest)) == Ink([c]) + InkOf(rest)
  {
    if rest == [] {
      InkOfOne([c]);
    } else {
      InkConcat([c], rest[0]);
      InkOfHead([c] + rest[0], rest[1..]);
      Assoc(Ink([c]), Ink(rest[0]), InkOf(rest[1..]));
    }
  }

  lemma {:induction false} InkOfLines(s: string)
    ensures InkOf(SplitLines(s)) == Ink(s)
    decreases |s|
  {
    if s != "" {
      if IsBreak(s[0]) {
        InkOfLines(s[BreakLen(s)..]);
        InkAfterBreak(s);
        assert SplitLines(s)[1..] == SplitLines(s[BreakLen(s)..]);
      } else {
        InkOfLines(s[1..]);
        InkOfPrefixed(s[0], SplitLines(s[1..]));
        assert SplitLines(s) == Prefixed(s[0], SplitLines(s[1..]));
        InkConcat([s[0]], s[1..]);
        assert s == [s[0]] + s[1..];
      }
    }
  }

  lemma InkOfLineTexts(line: string, target: nat)
    requires target >= 1
    ensures InkOf(LineTexts(line, target)) == Ink(line)
  {
    SlicesBounded(line, target);
    InkOfOne(line);
  }

  lemma InkOfNumbered(front: seq<Piece>, no: nat, own: seq<string>)
    ensures InkOf(Texts(front + Number(no, own))) == InkOf(Texts(front)) + InkOf(own)
  {
    TextsConcat(front, Number(no, own));
    assert Texts(Number(no, own)) == own;
    InkOfConcat(Texts(front), own);
  }

  lemma InkOfSnoc(front: seq<string>, x: string)
    ensures InkOf(front + [x]) == InkOf(front) + Ink(x)
  {
    InkOfConcat(front, [x]);
    InkOfOne(x);
  }

  lemma InkOfStep(pieces: seq<Piece>, no: nat, own: seq<string>, front: seq<string>, x: string)
    requires InkOf(Texts(pieces)) == InkOf(front) && InkOf(own) == Ink(x)
    ensures InkOf(Texts(pieces + Number(no, own))) == InkOf(front + [x])
  {
    InkOfNumbered(pieces, no, own);
    InkOfSnoc(front, x);
  }

  lemma {:induction false} InkOfPieces(lines: seq<string>, target: nat)
    requires target >= 1
    ensures InkOf(Texts(LinePieces(lines, target))) == InkOf(lines)
  {
    if lines != [] {
      var front, line := lines[..|lines| - 1], lines[|lines| - 1];
      assert lines == front + [line];
      InkOfPieces(front, target);
      InkOfLineTexts(line, target);
      InkOfStep(LinePieces(front, target), |lines|, LineTexts(line, target), front, line);
    }
  }

  function JoinedAll(runs: seq<seq<Piece>>): (ts: seq<string>)
    ensures |ts| == |runs| && forall i :: 0 <= i < |runs| ==> ts[i] == Joined(runs[i])
  {
    if runs == [] then [] else JoinedAll(runs[..|runs| - 1]) + [Joined(runs[|runs| - 1])]
  }

  lemma InkOfBreak(a: string, b: string)
    ensures Ink(a + "\n" + b) == Ink(a) + Ink(b)
  {
    InkConcat(a + "\n", b);
    InkConcat(a, "\n");
    assert Ink("\n") == Ink("\n"[1..]) == "";
  }

  lemma {:induction false} InkOfJoin(ts: seq<string>)
    ensures Ink(JoinLines(ts)) == InkOf(ts)
  {
    if |ts| == 1 {
      InkOfOne(ts[0]);
      assert ts == [ts[0]];
    } else if ts != [] {
      InkOfJoin(ts[1..]);
      InkOfBreak(ts[0], JoinLines(ts[1..]));
    }
  }

  lemma {:induction false} InkOfRuns(runs: seq<seq<Piece>>)
    ensures InkOf(JoinedAll(runs)) == InkOf(Texts(Flatten(runs)))
  {
    if runs != [] {
      var front, run := runs[..|runs| - 1], runs[|runs| - 1];
      InkOfRuns(front);
      InkOfConcat(JoinedAll(front), [Joined(run)]);
      InkOfOne(Joined(run));
      InkOfJoin(Texts(run));
      TextsConcat(Flatten(front), run);
      InkOfConcat(Texts(Flatten(front)), Texts(run));
    }
  }

  /** The ink of the chunks, in order, is the ink of the text. */
  lemma LineChunksLoseNothing(text: string, target: nat)
    requires target >= 1
    ensures InkOf(JoinedAll(LineRuns(text, target))) == Ink(text)
  {
    var ps := LinePieces(SplitLines(text), target);
    PackFlattens(ps, target, 1);
    InkOfRuns(LineRuns(text, target));
    InkOfPieces(SplitLines(text), target);
    InkOfLines(text);
  }

  lemma {:induction false} WholeLines(lines: seq<string>, target: nat)
    requires target >= 1 && forall i :: 0 <= i < |lines| ==> |lines[i]| <= target
    ensures Texts(LinePieces(lines, target)) == lines
  {
    if lines != [] {
      var front, line := lines[..|lines| - 1], lines[|lines| - 1];
      WholeLines(front, target);
      assert LineTexts(line, target) == [line];
      var own := Number(|lines|, [line]);
      TextsConcat(LinePieces(front, target), own);
      assert Texts(own) == [line];
    }
  }

  lemma {:induction false} JoinConcat(a: seq<string>, b: seq<string>)
    requires a != [] && b != []
    ensures JoinLines(a + b) == JoinLines(a) + "\n" + JoinLines(b)
  {
    if |a| == 1 {
      assert (a + b)[1..] == b;
    } else {
      assert (a + b)[1..] == a[1..] + b;
      JoinConcat(a[1..], b);
    }
  }

  lemma {:induction false} JoinRuns(runs: seq<seq<Piece>>)
    requires forall i :: 0 <= i < |runs| ==> runs[i] != []
    ensures JoinLines(JoinedAll(runs)) == JoinLines(Texts(Flatten(runs)))
    ensures runs != [] ==> Flatten(runs) != []
  {
    if runs != [] {
      var front, run := runs[..|runs| - 1], runs[|runs| - 1];
      JoinRuns(front);
      TextsConcat(Flatten(front), run);
      if front == [] {
        assert JoinedAll(runs) == [Joined(run)] && Flatten(front) + run == run;
      } else {
        JoinSnoc(JoinedAll(front), Joined(run));
        JoinConcat(Texts(Flatten(front)), Texts(run));
      }
    }
  }

  /** When no line is longer than the target, joining the chunks gives back the lines. */
  lemma LineChunksRestore(text: string, target: nat)
    requires target >= 1 && forall i :: 0 <= i < |SplitLines(text)| ==> |SplitLines(text)[i]| <= target
    ensures JoinLines(JoinedAll(LineRuns(text, target))) == JoinLines(SplitLines(text))
  {
    var ps := LinePieces(SplitLines(text), target);
    PackFlattens(ps, target, 1);
    JoinRuns(LineRuns(text, target));
    WholeLines(SplitLines(text), target);
  }

  // ---------------------------------------------------------------- chunk_pages

  function PagePieces(pages: seq<Piece>, target: nat): seq<Piece>
    requires target >= 1
  {
    if pages == [] then []
    else
      PagePieces(pages[..|pages| - 1], target)
      + Number(pages[|pages| - 1].no, SliceText(pages[|pages| - 1].text, target))
  }

  function PageRuns(pages: seq<Piece>, target: nat): seq<seq<Piece>>
    requires target >= 1
  {
    Runs(Pack(PagePieces(pages, target), target, 0))
  }

  lemma {:induction false} PagePiecesBounded(pages: seq<Piece>, target: nat)
    requires target >= 1
    ensures forall i :: 0 <= i < |PagePieces(pages, target)| ==> 1 <= |PagePieces(pages, target)[i].text| <= target
  {
    if pages != [] {
      PagePiecesBounded(pages[..|pages| - 1], target);
      var texts := SliceText(pages[|pages| - 1].text, target);
      SlicesBounded(pages[|pages| - 1].text, target);
      assert forall i :: 0 <= i < |texts| ==> texts[i] in texts;
    }
  }

  /** A chunk of pages is never over its target by more than its pieces less one, and so never twice as long. */
  lemma PageChunksBounded(pages: seq<Piece>, target: nat, i: nat)
    requires target >= 1 && i < |PageRuns(pages, target)|
    ensures var run := PageRuns(pages, target)[i];
      && run != [] && |Joined(run)| == Size(run, 0) + |run| - 1
      && |Joined(run)| <= target + |run| - 1 && |Joined(run)| <= 2 * target - 1
  {
    var ps := PagePieces(pages, target);
    var runs := PageRuns(pages, target);
    PackFlattens(ps, target, 0);
    PagePiecesBounded(pages, target);
    PackWithin(ps, target, 0);
    var run := runs[i];
    JoinedLength(run);
    forall k | 0 <= k < |run| ensures 1 <= |run[k].text| <= target {
      RunInPieces(runs, i, k);
    }
    SizePositive(run, 0);
    if |run| == 1 {
      SizeOne(run, 0);
    }
  }

  predicate Fits(run: seq<Piece>, target: nat) {
    run != [] ==> |Joined(run)| <= target
  }

  ghost predicate AllFit(k: Packing, target: nat) {
    (forall i :: 0 <= i < |k.done| ==> Fits(k.done[i], target)) && Fits(k.buf, target)
  }

  /** The loop's test lets this piece join a buffer with which it fits only because the line breaks are not counted. */
  predicate Overlooks(k: Packing, p: Piece, target: nat) {
    0 < Size(k.buf, 0) && Size(k.buf, 0) + |p.text| <= target < Size(k.buf, 0) + |p.text| + |k.buf|
  }

  ghost predicate NeverOverlooks(ps: seq<Piece>, target: nat) {
    ps != [] ==>
      NeverOverlooks(ps[..|ps| - 1], target) && !Overlooks(Pack(ps[..|ps| - 1], target, 0), ps[|ps| - 1], target)
  }

  lemma AddFits(k: Packing, p: Piece, target: nat)
    requires SomeText(k.buf, 0) && |p.text| <= target
    ensures AllFit(Add(k, p, target, 0), target) <==> AllFit(k, target) && !Overlooks(k, p, target)
  {
    SizePositive(k.buf, 0);
    SizeOne([p], 0);
    JoinedLength([p]);
    if k.buf != [] {
      JoinedLength(k.buf);
      JoinedSnoc(k.buf, p);
    }
    if Size(k.buf, 0) > 0 && Size(k.buf, 0) + |p.text| > target {
      CloseFits(k, p, target);
    }
  }

  lemma CloseFits(k: Packing, p: Piece, target: nat)
    requires Fits([p], target)
    ensures AllFit(Packing(k.done + [k.buf], [p]), target) <==> AllFit(k, target)
  {
    var done := k.done + [k.buf];
    assert done[|k.done|] == k.buf;
    assert forall i :: 0 <= i < |k.done| ==> done[i] == k.done[i];
  }

  lemma AddKeepsText(k: Packing, p: Piece, target: nat, extra: nat)
    requires SomeText(k.buf, 0) && p.text != ""
    ensures SomeText(Add(k, p, target, extra).buf, 0)
  {
  }

  lemma {:induction false} PackFits(ps: seq<Piece>, target: nat)
    requires forall i :: 0 <= i < |ps| ==> 1 <= |ps[i].text| <= target
    ensures SomeText(Pack(ps, target, 0).buf, 0)
    ensures AllFit(Pack(ps, target, 0), target) <==> NeverOverlooks(ps, target)
  {
    if ps != [] {
      var n := |ps| - 1;
      PackFits(ps[..n], target);
      AddFits(Pack(ps[..n], target, 0), ps[n], target);
      AddKeepsText(Pack(ps[..n], target, 0), ps[n], target, 0);
    }
  }

  /** Without an overlooked break, counting the breaks makes no difference. */
  lemma SameAdd(k: Packing, p: Piece, target: nat)
    requires SomeText(k.buf, 0) && !Overlooks(k, p, target)
    ensures Add(k, p, target, 0) == Add(k, p, target + 1, 1)
  {
    BreaksCounted(k.buf);
    SizePositive(k.buf, 0);
  }

  lemma CountingAdd(k: Packing, p: Piece, target: nat)
    requires SomeText(k.buf, 0) && |p.text| <= target && AllFit(k, target)
    ensures AllFit(Add(k, p, target + 1, 1), target)
  {
    BreaksCounted(k.buf);
    SizePositive(k.buf, 0);
    SizeOne([p], 0);
    JoinedLength([p]);
    if k.buf != [] {
      JoinedLength(k.buf);
      JoinedSnoc(k.buf, p);
    }
    if Size(k.buf, 1) > 0 && Size(k.buf, 1) + |p.text| + 1 > target + 1 {
      CloseFits(k, p, target);
    }
  }

  lemma {:induction false} CountingPack(ps: seq<Piece>, target: nat)
    requires forall i :: 0 <= i < |ps| ==> 1 <= |ps[i].text| <= target
    ensures AllFit(Pack(ps, target + 1, 1), target) && SomeText(Pack(ps, target + 1, 1).buf, 0)
    ensures NeverOverlooks(ps, target) ==> Pack(ps, target, 0) == Pack(ps, target + 1, 1)
  {
    if ps != [] {
      var n := |ps| - 1;
      CountingPack(ps[..n], target);
      CountingAdd(Pack(ps[..n], target + 1, 1), ps[n], target);
      AddKeepsText(Pack(ps[..n], target + 1, 1), ps[n], target + 1, 1);
      if NeverOverlooks(ps, target) { SameAdd(Pack(ps[..n], target, 0), ps[n], target); }
    }
  }

  ghost predicate RunsAllFit(runs: seq<seq<Piece>>, target: nat) {
    forall i :: 0 <= i < |runs| ==> Fits(runs[i], target)
  }

  lemma RunsFit(k: Packing, target: nat)
    ensures AllFit(k, target) <==> RunsAllFit(Runs(k), target)
  {
    var runs := Runs(k);
    assert forall i :: 0 <= i < |k.done| ==> runs[i] == k.done[i];
    if k.buf != [] { assert runs[|k.done|] == k.buf; }
  }

  /**
   * The bound the documentation of `chunk_pages` gives leaves out the line breaks between pieces. It holds
   * for every chunk exactly when no piece joins a buffer only because of that, and exactly when packing
   * with the breaks counted would give the same runs.
   */
  lemma PageChunksFitExactly(pages: seq<Piece>, target: nat)
    requires target >= 1
    ensures var ps := PagePieces(pages, target); var runs := PageRuns(pages, target);
      && (RunsAllFit(runs, target) <==> NeverOverlooks(ps, target))
      && (NeverOverlooks(ps, target) <==> Pack(ps, target, 0) == Pack(ps, target + 1, 1))
  {
    var ps := PagePieces(pages, target);
    PagePiecesBounded(pages, target);
    PackFits(ps, target);
    CountingPack(ps, target);
    RunsFit(Pack(ps, target, 0), target);
  }

  function Letters(n: nat): (ps: seq<Piece>)
    ensures |ps| == n && forall i :: 0 <= i < n ==> ps[i] == Piece(i, "a")
  {
    if n == 0 then [] else Letters(n - 1) + [Piece(n - 1, "a")]
  }

  lemma {:induction false} LettersPack(n: nat, target: nat)
    requires n <= target && target >= 1
    ensures PagePieces(Letters(n), target) == Letters(n)
    ensures Pack(Letters(n), target, 0) == Packing([], Letters(n)) && Size(Letters(n), 0) == n
  {
    if n != 0 {
      LettersPack(n - 1, target);
      assert Letters(n)[..n - 1] == Letters(n - 1);
      assert LStrip("a") == "a" && Strip("a") == "a" && SliceText("a", target) == ["a"];
      assert Number(n - 1, ["a"]) == [Piece(n - 1, "a")];
    }
  }

  /** That length is reached: as many one-letter pages as the target make one chunk of twice the target less one. */
  lemma PageBoundIsSharp(target: nat)
    requires target >= 1
    ensures PageRuns(Letters(target), target) == [Letters(target)] && |Joined(Letters(target))| == 2 * target - 1
  {
    LettersPack(target, target);
    JoinedLength(Letters(target));
  }

  lemma TextsSnoc(front: seq<Piece>, p: Piece)
    ensures Texts(front + [p]) == Texts(front) + [p.text]
  {
    TextsConcat(front, [p]);
    assert Texts([p]) == [p.text];
  }

  lemma {:induction false} InkOfPages(pages: seq<Piece>, target: nat)
    requires target >= 1
    ensures InkOf(Texts(PagePieces(pages, target))) == InkOf(Texts(pages))
  {
    if pages != [] {
      var front, page := pages[..|pages| - 1], pages[|pages| - 1];
      assert pages == front + [page];
      InkOfPages(front, target);
      SlicesBounded(page.text, target);
      InkOfStep(PagePieces(front, target), page.no, SliceText(page.text, target), Texts(front), page.text);
      TextsSnoc(front, page);
    }
  }

  lemma PageChunksLoseNothing(pages: seq<Piece>, target: nat)
    requires target >= 1
    ensures InkOf(JoinedAll(PageRuns(pages, target))) == InkOf(Texts(pages))
  {
    PackFlattens(PagePieces(pages, target), target, 0);
    InkOfRuns(PageRuns(pages, target));
    InkOfPages(pages, target);
  }

  // ---------------------------------------------------------------- the loops

  method Slice(text: string, size: nat) returns (out: seq<string>)
    requires size >= 1
    ensures out == SliceText(text, size)
  {
    var txt := Strip(text);
    out := [];
    while |txt| > size
      invariant txt != "" ==> !IsSpace(txt[0])
      invariant out + Pieces(txt, size) == SliceText(text, size)
      decreases |txt|
    {
      var cut := CutAt(txt, size);
      var piece, rest := Strip(txt[..cut]), Strip(txt[cut..]);
      Regroup(out, piece, Pieces(rest, size));
      out := out + [piece];
      txt := rest;
    }
    if txt != "" {
      out := out + [txt];
    }
  }

  lemma Regroup(a: seq<string>, x: string, b: seq<string>)
    ensures a + ([x] + b) == (a + [x]) + b
  {
  }

  lemma PackSnoc(ps: seq<Piece>, p: Piece, target: nat, extra: nat)
    ensures Pack(ps + [p], target, extra) == Add(Pack(ps, target, extra), p, target, extra)
  {
    assert (ps + [p])[..|ps|] == ps;
  }

  lemma PackStep(before: seq<Piece>, ps: seq<Piece>, i: nat, target: nat, extra: nat)
    requires i < |ps|
    ensures Pack(before + ps[..i + 1], target, extra) == Add(Pack(before + ps[..i], target, extra), ps[i], target, extra)
  {
    PackSnoc(before + ps[..i], ps[i], target, extra);
    assert before + ps[..i + 1] == (before + ps[..i]) + [ps[i]];
  }

  /** The test and the two ways of the loop body. */
  method AddPiece(k0: Packing, size0: nat, p: Piece, target: nat, extra: nat) returns (k: Packing, size: nat)
    requires size0 == Size(k0.buf, extra)
    ensures k == Add(k0, p, target, extra) && size == Size(k.buf, extra)
  {
    SizeSnoc(k0.buf, p, extra);
    SizeOne([p], extra);
    if size0 > 0 && size0 + |p.text| + extra > target {
      k, size := Packing(k0.done + [k0.buf], [p]), |p.text| + extra;
    } else {
      k, size := k0.(buf := k0.buf + [p]), size0 + |p.text| + extra;
    }
  }

  /** The inner loop both chunkers share, for one line or page. */
  method PackAll(k0: Packing, ps: seq<Piece>, target: nat, extra: nat, ghost before: seq<Piece>) returns (k: Packing)
    requires k0 == Pack(before, target, extra)
    ensures k == Pack(before + ps, target, extra)
  {
    k := k0;
    var size := Size(k.buf, extra);
    assert before + ps[..0] == before;
    for i := 0 to |ps|
      invariant k == Pack(before + ps[..i], target, extra) && size == Size(k.buf, extra)
    {
      PackStep(before, ps, i, target, extra);
      k, size := AddPiece(k, size, ps[i], target, extra);
    }
    assert ps[..|ps|] == ps;
  }

  method LineSlices(line: string, target: nat) returns (texts: seq<string>)
    requires target >= 1
    ensures texts == LineTexts(line, target)
  {
    texts := [line];
    if |line| > target {
      texts := Slice(line, target);
    }
  }

  method PackLines(lines: seq<string>, target: nat) returns (k: Packing)
    requires target >= 1
    ensures k == Pack(LinePieces(lines, target), target, 1)
  {
    k := Packing([], []);
    for i := 0 to |lines|
      invariant k == Pack(LinePieces(lines[..i], target), target, 1)
    {
      var texts := LineSlices(lines[i], target);
      assert lines[..i + 1][..i] == lines[..i];
      k := PackAll(k, Number(i + 1, texts), target, 1, LinePieces(lines[..i], target));
    }
    assert lines[..|lines|] == lines;
  }

  method ChunkLines(text: string, target: nat) returns (chunks: seq<Chunk>)
    requires target >= 1
    ensures forall i :: 0 <= i < |LineRuns(text, target)| ==> LineRuns(text, target)[i] != []
    ensures chunks == ChunksOf(LineRuns(text, target))
  {
    var k := PackLines(SplitLines(text), target);
    PackFlattens(LinePieces(SplitLines(text), target), target, 1);
    chunks := ChunksOf(Runs(k));
  }

  method PackPages(pages: seq<Piece>, target: nat) returns (k: Packing)
    requires target >= 1
    ensures k == Pack(PagePieces(pages, target), target, 0)
  {
    k := Packing([], []);
    for i := 0 to |pages|
      invariant k == Pack(PagePieces(pages[..i], target), target, 0)
    {
      var texts := Slice(pages[i].text, target);
      assert pages[..i + 1][..i] == pages[..i];
      k := PackAll(k, Number(pages[i].no, texts), target, 0, PagePieces(pages[..i], target));
    }
    assert pages[..|pages|] == pages;
  }

  method ChunkPages(pages: seq<Piece>, target: nat) returns (chunks: seq<Chunk>)
    requires target >= 1
    ensures forall i :: 0 <= i < |PageRuns(pages, target)| ==> PageRuns(pages, target)[i] != []
    ensures chunks == ChunksOf(PageRuns(pages, target))
  {
    var k := PackPages(pages, target);
    PackFlattens(PagePieces(pages, target), target, 0);
    chunks := ChunksOf(Runs(k));
  }
}
