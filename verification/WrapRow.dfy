/**
 * Wrapping a pane row to terminal columns: `wrapRow` of plugin/hooks/pane.tsx over `cols` of
 * plugin/hooks/band.tsx. A row is a sequence of code points in which the space is the only white space.
 */
module WrapRow {
  import opened Base

  /** What every line of one row shares: the width, the first line's indent and that of the others. */
  datatype Frame = Frame(width: nat, lead: string, cont: string)

  datatype Lines = Lines(out: seq<string>, line: string)

  // ---------------------------------------------------------------- columns

  predicate Wide(n: int) {
    || 0x1100 <= n <= 0x115f || 0x2e80 <= n <= 0xa4cf || 0xac00 <= n <= 0xd7a3 || 0xf900 <= n <= 0xfaff
    || 0xfe30 <= n <= 0xfe4f || 0xff00 <= n <= 0xff60 || 0xffe0 <= n <= 0xffe6 || 0x1f300 <= n <= 0x1faff
    || 0x20000 <= n <= 0x3fffd
  }

  function CharCols(c: char): (n: nat)
    ensures n == 1 || n == 2
    ensures c == ' ' ==> n == 1
  {
    if Wide(c as int) then 2 else 1
  }

  function Cols(s: string): nat {
    if s == "" then 0 else Cols(s[..|s| - 1]) + CharCols(s[|s| - 1])
  }

  lemma {:induction false} ColsConcat(a: string, b: string)
    ensures Cols(a + b) == Cols(a) + Cols(b)
  {
    if b == "" {
      assert a + b == a;
    } else {
      assert (a + b)[..|a + b| - 1] == a + b[..|b| - 1];
      ColsConcat(a, b[..|b| - 1]);
    }
  }

  lemma ColsSnoc(a: string, c: char)
    ensures Cols(a + [c]) == Cols(a) + CharCols(c)
  {
    assert (a + [c])[..|a|] == a;
  }

  // ---------------------------------------------------------------- blanks and words

  predicate Blank(s: string) {
    forall i :: 0 <= i < |s| ==> s[i] == ' '
  }

  function Spaces(n: nat): (s: string)
    ensures |s| == n && Blank(s)
  {
    if n == 0 then "" else Spaces(n - 1) + " "
  }

  lemma {:induction false} BlankCols(s: string)
    requires Blank(s)
    ensures Cols(s) == |s|
  {
    if s != "" {
      BlankCols(s[..|s| - 1]);
    }
  }

  function LeadingSpaces(s: string): nat {
    if s == "" || s[0] != ' ' then 0 else 1 + LeadingSpaces(s[1..])
  }

  function TrimLeft(s: string): (r: string)
    ensures |r| <= |s|
  {
    if s != "" && s[0] == ' ' then TrimLeft(s[1..]) else s
  }

  function TrimRight(s: string): string {
    if s != "" && s[|s| - 1] == ' ' then TrimRight(s[..|s| - 1]) else s
  }

  function Trim(s: string): string {
    TrimRight(TrimLeft(s))
  }

  /** `s.split(' ')`. */
  function Split(s: string): (ws: seq<string>)
    ensures ws != []
  {
    if s == "" then [""]
    else
      var ws := Split(s[..|s| - 1]);
      if s[|s| - 1] == ' ' then ws + [""] else ws[..|ws| - 1] + [ws[|ws| - 1] + [s[|s| - 1]]]
  }

  /** The longest stretches without a space. */
  function Words(s: string): (ws: seq<string>)
    ensures s != "" && s[|s| - 1] != ' ' ==> ws != []
  {
    if s == "" then []
    else
      var front, c := s[..|s| - 1], s[|s| - 1];
      var ws := Words(front);
      if c == ' ' then ws
      else if front != "" && front[|front| - 1] != ' ' then ws[..|ws| - 1] + [ws[|ws| - 1] + [c]]
      else ws + [[c]]
  }

  function NonEmpty(ws: seq<string>): seq<string> {
    if ws == [] then [] else NonEmpty(ws[..|ws| - 1]) + if ws[|ws| - 1] == "" then [] else [ws[|ws| - 1]]
  }

  function Ink(s: string): string {
    if s == "" then "" else Ink(s[..|s| - 1]) + if s[|s| - 1] == ' ' then "" else [s[|s| - 1]]
  }

  function InkOf(rows: seq<string>): string {
    if rows == [] then "" else InkOf(rows[..|rows| - 1]) + Ink(rows[|rows| - 1])
  }

  function WordsOf(rows: seq<string>): seq<string> {
    if rows == [] then [] else WordsOf(rows[..|rows| - 1]) + Words(rows[|rows| - 1])
  }

  // ---------------------------------------------------------------- wrapping

  function FrameOf(row: string, width: nat): Frame {
    var most := if width < 2 then 0 else width - 2;
    var n := LeadingSpaces(row);
    Frame(width, Spaces(if n < most then n else most), Spaces(if n + 2 < most then n + 2 else most))
  }

  function PutChar(f: Frame, s: Lines, c: char): Lines {
    if Cols(s.line) + CharCols(c) > f.width && !Blank(s.line) then Lines(s.out + [s.line], f.cont + [c])
    else Lines(s.out, s.line + [c])
  }

  function PutChars(f: Frame, s: Lines, word: string): Lines {
    if word == "" then s else PutChar(f, PutChars(f, s, word[..|word| - 1]), word[|word| - 1])
  }

  /** Before a word: a new line if it does not fit here, and the space that parts it from the last one. */
  function StartWord(f: Frame, s: Lines, word: string): Lines {
    if Blank(s.line) then s
    else if Cols(s.line) + 1 + Cols(word) > f.width then Lines(s.out + [s.line], f.cont)
    else Lines(s.out, s.line + " ")
  }

  function PutWord(f: Frame, s: Lines, word: string): Lines {
    PutChars(f, StartWord(f, s, word), word)
  }

  function PutWords(f: Frame, words: seq<string>): Lines {
    if words == [] then Lines([], f.lead) else PutWord(f, PutWords(f, words[..|words| - 1]), words[|words| - 1])
  }

  function Wrap(row: string, width: nat): seq<string> {
    if Cols(row) <= width then [row]
    else
      var s := PutWords(FrameOf(row, width), Split(Trim(row)));
      s.out + [s.line]
  }

  ghost predicate Framed(f: Frame) {
    && Blank(f.lead) && Blank(f.cont) && |f.lead| <= |f.cont| <= |f.lead| + 2
    && |f.lead| <= (if f.width < 2 then 0 else f.width - 2) && |f.cont| <= (if f.width < 2 then 0 else f.width - 2)
  }

  // ---------------------------------------------------------------- every row fits

  function Limit(f: Frame): nat {
    if f.width < 2 then 2 else f.width
  }

  ghost predicate Fitting(f: Frame, s: Lines) {
    && (forall i :: 0 <= i < |s.out| ==> Cols(s.out[i]) <= Limit(f)) && Cols(s.line) <= Limit(f)
    && (Blank(s.line) ==> Cols(s.line) + 2 <= Limit(f))
  }

  lemma PutCharFits(f: Frame, s: Lines, c: char)
    requires Framed(f) && Fitting(f, s) && c != ' '
    ensures Fitting(f, PutChar(f, s, c))
  {
    if Cols(s.line) + CharCols(c) > f.width && !Blank(s.line) {
      BreakFits(f, s, c);
    } else {
      StayFits(f, s, c);
    }
  }

  lemma BreakFits(f: Frame, s: Lines, c: char)
    requires Framed(f) && Fitting(f, s) && c != ' '
    ensures Fitting(f, Lines(s.out + [s.line], f.cont + [c]))
  {
    ColsSnoc(f.cont, c);
    BlankCols(f.cont);
    NotBlankAfter(f.cont, c);
  }

  lemma StayFits(f: Frame, s: Lines, c: char)
    requires Fitting(f, s) && c != ' ' && (Cols(s.line) + CharCols(c) <= f.width || Blank(s.line))
    ensures Fitting(f, Lines(s.out, s.line + [c]))
  {
    ColsSnoc(s.line, c);
    NotBlankAfter(s.line, c);
  }

  lemma NotBlankAfter(s: string, c: char)
    requires c != ' '
    ensures !Blank(s + [c])
  {
    assert (s + [c])[|s|] == c;
  }

  ghost predicate Solid(word: string) {
    forall i :: 0 <= i < |word| ==> word[i] != ' '
  }

  lemma {:induction false} PutCharsFit(f: Frame, s: Lines, word: string)
    requires Framed(f) && Fitting(f, s) && Solid(word)
    ensures Fitting(f, PutChars(f, s, word))
  {
    if word != "" {
      PutCharsFit(f, s, word[..|word| - 1]);
      PutCharFits(f, PutChars(f, s, word[..|word| - 1]), word[|word| - 1]);
    }
  }

  lemma StartWordFits(f: Frame, s: Lines, word: string)
    requires Framed(f) && Fitting(f, s)
    ensures Fitting(f, StartWord(f, s, word))
  {
    BlankCols(f.cont);
    ColsSnoc(s.line, ' ');
    if !Blank(s.line) {
      var i :| 0 <= i < |s.line| && s.line[i] != ' ';
      assert (s.line + " ")[i] != ' ';
      InkyCols(s.line);
    }
  }

  lemma InkyCols(s: string)
    requires !Blank(s)
    ensures Cols(s) >= 1
  {
  }

  lemma {:induction false} PutWordsFit(f: Frame, words: seq<string>)
    requires Framed(f) && forall i :: 0 <= i < |words| ==> Solid(words[i])
    ensures Fitting(f, PutWords(f, words))
  {
    if words == [] {
      BlankCols(f.lead);
    } else {
      var before, word := PutWords(f, words[..|words| - 1]), words[|words| - 1];
      PutWordsFit(f, words[..|words| - 1]);
      StartWordFits(f, before, word);
      PutCharsFit(f, StartWord(f, before, word), word);
    }
  }

  lemma {:induction false} SplitSolid(s: string)
    ensures forall i :: 0 <= i < |Split(s)| ==> Solid(Split(s)[i])
  {
    if s != "" {
      SplitSolid(s[..|s| - 1]);
      var ws := Split(s[..|s| - 1]);
      assert Solid(ws[|ws| - 1]);
    }
  }

  /** Every row takes at most `width` columns, or two where the width is less than a wide character needs. */
  lemma RowsFit(row: string, width: nat, i: nat)
    requires i < |Wrap(row, width)|
    ensures Cols(Wrap(row, width)[i]) <= if width < 2 then 2 else width
  {
    if Cols(row) > width {
      SplitSolid(Trim(row));
      PutWordsFit(FrameOf(row, width), Split(Trim(row)));
    }
  }

  // ---------------------------------------------------------------- no character is lost

  lemma {:induction false} InkConcat(a: string, b: string)
    ensures Ink(a + b) == Ink(a) + Ink(b)
  {
    if b == "" {
      assert a + b == a;
    } else {
      assert (a + b)[..|a + b| - 1] == a + b[..|b| - 1];
      InkConcat(a, b[..|b| - 1]);
    }
  }

  lemma InkOne(c: char)
    ensures Ink([c]) == if c == ' ' then "" else [c]
  {
    assert [c][..0] == "";
  }

  lemma {:induction false} BlankInk(s: string)
    requires Blank(s)
    ensures Ink(s) == ""
  {
    if s != "" {
      BlankInk(s[..|s| - 1]);
    }
  }

  function InkIn(s: Lines): string {
    InkOf(s.out) + Ink(s.line)
  }

  lemma InkPushed(out: seq<string>, line: string)
    ensures InkOf(out + [line]) == InkOf(out) + Ink(line)
  {
    assert (out + [line])[..|out|] == out;
  }

  /** A character on the same line, and one on a new line. */
  lemma CharInk(out: seq<string>, line: string, cont: string, c: char)
    requires Blank(cont)
    ensures InkOf(out) + Ink(line + [c]) == (InkOf(out) + Ink(line)) + Ink([c])
    ensures InkOf(out + [line]) + Ink(cont + [c]) == (InkOf(out) + Ink(line)) + Ink([c])
  {
    InkConcat(line, [c]);
    Assoc(InkOf(out), Ink(line), Ink([c]));
    InkConcat(cont, [c]);
    BlankInk(cont);
    InkPushed(out, line);
  }

  lemma {:induction false} PutCharsInk(f: Frame, s: Lines, word: string)
    requires Framed(f)
    ensures InkIn(PutChars(f, s, word)) == InkIn(s) + Ink(word)
  {
    if word != "" {
      var front, c := word[..|word| - 1], word[|word| - 1];
      assert word == front + [c];
      PutCharsInk(f, s, front);
      CharInk(PutChars(f, s, front).out, PutChars(f, s, front).line, f.cont, c);
      InkConcat(front, [c]);
      Assoc(InkIn(s), Ink(front), Ink([c]));
    }
  }

  lemma StartWordInk(f: Frame, s: Lines, word: string)
    requires Framed(f)
    ensures InkIn(StartWord(f, s, word)) == InkIn(s)
  {
    if !Blank(s.line) {
      if Cols(s.line) + 1 + Cols(word) > f.width {
        InkPushed(s.out, s.line);
        BlankInk(f.cont);
      } else {
        InkConcat(s.line, " ");
        InkOne(' ');
      }
    }
  }

  lemma {:induction false} PutWordsInk(f: Frame, words: seq<string>)
    requires Framed(f)
    ensures InkIn(PutWords(f, words)) == InkOf(words)
  {
    if words == [] {
      BlankInk(f.lead);
    } else {
      var before, word := PutWords(f, words[..|words| - 1]), words[|words| - 1];
      PutWordsInk(f, words[..|words| - 1]);
      StartWordInk(f, before, word);
      PutCharsInk(f, StartWord(f, before, word), word);
    }
  }

  lemma {:induction false} SplitInk(s: string)
    ensures InkOf(Split(s)) == Ink(s)
  {
    if s == "" {
      assert [""][..0] == [];
    } else {
      var front, c := s[..|s| - 1], s[|s| - 1];
      var ws := Split(front);
      SplitInk(front);
      if c == ' ' {
        InkPushed(ws, "");
      } else {
        var init, last := ws[..|ws| - 1], ws[|ws| - 1];
        InkPushed(init, last + [c]);
        InkConcat(last, [c]);
        InkOne(c);
      }
    }
  }

  lemma {:induction false} TrimLeftInk(s: string)
    ensures Ink(TrimLeft(s)) == Ink(s)
  {
    if s != "" && s[0] == ' ' {
      TrimLeftInk(s[1..]);
      InkConcat([s[0]], s[1..]);
      InkOne(' ');
      assert s == [s[0]] + s[1..];
    }
  }

  lemma {:induction false} TrimRightInk(s: string)
    ensures Ink(TrimRight(s)) == Ink(s)
  {
    if s != "" && s[|s| - 1] == ' ' {
      TrimRightInk(s[..|s| - 1]);
    }
  }

  /** The characters that are no spaces come out all, once each and in their order. */
  lemma NothingCut(row: string, width: nat)
    ensures InkOf(Wrap(row, width)) == Ink(row)
  {
    if Cols(row) <= width {
      assert [row][..0] == [];
    } else {
      var s := PutWords(FrameOf(row, width), Split(Trim(row)));
      PutWordsInk(FrameOf(row, width), Split(Trim(row)));
      SplitInk(Trim(row));
      TrimLeftInk(row);
      TrimRightInk(TrimLeft(row));
      InkPushed(s.out, s.line);
    }
  }

  // ---------------------------------------------------------------- indents

  predicate StartsWith(s: string, p: string) {
    |p| <= |s| && s[..|p|] == p
  }

  ghost predicate Indented(f: Frame, s: Lines) {
    && (forall i :: 0 < i < |s.out| ==> StartsWith(s.out[i], f.cont))
    && (s.out == [] ==> StartsWith(s.line, f.lead)) && (s.out != [] ==> StartsWith(s.out[0], f.lead) && StartsWith(s.line, f.cont))
  }

  lemma PutCharIndents(f: Frame, s: Lines, c: char)
    requires Indented(f, s)
    ensures Indented(f, PutChar(f, s, c))
  {
  }

  lemma {:induction false} PutCharsIndent(f: Frame, s: Lines, word: string)
    requires Indented(f, s)
    ensures Indented(f, PutChars(f, s, word))
  {
    if word != "" {
      PutCharsIndent(f, s, word[..|word| - 1]);
      PutCharIndents(f, PutChars(f, s, word[..|word| - 1]), word[|word| - 1]);
    }
  }

  lemma {:induction false} PutWordsIndent(f: Frame, words: seq<string>)
    ensures Indented(f, PutWords(f, words))
  {
    if words != [] {
      var before, word := PutWords(f, words[..|words| - 1]), words[|words| - 1];
      PutWordsIndent(f, words[..|words| - 1]);
      PutCharsIndent(f, StartWord(f, before, word), word);
    }
  }

  /** A wrapped row keeps its indent, and every row after the first has two spaces more, as far as the width allows. */
  lemma RowsIndented(row: string, width: nat, i: nat)
    requires Cols(row) > width && i < |Wrap(row, width)|
    ensures StartsWith(Wrap(row, width)[i], if i == 0 then FrameOf(row, width).lead else FrameOf(row, width).cont)
  {
    PutWordsIndent(FrameOf(row, width), Split(Trim(row)));
  }

  // ---------------------------------------------------------------- words stay whole

  function WordsIn(s: Lines): seq<string> {
    WordsOf(s.out) + Words(s.line)
  }

  lemma WordsPushed(out: seq<string>, line: string)
    ensures WordsOf(out + [line]) == WordsOf(out) + Words(line)
  {
    assert (out + [line])[..|out|] == out;
  }

  /** A character after a space starts a word, after another one it lengthens the last. */
  lemma WordsSnoc(line: string, c: char)
    ensures c == ' ' ==> Words(line + [c]) == Words(line)
    ensures c != ' ' && (line == "" || line[|line| - 1] == ' ') ==> Words(line + [c]) == Words(line) + [[c]]
    ensures c != ' ' && line != "" && line[|line| - 1] != ' ' ==>
      Words(line + [c]) == Words(line)[..|Words(line)| - 1] + [Words(line)[|Words(line)| - 1] + [c]]
  {
    assert (line + [c])[..|line|] == line;
  }

  predicate Open(line: string) {
    line == "" || line[|line| - 1] == ' '
  }

  lemma LongerWord(line: string, front: string, c: char)
    requires front != "" && front[|front| - 1] != ' ' && c != ' ' && Words(line + front) == Words(line) + [front]
    ensures Words(line + (front + [c])) == Words(line) + [front + [c]]
  {
    WordsSnoc(line + front, c);
    Assoc(line, front, [c]);
    assert (line + front)[|line + front| - 1] == front[|front| - 1];
  }

  lemma {:induction false} WordsAppend(line: string, word: string)
    requires Open(line) && word != "" && Solid(word)
    ensures Words(line + word) == Words(line) + [word]
  {
    var front, c := word[..|word| - 1], word[|word| - 1];
    assert word == front + [c];
    if front == "" {
      WordsSnoc(line, c);
      assert word == [c];
    } else {
      WordsAppend(line, front);
      LongerWord(line, front, c);
    }
  }

  lemma {:induction false} BlankWords(s: string)
    requires Blank(s)
    ensures Words(s) == []
  {
    if s != "" {
      BlankWords(s[..|s| - 1]);
    }
  }

  lemma NonEmptySnoc(ws: seq<string>, x: string)
    ensures NonEmpty(ws + [x]) == NonEmpty(ws) + if x == "" then [] else [x]
  {
    assert (ws + [x])[..|ws|] == ws;
  }

  lemma {:induction false} SplitWords(s: string)
    ensures NonEmpty(Split(s)) == Words(s)
    ensures Split(s)[|Split(s)| - 1] == "" <==> Open(s)
  {
    if s == "" {
      NonEmptySnoc([], "");
      assert [] + [""] == [""];
    } else {
      var front, c := s[..|s| - 1], s[|s| - 1];
      SplitWords(front);
      assert s == front + [c];
      WordsSnoc(front, c);
      SplitStep(Split(front), c);
    }
  }

  lemma SplitStep(ws: seq<string>, c: char)
    requires ws != []
    ensures NonEmpty(ws + [""]) == NonEmpty(ws)
    ensures var more := ws[..|ws| - 1] + [ws[|ws| - 1] + [c]];
      && (ws[|ws| - 1] == "" ==> NonEmpty(more) == NonEmpty(ws) + [[c]])
      && (ws[|ws| - 1] != "" ==> NonEmpty(ws) != [] && NonEmpty(more) == NonEmpty(ws)[..|NonEmpty(ws)| - 1] + [NonEmpty(ws)[|NonEmpty(ws)| - 1] + [c]])
  {
    var init, last := ws[..|ws| - 1], ws[|ws| - 1];
    assert ws == init + [last];
    NonEmptySnoc(ws, "");
    NonEmptySnoc(init, last);
    NonEmptySnoc(init, last + [c]);
    assert last == "" ==> last + [c] == [c];
  }

  lemma SameGrowth(a: string, b: string, c: char)
    requires Words(a) == Words(b) && (Open(a) <==> Open(b))
    ensures Words(a + [c]) == Words(b + [c])
  {
    WordsSnoc(a, c);
    WordsSnoc(b, c);
  }

  lemma {:induction false} SpaceBefore(s: string)
    ensures Words(" " + s) == Words(s)
  {
    if s == "" {
      WordsSnoc("", ' ');
      assert "" + [' '] == " " + s;
    } else {
      var front, c := s[..|s| - 1], s[|s| - 1];
      SpaceBefore(front);
      SameGrowth(" " + front, front, c);
      assert " " + s == (" " + front) + [c] && s == front + [c];
    }
  }

  lemma {:induction false} TrimLeftWords(s: string)
    ensures Words(TrimLeft(s)) == Words(s)
  {
    if s != "" && s[0] == ' ' {
      TrimLeftWords(s[1..]);
      SpaceBefore(s[1..]);
      assert s == " " + s[1..];
    }
  }

  lemma {:induction false} TrimRightWords(s: string)
    ensures Words(TrimRight(s)) == Words(s)
  {
    if s != "" && s[|s| - 1] == ' ' {
      TrimRightWords(s[..|s| - 1]);
    }
  }

  /** A line ready for a word that either has room for it or holds nothing yet. */
  ghost predicate Ready(f: Frame, s: Lines, word: string) {
    && Open(s.line) && (Cols(s.line) + Cols(word) <= f.width || Blank(s.line))
    && (Blank(s.line) ==> Cols(s.line) + 2 <= f.width)
  }

  ghost predicate Broken(f: Frame, s: Lines, word: string) {
    Cols(s.line) + Cols(word) > f.width
  }

  /** One character more: the first one always goes on the line it finds. */
  lemma FirstChar(f: Frame, s: Lines, c: char, word: string)
    requires Ready(f, s, word) && c != ' ' && CharCols(c) <= Cols(word)
    ensures PutChar(f, s, c) == Lines(s.out, s.line + [c]) && Cols(s.line) + CharCols(c) <= f.width
    ensures WordsIn(PutChar(f, s, c)) == WordsIn(s) + [[c]]
  {
    WordsSnoc(s.line, c);
  }

  lemma LaterChar(f: Frame, s: Lines, c: char)
    requires Framed(f) && c != ' ' && !Open(s.line)
    ensures !Open(PutChar(f, s, c).line)
    ensures |WordsIn(PutChar(f, s, c))| >= |WordsIn(s)|
    ensures Cols(s.line) + CharCols(c) > f.width ==> |WordsIn(PutChar(f, s, c))| == |WordsIn(s)| + 1
    ensures Cols(s.line) + CharCols(c) <= f.width ==> PutChar(f, s, c) == Lines(s.out, s.line + [c])
  {
    WordsSnoc(s.line, c);
    WordsSnoc(f.cont, c);
    BlankWords(f.cont);
    WordsPushed(s.out, s.line);
  }

  lemma NextChar(f: Frame, s: Lines, front: string, c: char, t: Lines)
    requires Framed(f) && c != ' ' && Solid(front) && front != "" && Open(s.line) && !Open(t.line)
    requires !Broken(f, s, front) ==> t == Lines(s.out, s.line + front)
    requires Broken(f, s, front) ==> |WordsIn(t)| >= |WordsIn(s)| + 2
    ensures var u := PutChar(f, t, c);
      && !Open(u.line)
      && (!Broken(f, s, front + [c]) ==> u == Lines(s.out, s.line + (front + [c])))
      && (Broken(f, s, front + [c]) ==> |WordsIn(u)| >= |WordsIn(s)| + 2)
  {
    ColsSnoc(front, c);
    LaterChar(f, t, c);
    if !Broken(f, s, front) {
      ColsConcat(s.line, front);
      WordsAppend(s.line, front);
      Assoc(s.line, front, [c]);
    }
  }

  /** A word that fits is put down whole; one that does not comes out in at least two parts. */
  lemma {:induction false} PutCharsWords(f: Frame, s: Lines, part: string, word: string)
    requires Framed(f) && Solid(part) && part != "" && Ready(f, s, word) && Cols(part) <= Cols(word)
    ensures var t := PutChars(f, s, part);
      && !Open(t.line)
      && (!Broken(f, s, part) ==> t == Lines(s.out, s.line + part))
      && (Broken(f, s, part) ==> |WordsIn(t)| >= |WordsIn(s)| + 2)
  {
    var front, c := part[..|part| - 1], part[|part| - 1];
    assert part == front + [c];
    ColsSnoc(front, c);
    if front == "" {
      FirstChar(f, s, c, word);
      assert part == [c] && PutChars(f, s, front) == s;
    } else {
      PutCharsWords(f, s, front, word);
      NextChar(f, s, front, c, PutChars(f, s, front));
    }
  }

  lemma StartWordWords(f: Frame, s: Lines, word: string)
    requires Framed(f)
    ensures WordsIn(StartWord(f, s, word)) == WordsIn(s)
  {
    BlankWords(f.cont);
    WordsPushed(s.out, s.line);
    WordsSnoc(s.line, ' ');
    assert s.line + [' '] == s.line + " ";
  }

  predicate WordFits(f: Frame, i: nat, word: string) {
    Cols(if i == 0 then f.lead else f.cont) + Cols(word) <= f.width
  }

  ghost predicate AllFit(f: Frame, ws: seq<string>) {
    forall i :: 0 <= i < |ws| ==> WordFits(f, i, ws[i])
  }

  /** After the words `done`: an empty line is the indent, and no word came apart exactly when all fit. */
  ghost predicate Tally(f: Frame, s: Lines, done: seq<string>) {
    && (done == [] ==> s == Lines([], f.lead)) && (done != [] && Blank(s.line) ==> s.line == f.cont)
    && (AllFit(f, done) ==> WordsIn(s) == done) && (!AllFit(f, done) ==> |WordsIn(s)| > |done|)
  }

  lemma {:induction false} ColsAtLeast(s: string)
    ensures Cols(s) >= |s|
  {
    if s != "" {
      ColsAtLeast(s[..|s| - 1]);
    }
  }

  /** A line with something on it is longer than its indent. */
  lemma LongerThanIndent(f: Frame, s: Lines)
    requires Framed(f) && Indented(f, s) && !Blank(s.line)
    ensures Cols(s.line) >= |f.lead| + 1
  {
    var i :| 0 <= i < |s.line| && s.line[i] != ' ';
    assert |s.line| >= |f.lead| + 1;
    ColsAtLeast(s.line);
  }

  lemma SpaceAfter(line: string)
    requires !Blank(line)
    ensures !Blank(line + " ") && Open(line + " ") && Cols(line + " ") == Cols(line) + 1
  {
    var i :| 0 <= i < |line| && line[i] != ' ';
    assert (line + " ")[i] != ' ';
    ColsSnoc(line, ' ');
    assert line + [' '] == line + " ";
  }

  /** Where a word starts tells whether it fits. */
  lemma StartReady(f: Frame, s: Lines, done: seq<string>, word: string)
    requires Framed(f) && f.width >= 2 && Tally(f, s, done) && Indented(f, s)
    ensures Ready(f, StartWord(f, s, word), word)
    ensures Broken(f, StartWord(f, s, word), word) <==> !WordFits(f, |done|, word)
  {
    BlankCols(f.lead);
    BlankCols(f.cont);
    if !Blank(s.line) {
      LongerThanIndent(f, s);
      SpaceAfter(s.line);
    }
  }

  lemma AllFitSnoc(f: Frame, done: seq<string>, word: string)
    ensures AllFit(f, done + [word]) <==> AllFit(f, done) && WordFits(f, |done|, word)
  {
    assert forall i :: 0 <= i < |done| ==> (done + [word])[i] == done[i];
    assert (done + [word])[|done|] == word;
  }

  lemma TallyWord(f: Frame, s: Lines, done: seq<string>, word: string)
    requires Framed(f) && f.width >= 2 && Tally(f, s, done) && Indented(f, s) && Solid(word) && word != ""
    ensures Tally(f, PutWord(f, s, word), done + [word])
  {
    var start := StartWord(f, s, word);
    StartReady(f, s, done, word);
    StartWordWords(f, s, word);
    PutCharsWords(f, start, word, word);
    AllFitSnoc(f, done, word);
    if !Broken(f, start, word) {
      WordsAppend(start.line, word);
      Assoc(WordsOf(start.out), Words(start.line), [word]);
    }
  }

  lemma TallyEmpty(f: Frame, s: Lines, done: seq<string>)
    requires Framed(f) && Tally(f, s, done)
    ensures Tally(f, PutWord(f, s, ""), done)
  {
    StartWordWords(f, s, "");
    BlankInk(f.lead);
    if !Blank(s.line) {
      var i :| 0 <= i < |s.line| && s.line[i] != ' ';
      assert (s.line + " ")[i] != ' ';
    }
  }

  lemma {:induction false} TallyWords(f: Frame, words: seq<string>)
    requires Framed(f) && f.width >= 2 && forall i :: 0 <= i < |words| ==> Solid(words[i])
    ensures Tally(f, PutWords(f, words), NonEmpty(words))
  {
    if words == [] {
      BlankWords(f.lead);
    } else {
      var before, word := PutWords(f, words[..|words| - 1]), words[|words| - 1];
      TallyWords(f, words[..|words| - 1]);
      PutWordsIndent(f, words[..|words| - 1]);
      NonEmptySnoc(words[..|words| - 1], word);
      assert words == words[..|words| - 1] + [word] && NonEmpty(words[..|words| - 1]) + [] == NonEmpty(words[..|words| - 1]);
      if word == "" {
        TallyEmpty(f, before, NonEmpty(words[..|words| - 1]));
      } else {
        TallyWord(f, before, NonEmpty(words[..|words| - 1]), word);
      }
    }
  }

  /**
   * The words of the rows are the words of the row, unbroken and in order, exactly when the first fits
   * beside the indent and each other one beside the indent of a continuation row.
   */
  lemma WordsStayWhole(row: string, width: nat)
    requires width >= 2 && Cols(row) > width
    ensures WordsOf(Wrap(row, width)) == Words(row) <==> AllFit(FrameOf(row, width), Words(row))
  {
    var f := FrameOf(row, width);
    var s := PutWords(f, Split(Trim(row)));
    SplitSolid(Trim(row));
    TallyWords(f, Split(Trim(row)));
    SplitWords(Trim(row));
    TrimLeftWords(row);
    TrimRightWords(TrimLeft(row));
    WordsPushed(s.out, s.line);
  }

  // ---------------------------------------------------------------- the loops

  /** The inner loop: the characters of one word. */
  method PutLoop(f: Frame, out0: seq<string>, line0: string, word: string) returns (out: seq<string>, line: string)
    ensures Lines(out, line) == PutChars(f, Lines(out0, line0), word)
  {
    out, line := out0, line0;
    for k := 0 to |word|
      invariant Lines(out, line) == PutChars(f, Lines(out0, line0), word[..k])
    {
      assert word[..k + 1][..k] == word[..k];
      if Cols(line) + CharCols(word[k]) > f.width && !Blank(line) {
        out, line := out + [line], f.cont;
      }
      line := line + [word[k]];
    }
    assert word[..|word|] == word;
  }

  method WrapRow(row: string, width: nat) returns (out: seq<string>)
    ensures out == Wrap(row, width)
  {
    if Cols(row) <= width { return [row]; }
    var f := FrameOf(row, width);
    var words := Split(Trim(row));
    out := [];
    var line := f.lead;
    for i := 0 to |words|
      invariant Lines(out, line) == PutWords(f, words[..i])
    {
      assert words[..i + 1][..i] == words[..i];
      var word := words[i];
      if !Blank(line) && Cols(line) + 1 + Cols(word) > width {
        out, line := out + [line], f.cont;
      } else if !Blank(line) {
        line := line + " ";
      }
      out, line := PutLoop(f, out, line, word);
    }
    assert words[..|words|] == words;
    out := out + [line];
  }
}
