/** Python's notions of white space and line breaks, on strings of code points. */
module Text {

  /** `str.isspace` of one character. */
  predicate IsSpace(c: char) {
    var n := c as int;
    || 0x09 <= n <= 0x0d || 0x1c <= n <= 0x20 || n == 0x85 || n == 0xa0 || n == 0x1680
    || 0x2000 <= n <= 0x200a || n == 0x2028 || n == 0x2029 || n == 0x202f || n == 0x205f || n == 0x3000
  }

  /** The characters `str.splitlines` breaks at. */
  predicate IsBreak(c: char) {
    var n := c as int;
    0x0a <= n <= 0x0d || 0x1c <= n <= 0x1e || n == 0x85 || n == 0x2028 || n == 0x2029
  }

  /** A carriage return and the line feed after it are one break. */
  function BreakLen(s: string): (n: nat)
    requires s != ""
    ensures 1 <= n <= |s|
  {
    if 2 <= |s| && s[0] == '\r' && s[1] == '\n' then 2 else 1
  }

  function SplitLines(s: string): seq<string>
    decreases |s|
  {
    if s == "" then []
    else if IsBreak(s[0]) then [""] + SplitLines(s[BreakLen(s)..])
    else
      var rest := SplitLines(s[1..]);
      if rest == [] then [[s[0]]] else [[s[0]] + rest[0]] + rest[1..]
  }

  function JoinLines(lines: seq<string>): string {
    if lines == [] then "" else if |lines| == 1 then lines[0] else lines[0] + "\n" + JoinLines(lines[1..])
  }

  function RStrip(s: string): (r: string)
    ensures r <= s
    ensures r != "" ==> !IsSpace(r[|r| - 1])
    ensures s != "" && !IsSpace(s[|s| - 1]) ==> r == s
  {
    if s == "" then "" else if IsSpace(s[|s| - 1]) then RStrip(s[..|s| - 1]) else s
  }

  ghost predicate Unbroken(s: string) {
    forall i :: 0 <= i < |s| ==> !IsBreak(s[i])
  }

  ghost predicate OnlyLineFeeds(s: string) {
    forall i :: 0 <= i < |s| && IsBreak(s[i]) ==> s[i] == '\n'
  }

  lemma {:induction false} LinesUnbroken(s: string)
    ensures forall i :: 0 <= i < |SplitLines(s)| ==> Unbroken(SplitLines(s)[i])
    decreases |s|
  {
    if s != "" {
      if IsBreak(s[0]) {
        LinesUnbroken(s[BreakLen(s)..]);
      } else {
        LinesUnbroken(s[1..]);
        var rest := SplitLines(s[1..]);
        assert rest != [] ==> Unbroken(rest[0]);
      }
    }
  }

  lemma {:induction false} JoinHasLineFeeds(lines: seq<string>)
    requires forall i :: 0 <= i < |lines| ==> Unbroken(lines[i])
    ensures OnlyLineFeeds(JoinLines(lines))
  {
    if |lines| > 1 {
      JoinHasLineFeeds(lines[1..]);
      assert Unbroken(lines[0]);
    }
  }

  lemma {:induction false} SplitEnded(y: string)
    requires OnlyLineFeeds(y)
    ensures SplitLines(y + "\n") != [] && JoinLines(SplitLines(y + "\n")) == y
    decreases |y|
  {
    var s := y + "\n";
    if y == "" {
      assert s == "\n" && s[1..] == "";
      assert SplitLines(s) == [""] + SplitLines("") == [""];
    } else {
      assert s[0] == y[0] && s[1..] == y[1..] + "\n";
      SplitEnded(y[1..]);
      var rest := SplitLines(s[1..]);
      if IsBreak(y[0]) {
        assert y[0] == '\n';
        assert SplitLines(s) == [""] + rest;
        assert ([""] + rest)[1..] == rest;
        assert JoinLines([""] + rest) == "" + "\n" + JoinLines(rest) == y;
      } else {
        var head := [y[0]] + rest[0];
        assert SplitLines(s) == [head] + rest[1..];
        JoinHead(rest, y[0]);
        assert y == [y[0]] + y[1..];
      }
    }
  }

  lemma JoinHead(rest: seq<string>, c: char)
    requires rest != []
    ensures JoinLines([[c] + rest[0]] + rest[1..]) == [c] + JoinLines(rest)
  {
    assert ([[c] + rest[0]] + rest[1..])[1..] == rest[1..];
  }

  // ---------------------------------------------------------------- the white space at the end

  /** Without its blank last lines, and the line before them without its trailing white space. */
  function StripTail(lines: seq<string>): seq<string> {
    if lines == [] then []
    else
      var front, last := lines[..|lines| - 1], RStrip(lines[|lines| - 1]);
      if last == "" then StripTail(front) else front + [last]
  }

  lemma {:induction false} JoinSnoc(lines: seq<string>, x: string)
    requires lines != []
    ensures JoinLines(lines + [x]) == JoinLines(lines) + "\n" + x
  {
    if |lines| == 1 {
      assert (lines + [x])[1..] == [x];
    } else {
      assert (lines + [x])[1..] == lines[1..] + [x];
      JoinSnoc(lines[1..], x);
    }
  }

  lemma {:induction false} RStripConcat(a: string, x: string)
    ensures RStrip(a + x) == if RStrip(x) == "" then RStrip(a) else a + RStrip(x)
  {
    if x == "" {
      assert a + x == a;
    } else {
      assert (a + x)[..|a + x| - 1] == a + x[..|x| - 1];
      if IsSpace(x[|x| - 1]) {
        RStripConcat(a, x[..|x| - 1]);
      }
    }
  }

  lemma RStripLine(a: string, x: string)
    ensures RStrip(a + "\n" + x) == if RStrip(x) == "" then RStrip(a) else a + "\n" + RStrip(x)
  {
    RStripConcat(a + "\n", x);
    RStripConcat(a, "\n");
    assert RStrip("\n") == RStrip("\n"[..0]) == "";
  }

  lemma {:induction false} RStripJoin(lines: seq<string>)
    ensures RStrip(JoinLines(lines)) == JoinLines(StripTail(lines))
  {
    if lines != [] {
      RStripJoin(lines[..|lines| - 1]);
      assert lines == lines[..|lines| - 1] + [lines[|lines| - 1]];
      RStripJoinSnoc(lines[..|lines| - 1], lines[|lines| - 1]);
    }
  }

  lemma RStripJoinSnoc(front: seq<string>, last: string)
    requires RStrip(JoinLines(front)) == JoinLines(StripTail(front))
    ensures RStrip(JoinLines(front + [last])) == JoinLines(StripTail(front + [last]))
  {
    assert (front + [last])[..|front|] == front;
    if front == [] {
      assert front + [last] == [last] && front + [RStrip(last)] == [RStrip(last)];
    } else {
      JoinSnoc(front, last);
      RStripLine(JoinLines(front), last);
      if RStrip(last) != "" {
        JoinSnoc(front, RStrip(last));
      }
    }
  }

  lemma {:induction false} SplitOne(x: string, rest: string)
    requires Unbroken(x)
    ensures SplitLines(x + "\n" + rest) == [x] + SplitLines(rest)
  {
    var s := x + "\n" + rest;
    if x == "" {
      assert s[0] == '\n' && s[1..] == rest;
    } else {
      assert s[0] == x[0] && s[1..] == x[1..] + "\n" + rest;
      SplitOne(x[1..], rest);
      assert SplitLines(s[1..])[1..] == SplitLines(rest);
      assert [x[0]] + x[1..] == x;
    }
  }

  /** Joining lines and splitting them again gives them back. */
  lemma {:induction false} SplitJoined(lines: seq<string>)
    requires lines != [] && forall i :: 0 <= i < |lines| ==> Unbroken(lines[i])
    ensures SplitLines(JoinLines(lines) + "\n") == lines
  {
    assert Unbroken(lines[0]);
    if |lines| == 1 {
      SplitOne(lines[0], "");
      assert lines[0] + "\n" + "" == lines[0] + "\n";
      assert [lines[0]] + [] == lines;
    } else {
      SplitJoined(lines[1..]);
      SplitOne(lines[0], JoinLines(lines[1..]) + "\n");
      assert JoinLines(lines) + "\n" == lines[0] + "\n" + (JoinLines(lines[1..]) + "\n");
      assert [lines[0]] + lines[1..] == lines;
    }
  }

  lemma {:induction false} StripTailUnbroken(lines: seq<string>)
    requires forall i :: 0 <= i < |lines| ==> Unbroken(lines[i])
    ensures forall i :: 0 <= i < |StripTail(lines)| ==> Unbroken(StripTail(lines)[i])
  {
    if lines != [] {
      StripTailUnbroken(lines[..|lines| - 1]);
      assert Unbroken(lines[|lines| - 1]);
    }
  }

  // ---------------------------------------------------------------- stripping both ends

  function LStrip(s: string): (r: string)
    ensures |r| <= |s| && (r != "" ==> !IsSpace(r[0]))
  {
    if s != "" && IsSpace(s[0]) then LStrip(s[1..]) else s
  }

  function Strip(s: string): (r: string)
    ensures |r| <= |s| && (r != "" ==> !IsSpace(r[0]) && !IsSpace(r[|r| - 1]))
  {
    RStrip(LStrip(s))
  }

  /** The characters that are no white space, in order. */
  function Ink(s: string): string {
    if s == "" then "" else (if IsSpace(s[0]) then "" else [s[0]]) + Ink(s[1..])
  }

  lemma {:induction false} InkConcat(a: string, b: string)
    ensures Ink(a + b) == Ink(a) + Ink(b)
  {
    if a == "" {
      assert a + b == b;
    } else {
      assert (a + b)[1..] == a[1..] + b;
      InkConcat(a[1..], b);
    }
  }

  lemma {:induction false} InkLStrip(s: string)
    ensures Ink(LStrip(s)) == Ink(s)
  {
    if s != "" && IsSpace(s[0]) {
      InkLStrip(s[1..]);
    }
  }

  lemma {:induction false} InkRStrip(s: string)
    ensures Ink(RStrip(s)) == Ink(s)
  {
    if s != "" && IsSpace(s[|s| - 1]) {
      InkRStrip(s[..|s| - 1]);
      InkConcat(s[..|s| - 1], [s[|s| - 1]]);
      assert s == s[..|s| - 1] + [s[|s| - 1]];
      assert Ink([s[|s| - 1]]) == "" by { assert [s[|s| - 1]][1..] == ""; }
    }
  }

  lemma InkStrip(s: string)
    ensures Ink(Strip(s)) == Ink(s)
  {
    InkLStrip(s);
    InkRStrip(LStrip(s));
  }

  /** A blank at neither end survives, so a text that starts with ink keeps its first character. */
  lemma {:induction false} RStripKeepsHead(s: string)
    requires s != "" && !IsSpace(s[0])
    ensures RStrip(s) != ""
  {
    if IsSpace(s[|s| - 1]) {
      RStripKeepsHead(s[..|s| - 1]);
    }
  }
}
