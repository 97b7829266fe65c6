/**
 * Finding the path a project slug stands for: `_slugify` and `_resolve_slug` of
 * src/apex_router/agents.py, a backtracking inverse of a lossy encoding.
 */
module SlugSearch {
  import opened Base
  import opened Sorting

  const LIST_MAX: nat := 5000
  const DEPTH_MAX: nat := 32

  /** A directory that cannot be listed raises; anything else is a file. */
  datatype Node = Other | Dir(listable: bool, children: seq<Child>)

  datatype Child = Child(name: string, node: Node)

  predicate Alnum(c: char) {
    'A' <= c <= 'Z' || 'a' <= c <= 'z' || '0' <= c <= '9'
  }

  function Slugify(name: string): (s: string)
    ensures |s| == |name|
  {
    if name == "" then "" else [if Alnum(name[0]) then name[0] else '-'] + Slugify(name[1..])
  }

  /** The slug of a path: the slugs of its components, joined by dashes. */
  function SlugOf(path: seq<string>): string {
    if path == [] then "" else if |path| == 1 then Slugify(path[0]) else Slugify(path[0]) + "-" + SlugOf(path[1..])
  }

  function Listed(base: Node): (cs: seq<Child>)
    requires base.Dir?
    ensures |cs| <= |base.children|
  {
    if |base.children| <= LIST_MAX then base.children else base.children[..LIST_MAX]
  }

  predicate Longer(a: Child, b: Child) {
    |a.name| >= |b.name|
  }

  /** The listing, longest slug first, otherwise in its own order. */
  function ByLength(cs: seq<Child>): seq<Child> {
    Sort(cs, Longer)
  }

  predicate StartsWith(s: string, p: string) {
    |p| <= |s| && s[..|p|] == p
  }

  function Resolve(rest: string, base: Node, depth: nat): Option<seq<string>>
    decreases DEPTH_MAX + 1 - depth, 1, 0
  {
    if depth > DEPTH_MAX || base.Other? || !base.listable then None
    else Try(rest, ByLength(Listed(base)), depth)
  }

  /** The loop over the sorted children. */
  function Try(rest: string, cs: seq<Child>, depth: nat): Option<seq<string>>
    requires depth <= DEPTH_MAX
    decreases DEPTH_MAX + 1 - depth, 0, |cs|
  {
    if cs == [] then None
    else
      var n := Slugify(cs[0].name);
      if n == "" then Try(rest, cs[1..], depth)
      else if rest == n then Some([cs[0].name])
      else
        var found := Below(rest, cs[0], depth);
        if found.Some? then Some([cs[0].name] + found.value) else Try(rest, cs[1..], depth)
  }

  /** What the recursive call below one child finds, if there is one. */
  function Below(rest: string, c: Child, depth: nat): Option<seq<string>>
    requires depth <= DEPTH_MAX
    decreases DEPTH_MAX + 1 - depth, 0, 0
  {
    var n := Slugify(c.name);
    if StartsWith(rest, n + "-") && c.node.Dir? then Resolve(rest[|n| + 1..], c.node, depth + 1) else None
  }

  // ---------------------------------------------------------------- paths

  /** A path of listed components below `base`, no deeper than the limit; only its last may be a file. */
  ghost predicate IsPath(base: Node, path: seq<string>, depth: nat)
    decreases |path|
  {
    && path != [] && depth <= DEPTH_MAX && base.Dir? && base.listable
    && exists c :: c in Listed(base) && Through(c, path, depth)
  }

  ghost predicate Through(c: Child, path: seq<string>, depth: nat)
    requires path != []
    decreases |path|, 0
  {
    c.name == path[0] && c.name != "" && (|path| == 1 || (c.node.Dir? && IsPath(c.node, path[1..], depth + 1)))
  }

  // ---------------------------------------------------------------- sound

  lemma SlugJoin(rest: string, name: string, path: seq<string>)
    requires StartsWith(rest, Slugify(name) + "-") && path != [] && SlugOf(path) == rest[|name| + 1..]
    ensures SlugOf([name] + path) == rest
  {
    assert ([name] + path)[1..] == path;
    assert rest == (Slugify(name) + "-") + rest[|name| + 1..];
  }

  lemma {:induction false} TrySound(rest: string, base: Node, cs: seq<Child>, depth: nat)
    requires depth <= DEPTH_MAX && base.Dir? && base.listable && forall c :: c in cs ==> c in Listed(base)
    ensures var r := Try(rest, cs, depth); r.Some? ==> IsPath(base, r.value, depth) && SlugOf(r.value) == rest
    decreases DEPTH_MAX + 1 - depth, 0, |cs|
  {
    if cs != [] {
      var c, n := cs[0], Slugify(cs[0].name);
      assert c in cs && c in Listed(base);
      if n == "" {
        TrySound(rest, base, cs[1..], depth);
      } else if rest == n {
        assert Through(c, [c.name], depth);
      } else {
        var found := Below(rest, c, depth);
        if found.Some? {
          ResolveSound(rest[|n| + 1..], c.node, depth + 1);
          SlugJoin(rest, c.name, found.value);
          assert ([c.name] + found.value)[1..] == found.value;
          assert Through(c, [c.name] + found.value, depth);
        } else {
          TrySound(rest, base, cs[1..], depth);
        }
      }
    }
  }

  /** Any path returned exists, within the limits, and its slug is the one asked for. */
  lemma {:induction false} ResolveSound(rest: string, base: Node, depth: nat)
    ensures var r := Resolve(rest, base, depth); r.Some? ==> IsPath(base, r.value, depth) && SlugOf(r.value) == rest
    decreases DEPTH_MAX + 1 - depth, 1, 0
  {
    if depth <= DEPTH_MAX && base.Dir? && base.listable {
      SortMembers(Listed(base), Longer);
      TrySound(rest, base, ByLength(Listed(base)), depth);
    }
  }

  // ---------------------------------------------------------------- complete

  lemma {:induction false} TryComplete(rest: string, cs: seq<Child>, depth: nat, c: Child, path: seq<string>)
    requires depth <= DEPTH_MAX && c in cs && path != [] && Through(c, path, depth) && SlugOf(path) == rest
    ensures Try(rest, cs, depth).Some?
    decreases |path|, 0, |cs|
  {
    if cs[0] == c {
      BelowComplete(rest, depth, c, path);
    } else {
      TryComplete(rest, cs[1..], depth, c, path);
    }
  }

  lemma {:induction false} BelowComplete(rest: string, depth: nat, c: Child, path: seq<string>)
    requires depth <= DEPTH_MAX && path != [] && Through(c, path, depth) && SlugOf(path) == rest
    ensures rest == Slugify(c.name) || Below(rest, c, depth).Some?
    decreases |path|, 0, 0
  {
    if |path| > 1 {
      var n := Slugify(c.name);
      assert rest == (n + "-") + SlugOf(path[1..]);
      assert rest[..|n| + 1] == n + "-" && rest[|n| + 1..] == SlugOf(path[1..]);
      ResolveComplete(rest[|n| + 1..], c.node, depth + 1, path[1..]);
    }
  }

  /** It finds nothing only when there is no path with that slug within the limits. */
  lemma {:induction false} ResolveComplete(rest: string, base: Node, depth: nat, path: seq<string>)
    requires IsPath(base, path, depth) && SlugOf(path) == rest
    ensures Resolve(rest, base, depth).Some?
    decreases |path|, 1, 0
  {
    var c :| c in Listed(base) && Through(c, path, depth);
    SortMembers(Listed(base), Longer);
    TryComplete(rest, ByLength(Listed(base)), depth, c, path);
  }

  /** The search answers exactly when the slug has a path. */
  lemma ResolveExactly(rest: string, base: Node, depth: nat)
    ensures Resolve(rest, base, depth).Some? <==> exists path :: IsPath(base, path, depth) && SlugOf(path) == rest
  {
    ResolveSound(rest, base, depth);
    if path :| IsPath(base, path, depth) && SlugOf(path) == rest {
      ResolveComplete(rest, base, depth, path);
    }
  }

  /** Decoding undoes encoding where the encoding is not ambiguous. */
  lemma UniquePathFound(base: Node, path: seq<string>)
    requires IsPath(base, path, 0) && forall q :: IsPath(base, q, 0) && SlugOf(q) == SlugOf(path) ==> q == path
    ensures Resolve(SlugOf(path), base, 0) == Some(path)
  {
    ResolveComplete(SlugOf(path), base, 0, path);
    ResolveSound(SlugOf(path), base, 0);
  }

  // ---------------------------------------------------------------- longest first

  /** At the first component in which they differ, `p` has the longer or an equally long name. */
  ghost predicate Prefers(p: seq<string>, q: seq<string>)
    decreases |p|
  {
    p != [] && q != [] ==>
      |p[0]| >= |q[0]| && (p[0] == q[0] ==> Prefers(p[1..], q[1..]))
  }

  /** No directory has two entries of one name. */
  ghost predicate Proper(n: Node) {
    n.Dir? ==>
      && (forall i, j :: 0 <= i < j < |n.children| ==> n.children[i].name != n.children[j].name)
      && forall i :: 0 <= i < |n.children| ==> Proper(n.children[i].node)
  }

  lemma ProperChild(base: Node, a: Child, b: Child)
    requires Proper(base) && base.Dir? && a in Listed(base) && b in Listed(base)
    ensures Proper(a.node) && (a.name == b.name ==> a == b)
  {
    assert a in base.children && b in base.children;
  }

  lemma {:induction false} TryPrefers(rest: string, base: Node, cs: seq<Child>, depth: nat, c: Child, q: seq<string>)
    requires depth <= DEPTH_MAX && base.Dir? && base.listable && Proper(base) && Ordered(cs, Longer)
    requires (forall x :: x in cs ==> x in Listed(base)) && c in cs && q != [] && Through(c, q, depth) && SlugOf(q) == rest
    ensures Try(rest, cs, depth).Some? ==> Prefers(Try(rest, cs, depth).value, q)
    decreases DEPTH_MAX + 1 - depth, 0, |cs|
  {
    var d, n := cs[0], Slugify(cs[0].name);
    assert d in cs && d in Listed(base);
    ProperChild(base, d, c);
    if d == c {
      BelowComplete(rest, depth, c, q);
      BelowPrefers(rest, depth, c, q);
    } else if n != "" && (rest == n || Below(rest, d, depth).Some?) {
      var i :| 0 <= i < |cs| && cs[i] == c;
      assert Longer(cs[0], cs[i]);
    } else {
      TryPrefers(rest, base, cs[1..], depth, c, q);
    }
  }

  lemma {:induction false} BelowPrefers(rest: string, depth: nat, c: Child, q: seq<string>)
    requires depth <= DEPTH_MAX && q != [] && Through(c, q, depth) && SlugOf(q) == rest && Proper(c.node)
    ensures rest == Slugify(c.name) ==> |q| == 1
    ensures rest != Slugify(c.name) && Below(rest, c, depth).Some? ==> Prefers([c.name] + Below(rest, c, depth).value, q)
    decreases DEPTH_MAX + 1 - depth, 0, 0
  {
    var n := Slugify(c.name);
    if |q| > 1 {
      assert rest == (n + "-") + SlugOf(q[1..]);
      assert rest[..|n| + 1] == n + "-" && rest[|n| + 1..] == SlugOf(q[1..]);
      ResolvePrefers(rest[|n| + 1..], c.node, depth + 1, q[1..]);
      if Below(rest, c, depth).Some? {
        assert ([c.name] + Below(rest, c, depth).value)[1..] == Below(rest, c, depth).value;
      }
    }
  }

  /** Of all paths with the slug, the one returned has the longest name at the first component where it differs. */
  lemma {:induction false} ResolvePrefers(rest: string, base: Node, depth: nat, q: seq<string>)
    requires Proper(base) && IsPath(base, q, depth) && SlugOf(q) == rest
    ensures Resolve(rest, base, depth).Some? && Prefers(Resolve(rest, base, depth).value, q)
    decreases DEPTH_MAX + 1 - depth, 1, 0
  {
    ResolveComplete(rest, base, depth, q);
    var c :| c in Listed(base) && Through(c, q, depth);
    SortMembers(Listed(base), Longer);
    SortOrdered(Listed(base), Longer);
    TryPrefers(rest, base, ByLength(Listed(base)), depth, c, q);
  }
}
