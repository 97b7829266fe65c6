/** A stable insertion sort standing for Python's `sorted`, and the order of strings by code point. */
module Sorting {
  import opened Base

  ghost predicate TotalOrder<T(!new)>(le: (T, T) -> bool) {
    && (forall x, y :: le(x, y) || le(y, x))
    && (forall x, y, z :: le(x, y) && le(y, z) ==> le(x, z))
  }

  ghost predicate Ordered<T>(xs: seq<T>, le: (T, T) -> bool) {
    forall i, j :: 0 <= i < j < |xs| ==> le(xs[i], xs[j])
  }

  /** `x` goes behind every element it does not precede. */
  function Insert<T>(ys: seq<T>, x: T, le: (T, T) -> bool): seq<T> {
    if ys == [] then [x]
    else if le(ys[|ys| - 1], x) then ys + [x]
    else Insert(ys[..|ys| - 1], x, le) + [ys[|ys| - 1]]
  }

  function Sort<T>(xs: seq<T>, le: (T, T) -> bool): seq<T> {
    if xs == [] then [] else Insert(Sort(xs[..|xs| - 1], le), xs[|xs| - 1], le)
  }

  lemma {:induction false} InsertPermutes<T>(ys: seq<T>, x: T, le: (T, T) -> bool)
    ensures multiset(Insert(ys, x, le)) == multiset(ys) + multiset{x}
    ensures |Insert(ys, x, le)| == |ys| + 1
  {
    if ys != [] {
      assert ys == ys[..|ys| - 1] + [ys[|ys| - 1]];
      if !le(ys[|ys| - 1], x) {
        InsertPermutes(ys[..|ys| - 1], x, le);
      }
    }
  }

  lemma {:induction false} SortPermutes<T>(xs: seq<T>, le: (T, T) -> bool)
    ensures multiset(Sort(xs, le)) == multiset(xs)
    ensures |Sort(xs, le)| == |xs|
  {
    if xs != [] {
      assert xs == xs[..|xs| - 1] + [xs[|xs| - 1]];
      SortPermutes(xs[..|xs| - 1], le);
      InsertPermutes(Sort(xs[..|xs| - 1], le), xs[|xs| - 1], le);
    }
  }

  lemma SortMembers<T>(xs: seq<T>, le: (T, T) -> bool)
    ensures forall x :: x in Sort(xs, le) <==> x in xs
  {
    SortPermutes(xs, le);
    forall x ensures x in Sort(xs, le) <==> x in xs {
      assert x in Sort(xs, le) <==> x in multiset(Sort(xs, le));
      assert x in xs <==> x in multiset(xs);
    }
  }

  lemma {:induction false} InsertOrdered<T(!new)>(ys: seq<T>, x: T, le: (T, T) -> bool)
    requires TotalOrder(le) && Ordered(ys, le)
    ensures Ordered(Insert(ys, x, le), le)
    ensures forall y :: y in Insert(ys, x, le) <==> y in ys || y == x
  {
    if ys != [] && !le(ys[|ys| - 1], x) {
      var n := |ys| - 1;
      InsertOrdered(ys[..n], x, le);
      var zs := Insert(ys[..n], x, le);
      assert forall y :: y in ys <==> y in ys[..n] || y == ys[n];
      forall i, j | 0 <= i < j < |zs + [ys[n]]| ensures le((zs + [ys[n]])[i], (zs + [ys[n]])[j]) {
        if j == |zs| {
          assert zs[i] in zs;
        }
      }
    } else if ys != [] {
      assert forall y :: y in ys + [x] <==> y in ys || y == x;
      forall i | 0 <= i < |ys| ensures le(ys[i], x) {
        assert i == |ys| - 1 || le(ys[i], ys[|ys| - 1]);
      }
    }
  }

  lemma {:induction false} SortOrdered<T(!new)>(xs: seq<T>, le: (T, T) -> bool)
    requires TotalOrder(le)
    ensures Ordered(Sort(xs, le), le)
  {
    if xs != [] {
      SortOrdered(xs[..|xs| - 1], le);
      InsertOrdered(Sort(xs[..|xs| - 1], le), xs[|xs| - 1], le);
    }
  }

  lemma SameHead<T(!new)>(xs: seq<T>, ys: seq<T>, le: (T, T) -> bool)
    requires forall x, y :: le(x, y) && le(y, x) ==> x == y
    requires Ordered(xs, le) && Ordered(ys, le) && xs != [] && ys != [] && ys[0] in xs && xs[0] in ys
    ensures xs[0] == ys[0]
  {
    var i :| 0 <= i < |ys| && ys[i] == xs[0];
    var j :| 0 <= j < |xs| && xs[j] == ys[0];
    if i != 0 && j != 0 {
      assert le(ys[0], ys[i]) && le(xs[0], xs[j]);
    }
  }

  lemma TailMultiset<T>(xs: seq<T>)
    requires xs != []
    ensures multiset(xs[1..]) == multiset(xs) - multiset{xs[0]}
  {
    assert xs == [xs[0]] + xs[1..];
  }

  /** Under an antisymmetric order there is one ordered arrangement of a multiset. */
  lemma {:induction false} OrderedUnique<T(!new)>(xs: seq<T>, ys: seq<T>, le: (T, T) -> bool)
    requires forall x, y :: le(x, y) && le(y, x) ==> x == y
    requires Ordered(xs, le) && Ordered(ys, le) && multiset(xs) == multiset(ys)
    ensures xs == ys
  {
    assert |xs| == |multiset(xs)| == |ys|;
    if xs != [] {
      assert xs[0] in multiset(ys) && ys[0] in multiset(xs);
      SameHead(xs, ys, le);
      TailMultiset(xs);
      TailMultiset(ys);
      OrderedUnique(xs[1..], ys[1..], le);
      assert xs == [xs[0]] + xs[1..] && ys == [ys[0]] + ys[1..];
    }
  }

  // ---------------------------------------------------------------- strings by code point

  predicate StrLe(a: string, b: string) {
    a == "" || (b != "" && (a[0] < b[0] || (a[0] == b[0] && StrLe(a[1..], b[1..]))))
  }

  lemma StrTotal(a: string, b: string)
    ensures StrLe(a, b) || StrLe(b, a)
  {
  }

  lemma {:induction false} StrTransitive(a: string, b: string, c: string)
    requires StrLe(a, b) && StrLe(b, c)
    ensures StrLe(a, c)
  {
    if a != "" && b != "" && c != "" && a[0] == b[0] == c[0] {
      StrTransitive(a[1..], b[1..], c[1..]);
    }
  }

  lemma {:induction false} StrAntisymmetric(a: string, b: string)
    requires StrLe(a, b) && StrLe(b, a)
    ensures a == b
  {
    if a != "" && b != "" {
      StrAntisymmetric(a[1..], b[1..]);
      assert a == [a[0]] + a[1..] && b == [b[0]] + b[1..];
    }
  }

  lemma StrOrder()
    ensures TotalOrder(StrLe)
    ensures forall x, y :: StrLe(x, y) && StrLe(y, x) ==> x == y
  {
    forall x, y ensures StrLe(x, y) || StrLe(y, x) { StrTotal(x, y); }
    forall x, y, z | StrLe(x, y) && StrLe(y, z) ensures StrLe(x, z) { StrTransitive(x, y, z); }
    forall x, y | StrLe(x, y) && StrLe(y, x) ensures x == y { StrAntisymmetric(x, y); }
  }

  function SortStrings(xs: seq<string>): seq<string> {
    Sort(xs, StrLe)
  }

  lemma {:induction false} InsertNoDup(ys: seq<string>, x: string)
    requires NoDup(ys) && x !in ys
    ensures NoDup(Insert(ys, x, StrLe)) && forall y :: y in Insert(ys, x, StrLe) <==> y in ys || y == x
  {
    if ys != [] && !StrLe(ys[|ys| - 1], x) {
      var n := |ys| - 1;
      InsertNoDup(ys[..n], x);
      var zs := Insert(ys[..n], x, StrLe);
      assert ys == ys[..n] + [ys[n]];
      assert ys[n] !in ys[..n];
      NoDupConcat(zs, [ys[n]]);
    }
  }

  lemma {:induction false} SortNoDup(xs: seq<string>)
    requires NoDup(xs)
    ensures NoDup(SortStrings(xs)) && forall x :: x in SortStrings(xs) <==> x in xs
  {
    if xs != [] {
      var n := |xs| - 1;
      SortNoDup(xs[..n]);
      InsertNoDup(SortStrings(xs[..n]), xs[n]);
    }
  }

  /** Sorting forgets the order its input came in. */
  lemma SortOfPermutation(xs: seq<string>, ys: seq<string>)
    requires multiset(xs) == multiset(ys)
    ensures SortStrings(xs) == SortStrings(ys)
  {
    StrOrder();
    SortOrdered(xs, StrLe);
    SortOrdered(ys, StrLe);
    SortPermutes(xs, StrLe);
    SortPermutes(ys, StrLe);
    OrderedUnique(SortStrings(xs), SortStrings(ys), StrLe);
  }
}
