/** Small vocabulary shared by the other modules: options, results and facts about sequences. */
module Base {

  datatype Option<+T> = None | Some(value: T)

  datatype Result<+T, +E> = Ok(value: T) | Err(error: E)

  ghost predicate NoDup<T>(xs: seq<T>) {
    forall i, j :: 0 <= i < j < |xs| ==> xs[i] != xs[j]
  }

  lemma NoDupConcat<T>(xs: seq<T>, ys: seq<T>)
    requires NoDup(xs) && NoDup(ys) && forall y :: y in ys ==> y !in xs
    ensures NoDup(xs + ys)
  {
    forall i, j | 0 <= i < j < |xs + ys| ensures (xs + ys)[i] != (xs + ys)[j] {
      if i < |xs| <= j {
        assert ys[j - |xs|] in ys && xs[i] in xs;
      }
    }
  }

  lemma SlicePrefix<T>(xs: seq<T>, ys: seq<T>, i: nat, j: nat)
    requires i <= j <= |xs| <= |ys| && ys[..|xs|] == xs
    ensures ys[i..j] == xs[i..j]
  {
    forall k | 0 <= k < j - i ensures ys[i..j][k] == xs[i..j][k] {
      assert ys[i + k] == ys[..|xs|][i + k];
    }
  }

  lemma Assoc<T>(a: seq<T>, b: seq<T>, c: seq<T>)
    ensures (a + b) + c == a + (b + c)
  {
  }

  function Flat<T>(xs: seq<seq<T>>): seq<T> {
    if xs == [] then [] else xs[0] + Flat(xs[1..])
  }

  lemma {:induction false} FlatConcat<T>(xs: seq<seq<T>>, ys: seq<seq<T>>)
    ensures Flat(xs + ys) == Flat(xs) + Flat(ys)
  {
    if xs == [] {
      assert xs + ys == ys;
    } else {
      FlatConcat(xs[1..], ys);
      assert (xs + ys)[1..] == xs[1..] + ys && (xs + ys)[0] == xs[0];
      Assoc(xs[0], Flat(xs[1..]), Flat(ys));
    }
  }

  lemma FlatTake<T>(xs: seq<seq<T>>, k: nat)
    requires k < |xs|
    ensures multiset(Flat(xs)) == multiset(Flat(xs[..k] + xs[k + 1..])) + multiset(xs[k])
  {
    var a, b := xs[..k], xs[k + 1..];
    FlatConcat(a, xs[k..]);
    FlatConcat(a, b);
    assert xs == a + xs[k..] && xs[k..][1..] == b;
    assert Flat(xs[k..]) == xs[k] + Flat(b);
  }
}
