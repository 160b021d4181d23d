/** Sequences mapped through a function, and what survives reordering them. */
module Sequences {
  function Images<A, B>(f: A --> B, xs: seq<A>): (r: seq<B>)
    requires forall x | x in xs :: f.requires(x)
    ensures |r| == |xs| && forall k | 0 <= k < |xs| :: r[k] == f(xs[k])
  {
    if xs == [] then [] else Images(f, xs[..|xs| - 1]) + [f(xs[|xs| - 1])]
  }

  function Without<A>(xs: seq<A>, k: nat): (r: seq<A>)
    requires k < |xs|
    ensures |r| == |xs| - 1
    ensures forall j | 0 <= j < |r| :: r[j] == xs[if j < k then j else j + 1]
  {
    xs[..k] + xs[k + 1..]
  }

  lemma MultisetWithout<A>(xs: seq<A>, k: nat)
    requires k < |xs|
    ensures multiset(Without(xs, k)) == multiset(xs) - multiset{xs[k]}
    ensures xs[k] in multiset(xs)
  {
    assert xs == xs[..k] + ([xs[k]] + xs[k + 1..]);
  }

  lemma ImagesWithout<A, B>(f: A --> B, xs: seq<A>, k: nat)
    requires k < |xs| && forall x | x in xs :: f.requires(x)
    ensures forall x | x in Without(xs, k) :: f.requires(x)
    ensures Images(f, Without(xs, k)) == Without(Images(f, xs), k)
  {
    hide Images, Without;
    var rest := Without(xs, k);
    forall x | x in rest ensures f.requires(x) {
      var j :| 0 <= j < |rest| && rest[j] == x;
      assert xs[if j < k then j else j + 1] in xs;
    }
    forall j | 0 <= j < |rest| ensures Images(f, rest)[j] == Without(Images(f, xs), k)[j] {
      assert rest[j] == xs[if j < k then j else j + 1];
    }
  }

  /** A permutation of a sequence has a permutation of its images. */
  lemma {:induction false} ImagesPermute<A, B>(f: A --> B, xs: seq<A>, ys: seq<A>)
    requires multiset(xs) == multiset(ys)
    requires (forall x | x in xs :: f.requires(x)) && forall y | y in ys :: f.requires(y)
    ensures multiset(Images(f, xs)) == multiset(Images(f, ys))
  {
    assert |multiset(xs)| == |multiset(ys)|;
    if xs != [] {
      var n := |xs| - 1;
      assert xs[n] in multiset(xs);
      var k :| 0 <= k < |ys| && ys[k] == xs[n];
      MultisetWithout(xs, n);
      MultisetWithout(ys, k);
      ImagesWithout(f, xs, n);
      ImagesWithout(f, ys, k);
      ImagesPermute(f, Without(xs, n), Without(ys, k));
      MultisetWithout(Images(f, xs), n);
      MultisetWithout(Images(f, ys), k);
      SameAfterRemoval(Images(f, xs), n, Images(f, ys), k);
    }
  }

  lemma SameAfterRemoval<A>(xs: seq<A>, n: nat, ys: seq<A>, k: nat)
    requires n < |xs| && k < |ys| && xs[n] == ys[k]
    requires multiset(Without(xs, n)) == multiset(Without(ys, k))
    ensures multiset(xs) == multiset(ys)
  {
    MultisetWithout(xs, n);
    MultisetWithout(ys, k);
    assert multiset(xs) == multiset(Without(xs, n)) + multiset{xs[n]};
    assert multiset(ys) == multiset(Without(ys, k)) + multiset{ys[k]};
  }

  lemma SameElements<A>(xs: seq<A>, ys: seq<A>)
    requires multiset(xs) == multiset(ys)
    ensures forall x :: x in xs <==> x in ys
  {
    forall x ensures x in xs <==> x in ys {
      assert x in xs <==> x in multiset(xs);
      assert x in ys <==> x in multiset(ys);
    }
  }
}
