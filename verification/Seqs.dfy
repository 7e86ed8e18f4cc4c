/** Facts about sequences alone. */
module Seqs {
  /** What holds of every element holds of those before and of those from a position on. */
  lemma SplitForall<T>(xs: seq<T>, n: nat, p: T -> bool)
    requires n <= |xs|
    ensures (forall x | x in xs :: p(x)) <==> (forall x | x in xs[..n] :: p(x)) && (forall x | x in xs[n..] :: p(x))
  {
    assert xs == xs[..n] + xs[n..];
  }

  lemma InLast<T>(xs: seq<T>)
    requires xs != []
    ensures forall x :: x in xs <==> x in xs[..|xs| - 1] || x == xs[|xs| - 1]
  {
    assert xs == xs[..|xs| - 1] + [xs[|xs| - 1]];
  }

  /** How often an element occurs. */
  function Occ<T(==)>(xs: seq<T>, x: T): nat {
    if xs == [] then 0 else (if xs[0] == x then 1 else 0) + Occ(xs[1..], x)
  }

  lemma {:induction false} OccMore<T>(a: seq<T>, b: seq<T>, x: T)
    ensures Occ(a + b, x) == Occ(a, x) + Occ(b, x)
  {
    if a == [] {
      assert a + b == b;
    } else {
      OccMore(a[1..], b, x);
      assert (a + b)[1..] == a[1..] + b;
    }
  }

  lemma {:induction false} OccIsCount<T>(xs: seq<T>, x: T)
    ensures Occ(xs, x) == multiset(xs)[x]
  {
    if xs != [] {
      OccIsCount(xs[1..], x);
      assert xs == [xs[0]] + xs[1..];
    }
  }

  /** The total over the elements. */
  function Total<T>(xs: seq<T>, f: T -> nat): nat {
    if xs == [] then 0 else f(xs[0]) + Total(xs[1..], f)
  }

  lemma {:induction false} TotalMore<T>(a: seq<T>, b: seq<T>, f: T -> nat)
    ensures Total(a + b, f) == Total(a, f) + Total(b, f)
  {
    if a == [] {
      assert a + b == b;
    } else {
      TotalMore(a[1..], b, f);
      assert (a + b)[1..] == a[1..] + b;
    }
  }

  lemma {:induction false} TotalZero<T>(xs: seq<T>, f: T -> nat)
    ensures Total(xs, f) == 0 <==> forall x | x in xs :: f(x) == 0
  {
    if xs != [] {
      TotalZero(xs[1..], f);
      assert xs == [xs[0]] + xs[1..];
    }
  }
}
