/** Folds over the elements of a multiset: adding a number up, and replacing every
    element by a multiset of others. */
module Tally {

  /** Some element. */
  ghost function Pick<A>(m: multiset<A>): (e: A)
    requires m != multiset{}
    ensures e in m
  {
    var e :| e in m;
    e
  }

  ghost function Total<A>(m: multiset<A>, weight: A -> nat): nat
    decreases |m|
  {
    if m == multiset{} then 0
    else weight(Pick(m)) + Total(m - multiset{Pick(m)}, weight)
  }

  /** The order in which the elements are taken does not matter. */
  lemma {:induction false} TotalOfOneMore<A>(m: multiset<A>, e: A, weight: A -> nat)
    ensures Total(m + multiset{e}, weight) == Total(m, weight) + weight(e)
    decreases |m|
  {
    var all := m + multiset{e};
    var x := Pick(all);
    if x == e {
      assert all - multiset{x} == m;
    } else {
      var rest := m - multiset{x};
      assert m == rest + multiset{x};
      assert all - multiset{x} == rest + multiset{e};
      TotalOfOneMore(rest, e, weight);
      TotalOfOneMore(rest, x, weight);
    }
  }

  lemma TotalOfOneLess<A>(m: multiset<A>, e: A, weight: A -> nat)
    requires e in m
    ensures Total(m, weight) == Total(m - multiset{e}, weight) + weight(e)
  {
    TotalOfOneMore(m - multiset{e}, e, weight);
    assert m - multiset{e} + multiset{e} == m;
  }

  lemma {:induction false} TotalOfUnion<A>(m: multiset<A>, n: multiset<A>, weight: A -> nat)
    ensures Total(m + n, weight) == Total(m, weight) + Total(n, weight)
    decreases |n|
  {
    if n == multiset{} {
      assert m + n == m;
    } else {
      var e := Pick(n);
      TotalOfUnion(m, n - multiset{e}, weight);
      TotalOfOneLess(n, e, weight);
      TotalOfOneMore(m + (n - multiset{e}), e, weight);
      assert m + (n - multiset{e}) + multiset{e} == m + n;
    }
  }

  lemma {:induction false} TotalIsZero<A>(m: multiset<A>, weight: A -> nat)
    ensures Total(m, weight) == 0 <==> forall e | e in m :: weight(e) == 0
    decreases |m|
  {
    if m != multiset{} {
      var e := Pick(m);
      TotalIsZero(m - multiset{e}, weight);
      assert forall x | x in m :: x == e || x in m - multiset{e};
    }
  }

  lemma {:induction false} TotalOfSum<A>(m: multiset<A>, first: A -> nat, second: A -> nat, sum: A -> nat)
    requires forall e | e in m :: first(e) + second(e) == sum(e)
    ensures Total(m, first) + Total(m, second) == Total(m, sum)
    decreases |m|
  {
    if m != multiset{} {
      TotalOfSum(m - multiset{Pick(m)}, first, second, sum);
    }
  }

  /** Every element replaced by what `image` makes of it. */
  ghost function Replaced<A>(m: multiset<A>, image: A -> multiset<A>): multiset<A>
    decreases |m|
  {
    if m == multiset{} then multiset{}
    else image(Pick(m)) + Replaced(m - multiset{Pick(m)}, image)
  }

  lemma {:induction false} ReplacedOfOneMore<A>(m: multiset<A>, e: A, image: A -> multiset<A>)
    ensures Replaced(m + multiset{e}, image) == Replaced(m, image) + image(e)
    decreases |m|
  {
    var all := m + multiset{e};
    var x := Pick(all);
    if x == e {
      assert all - multiset{x} == m;
    } else {
      var rest := m - multiset{x};
      assert m == rest + multiset{x};
      assert all - multiset{x} == rest + multiset{e};
      ReplacedOfOneMore(rest, e, image);
      ReplacedOfOneMore(rest, x, image);
    }
  }

  lemma ReplacedOfOneLess<A>(m: multiset<A>, e: A, image: A -> multiset<A>)
    requires e in m
    ensures Replaced(m, image) == Replaced(m - multiset{e}, image) + image(e)
  {
    ReplacedOfOneMore(m - multiset{e}, e, image);
    assert m - multiset{e} + multiset{e} == m;
  }

  lemma {:induction false} ReplacedOfUnion<A>(m: multiset<A>, n: multiset<A>, image: A -> multiset<A>)
    ensures Replaced(m + n, image) == Replaced(m, image) + Replaced(n, image)
    decreases |n|
  {
    if n == multiset{} {
      assert m + n == m;
    } else {
      var e := Pick(n);
      ReplacedOfUnion(m, n - multiset{e}, image);
      ReplacedOfOneLess(n, e, image);
      ReplacedOfOneMore(m + (n - multiset{e}), e, image);
      assert m + (n - multiset{e}) + multiset{e} == m + n;
    }
  }

  lemma {:induction false} ReplacedBySelf<A>(m: multiset<A>, image: A -> multiset<A>)
    requires forall e | e in m :: image(e) == multiset{e}
    ensures Replaced(m, image) == m
    decreases |m|
  {
    if m != multiset{} {
      var e := Pick(m);
      ReplacedBySelf(m - multiset{e}, image);
      ReplacedOfOneLess(m, e, image);
    }
  }

  /** Weighing what the elements are replaced by: if each image weighs what a second
      weight assigns its element, so does the whole. */
  lemma {:induction false} TotalOfReplaced<A>(m: multiset<A>, image: A -> multiset<A>, weight: A -> nat, weightOfImage: A -> nat)
    requires forall e | e in m :: Total(image(e), weight) == weightOfImage(e)
    ensures Total(Replaced(m, image), weight) == Total(m, weightOfImage)
    decreases |m|
  {
    if m != multiset{} {
      var e := Pick(m);
      TotalOfReplaced(m - multiset{e}, image, weight, weightOfImage);
      ReplacedOfOneLess(m, e, image);
      TotalOfUnion(Replaced(m - multiset{e}, image), image(e), weight);
      TotalOfOneLess(m, e, weightOfImage);
    }
  }
}
