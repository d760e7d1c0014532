/**
  Folds over sequences: sums, counts and the removal of every occurrence of a value.
  These are the array `reduce`, `countDocuments`, `filter` and `$pull` of the system,
  stated once and reused by every module.
*/
module Sequences {
  import opened Wrappers

  /** The sum of `f` over the elements of `xs`, folding from the left as `reduce` does. */
  function Sum<T>(xs: seq<T>, f: T -> int): int
    decreases |xs|
  {
    if |xs| == 0 then 0 else Sum(xs[..|xs| - 1], f) + f(xs[|xs| - 1])
  }

  /** The positions of `xs` whose element satisfies `p`. */
  function Positions<T>(xs: seq<T>, p: T -> bool): set<nat>
  {
    set i: nat | i < |xs| && p(xs[i])
  }

  /** The number of elements of `xs` that satisfy `p`. */
  function Count<T>(xs: seq<T>, p: T -> bool): (n: nat)
    ensures n == |Positions(xs, p)|
    decreases |xs|
  {
    if |xs| == 0 then
      assert Positions(xs, p) == {};
      0
    else
      var m := |xs| - 1;
      var k := Count(xs[..m], p);
      assert m !in Positions(xs[..m], p);
      assert Positions(xs, p) == Positions(xs[..m], p) + (if p(xs[m]) then {m} else {});
      k + (if p(xs[m]) then 1 else 0)
  }

  /** The position of the first element of `xs` that satisfies `p`, the one `updateOne` picks. */
  function FirstWhere<T>(xs: seq<T>, p: T -> bool): (r: Option<nat>)
    ensures r.Some? ==> r.value < |xs| && p(xs[r.value])
    ensures r.Some? ==> forall j :: 0 <= j < r.value ==> !p(xs[j])
    ensures r.None? <==> forall j :: 0 <= j < |xs| ==> !p(xs[j])
    decreases |xs|
  {
    if |xs| == 0 then None
    else if p(xs[0]) then Some(0)
    else
      assert forall j :: 1 <= j < |xs| ==> xs[j] == xs[1..][j - 1];
      match FirstWhere(xs[1..], p)
      case None => None
      case Some(k) => Some(k + 1)
  }

  /** `xs` with every occurrence of `x` removed, the others kept in order. */
  function Without<T(==,!new)>(xs: seq<T>, x: T): (r: seq<T>)
    ensures x !in r
    ensures forall y :: y != x ==> multiset(r)[y] == multiset(xs)[y]
    ensures |r| <= |xs|
    decreases |xs|
  {
    if |xs| == 0 then []
    else
      var rest := Without(xs[1..], x);
      assert xs == [xs[0]] + xs[1..];
      if xs[0] == x then rest else [xs[0]] + rest
  }

  lemma {:induction false} SumAppend<T>(xs: seq<T>, ys: seq<T>, f: T -> int)
    ensures Sum(xs + ys, f) == Sum(xs, f) + Sum(ys, f)
    decreases |ys|
  {
    if |ys| == 0 {
      assert xs + ys == xs;
    } else {
      var n := |ys| - 1;
      assert (xs + ys)[..|xs + ys| - 1] == xs + ys[..n];
      SumAppend(xs, ys[..n], f);
    }
  }

  /** Appending one element adds exactly its own value once. */
  lemma SumSnoc<T>(xs: seq<T>, x: T, f: T -> int)
    ensures Sum(xs + [x], f) == Sum(xs, f) + f(x)
  {
    assert (xs + [x])[..|xs|] == xs;
  }

  /** Taking out the element at `i` takes out exactly its value. */
  lemma SumRemove<T>(xs: seq<T>, i: nat, f: T -> int)
    requires i < |xs|
    ensures Sum(xs, f) == Sum(xs[..i] + xs[i + 1..], f) + f(xs[i])
  {
    var front, back := xs[..i], xs[i + 1..];
    assert xs[..i + 1] == front + [xs[i]];
    assert xs == xs[..i + 1] + back;
    SumAppend(xs[..i + 1], back, f);
    SumSnoc(front, xs[i], f);
    SumAppend(front, back, f);
  }

  /** Replacing the element at `i` replaces exactly its value. */
  lemma SumReplace<T>(xs: seq<T>, i: nat, y: T, f: T -> int)
    requires i < |xs|
    ensures Sum(xs[i := y], f) == Sum(xs, f) - f(xs[i]) + f(y)
  {
    var ys := xs[i := y];
    SumRemove(xs, i, f);
    SumRemove(ys, i, f);
    assert ys[..i] + ys[i + 1..] == xs[..i] + xs[i + 1..];
  }

  /** A sum does not depend on the order in which the elements are visited. */
  lemma {:induction false} SumPermutation<T>(xs: seq<T>, ys: seq<T>, f: T -> int)
    requires multiset(xs) == multiset(ys)
    ensures Sum(xs, f) == Sum(ys, f)
    decreases |xs|
  {
    if |xs| == 0 {
      assert |ys| == |multiset(ys)| == 0;
    } else {
      var n := |xs| - 1;
      var x := xs[n];
      assert xs == xs[..n] + [x];
      assert x in multiset(ys);
      var i :| 0 <= i < |ys| && ys[i] == x;
      assert ys == ys[..i] + [x] + ys[i + 1..];
      var rest := ys[..i] + ys[i + 1..];
      assert multiset(xs) == multiset(xs[..n]) + multiset{x};
      assert multiset(ys) == multiset(ys[..i]) + multiset{x} + multiset(ys[i + 1..]);
      assert multiset(rest) == multiset(ys[..i]) + multiset(ys[i + 1..]);
      assert multiset(xs[..n]) == multiset(xs) - multiset{x};
      assert multiset(rest) == multiset(ys) - multiset{x};
      SumPermutation(xs[..n], rest, f);
      SumRemove(ys, i, f);
    }
  }

  /** A sum whose every term is zero is zero. */
  lemma {:induction false} SumOfZeros<T>(xs: seq<T>, f: T -> int)
    requires forall i :: 0 <= i < |xs| ==> f(xs[i]) == 0
    ensures Sum(xs, f) == 0
    decreases |xs|
  {
    if |xs| > 0 {
      SumOfZeros(xs[..|xs| - 1], f);
    }
  }

  /** Appending one element counts it once if it satisfies `p`, and not at all otherwise. */
  lemma CountSnoc<T>(xs: seq<T>, x: T, p: T -> bool)
    ensures Count(xs + [x], p) == Count(xs, p) + (if p(x) then 1 else 0)
  {
    assert (xs + [x])[..|xs|] == xs;
  }

  /** Replacing one counted element by an uncounted one lowers the count by exactly one. */
  lemma CountReplace<T>(xs: seq<T>, i: nat, y: T, p: T -> bool)
    requires i < |xs| && p(xs[i]) && !p(y)
    ensures Count(xs[i := y], p) == Count(xs, p) - 1
  {
    assert Positions(xs[i := y], p) == Positions(xs, p) - {i};
  }

  /** Replacing one uncounted element by a counted one raises the count by exactly one. */
  lemma CountReplaceUp<T>(xs: seq<T>, i: nat, y: T, p: T -> bool)
    requires i < |xs| && !p(xs[i]) && p(y)
    ensures Count(xs[i := y], p) == Count(xs, p) + 1
  {
    assert Positions(xs[i := y], p) == Positions(xs, p) + {i};
  }

  /** Counting by a stronger condition never gives more. */
  lemma CountMonotone<T>(xs: seq<T>, p: T -> bool, q: T -> bool)
    requires forall x :: p(x) ==> q(x)
    ensures Count(xs, p) <= Count(xs, q)
  {
    assert Positions(xs, p) <= Positions(xs, q);
  }

  /** Removing occurrences distributes over concatenation, so the survivors keep their order. */
  lemma {:induction false} WithoutAppend<T(!new)>(xs: seq<T>, ys: seq<T>, x: T)
    ensures Without(xs + ys, x) == Without(xs, x) + Without(ys, x)
    decreases |xs|
  {
    if |xs| == 0 {
      assert xs + ys == ys;
    } else {
      assert (xs + ys)[1..] == xs[1..] + ys;
      assert (xs + ys)[0] == xs[0];
      WithoutAppend(xs[1..], ys, x);
    }
  }

  /** A value left after the removal was there before, and is not the removed one. */
  lemma WithoutSubset<T(!new)>(xs: seq<T>, x: T, y: T)
    requires y in Without(xs, x)
    ensures y in xs && y != x
  {
    assert multiset(Without(xs, x))[y] > 0;
  }

  /** Removing a value that does not occur changes nothing. */
  lemma {:induction false} WithoutAbsent<T(!new)>(xs: seq<T>, x: T)
    requires x !in xs
    ensures Without(xs, x) == xs
    decreases |xs|
  {
    if |xs| > 0 {
      assert xs == [xs[0]] + xs[1..];
      WithoutAbsent(xs[1..], x);
    }
  }
}
