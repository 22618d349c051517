/** Sequence helpers: duplicate freedom, the first-occurrence de-duplication that
    stands for Python's `list(set(xs))`, filtering one element out, and counting. */
module Lists {

  /** No element occurs twice. */
  predicate NoDup<T(==)>(xs: seq<T>) {
    forall i, j :: 0 <= i < j < |xs| ==> xs[i] != xs[j]
  }

  /** The distinct elements of `xs`, in order of first occurrence. */
  function Dedup<T(==,!new)>(xs: seq<T>): (r: seq<T>)
    ensures NoDup(r)
    ensures forall x :: x in r <==> x in xs
    ensures |r| <= |xs|
    decreases |xs|
  {
    if |xs| == 0 then []
    else
      var init := xs[..|xs| - 1];
      var last := xs[|xs| - 1];
      assert xs == init + [last];
      var d := Dedup(init);
      if last in d then d else d + [last]
  }

  /** A duplicate-free sequence is its own de-duplication. */
  lemma {:induction false} DedupOfNoDup<T(!new)>(xs: seq<T>)
    requires NoDup(xs)
    ensures Dedup(xs) == xs
    decreases |xs|
  {
    if |xs| > 0 {
      var init := xs[..|xs| - 1];
      assert NoDup(init);
      DedupOfNoDup(init);
      assert xs[|xs| - 1] !in init;
      assert xs == init + [xs[|xs| - 1]];
    }
  }

  /** Appending an element to a sequence: it is kept only if it is new. */
  lemma DedupSnoc<T(!new)>(xs: seq<T>, x: T)
    ensures Dedup(xs + [x]) == if x in xs then Dedup(xs) else Dedup(xs) + [x]
  {
    assert (xs + [x])[..|xs + [x]| - 1] == xs;
  }

  /** `xs` with every occurrence of `y` dropped, order kept. */
  function Without<T(==,!new)>(xs: seq<T>, y: T): (r: seq<T>)
    ensures forall x :: x in r <==> x in xs && x != y
    ensures NoDup(xs) ==> NoDup(r)
    ensures y !in xs ==> r == xs
    decreases |xs|
  {
    if |xs| == 0 then []
    else if xs[0] == y then Without(xs[1..], y)
    else
      assert NoDup(xs) ==> NoDup(xs[1..]) && xs[0] !in xs[1..] by {
        if NoDup(xs) {
          forall k | 0 <= k < |xs[1..]| ensures xs[1..][k] != xs[0] {
            assert xs[1..][k] == xs[k + 1];
          }
        }
      }
      [xs[0]] + Without(xs[1..], y)
  }

  /** Number of occurrences of `x` in `xs`. */
  function Count<T(==)>(xs: seq<T>, x: T): (n: nat)
    ensures n == 0 <==> x !in xs
    ensures n <= |xs|
    decreases |xs|
  {
    if |xs| == 0 then 0
    else (if xs[0] == x then 1 else 0) + Count(xs[1..], x)
  }

  lemma {:induction false} CountAppend<T>(xs: seq<T>, ys: seq<T>, x: T)
    ensures Count(xs + ys, x) == Count(xs, x) + Count(ys, x)
    decreases |xs|
  {
    if |xs| > 0 {
      assert (xs + ys)[1..] == xs[1..] + ys;
      CountAppend(xs[1..], ys, x);
    } else {
      assert xs + ys == ys;
    }
  }

  /** `a` is an initial part of `b`. */
  predicate IsPrefix<T(==)>(a: seq<T>, b: seq<T>) {
    |a| <= |b| && b[..|a|] == a
  }

  /** The elements of `xs` satisfying `p`, in their original order. */
  function Filter<T>(xs: seq<T>, p: T -> bool): (r: seq<T>)
    ensures |r| <= |xs|
    ensures forall i :: 0 <= i < |r| ==> p(r[i])
    decreases |xs|
  {
    if |xs| == 0 then []
    else if p(xs[0]) then [xs[0]] + Filter(xs[1..], p)
    else Filter(xs[1..], p)
  }

  /** An element survives `Filter` exactly when it is in `xs` and satisfies `p`. */
  lemma {:induction false} FilterMembership<T>(xs: seq<T>, p: T -> bool, x: T)
    ensures x in Filter(xs, p) <==> x in xs && p(x)
    decreases |xs|
  {
    if |xs| > 0 {
      FilterMembership(xs[1..], p, x);
      assert x in xs <==> x == xs[0] || x in xs[1..];
    }
  }

  /** `f` applied to every element, order kept. */
  function Map<T, U>(f: T -> U, xs: seq<T>): (r: seq<U>)
    ensures |r| == |xs|
    ensures forall i :: 0 <= i < |xs| ==> r[i] == f(xs[i])
  {
    seq(|xs|, i requires 0 <= i < |xs| => f(xs[i]))
  }

  /** Concatenation regroups freely. */
  lemma AppendAssoc<T>(a: seq<T>, b: seq<T>, c: seq<T>)
    ensures a + (b + c) == (a + b) + c
  {
  }

  lemma MapCons<T, U>(f: T -> U, x: T, xs: seq<T>)
    ensures Map(f, [x] + xs) == [f(x)] + Map(f, xs)
  {
  }
}
