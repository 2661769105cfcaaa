/** Optional values, results and sums over sequences, shared by every component. */
module Std {

  datatype Option<+T> = None | Some(value: T)

  datatype Result<+T, +E> = Ok(value: T) | Err(error: E)

  function Last<T>(xs: seq<T>): T
    requires xs != []
  {
    xs[|xs| - 1]
  }

  predicate Contains(s: string, part: string) {
    exists i | 0 <= i <= |s| :: part <= s[i..]
  }

  /** The exact (unbounded) sum of `f` over `xs`. */
  function Sum<T>(xs: seq<T>, f: T -> nat): nat
  {
    if xs == [] then 0 else Sum(xs[..|xs| - 1], f) + f(Last(xs))
  }

  lemma {:induction false} SumConcat<T>(xs: seq<T>, ys: seq<T>, f: T -> nat)
    ensures Sum(xs + ys, f) == Sum(xs, f) + Sum(ys, f)
  {
    if ys == [] {
      assert xs + ys == xs;
    } else {
      var front := ys[..|ys| - 1];
      assert (xs + ys)[..|xs + ys| - 1] == xs + front;
      SumConcat(xs, front, f);
    }
  }

  lemma SumSingle<T>(x: T, f: T -> nat)
    ensures Sum([x], f) == f(x)
  {
    assert [x][..0] == [];
  }

  lemma InTheMiddle<T>(left: seq<T>, x: T, right: seq<T>)
    ensures multiset(left + [x] + right) == multiset(left + right) + multiset{x}
  {
    assert multiset(left + [x] + right) == multiset(left) + multiset([x]) + multiset(right);
    assert multiset(left + right) == multiset(left) + multiset(right);
  }

  /** Where an element of a sequence stands, and what is left without it. */
  lemma Without<T>(x: T, rest: multiset<T>, ys: seq<T>) returns (left: seq<T>, right: seq<T>)
    requires multiset(ys) == rest + multiset{x}
    ensures ys == left + [x] + right && multiset(left + right) == rest
  {
    assert x in multiset(ys);
    var i :| 0 <= i < |ys| && ys[i] == x;
    left, right := ys[..i], ys[i + 1..];
    assert ys == left + [x] + right;
    InTheMiddle(left, x, right);
    assert multiset(left + right) == multiset(ys) - multiset{x};
    assert rest == multiset(ys) - multiset{x};
  }

  /** A sum does not depend on the order of its terms. */
  lemma {:induction false} SumPermutes<T>(xs: seq<T>, ys: seq<T>, f: T -> nat)
    requires multiset(xs) == multiset(ys)
    ensures Sum(xs, f) == Sum(ys, f)
    decreases |xs|
  {
    if xs == [] {
      assert |multiset(ys)| == 0;
    } else {
      var x, front := Last(xs), xs[..|xs| - 1];
      assert xs == front + [x];
      var left, right := Without(x, multiset(front), ys);
      SumPermutes(front, left + right, f);
      SumConcat(left, right, f);
      SumConcat(left + [x], right, f);
      SumConcat(left, [x], f);
      SumSingle(x, f);
    }
  }
}
