/** Failure-aware results and sums over finite sets of identifiers. */
module Basics {

  datatype Option<+T> = None | Some(value: T)

  datatype Result<+T, +E> = Success(value: T) | Failure(error: E) {
    predicate IsFailure() {
      Failure?
    }

    function PropagateFailure<U>(): Result<U, E>
      requires Failure?
    {
      Failure(error)
    }

    function Extract(): T
      requires Success?
    {
      value
    }
  }

  function Abs(x: real): real {
    if x < 0.0 then -x else x
  }

  ghost predicate NoDuplicates<T>(xs: seq<T>) {
    forall i, j :: 0 <= i < j < |xs| ==> xs[i] != xs[j]
  }

  /** The sum of v over ids; SumSplit says that the order of summation is immaterial. */
  ghost function SumOver(ids: set<nat>, v: map<nat, real>): real
    requires ids <= v.Keys
    decreases |ids|
  {
    if ids == {} then 0.0 else
      var x :| x in ids;
      v[x] + SumOver(ids - {x}, v)
  }

  lemma {:induction false} SumSplit(ids: set<nat>, v: map<nat, real>, x: nat)
    requires ids <= v.Keys && x in ids
    ensures SumOver(ids, v) == v[x] + SumOver(ids - {x}, v)
    decreases |ids|
  {
    var y :| y in ids && SumOver(ids, v) == v[y] + SumOver(ids - {y}, v);
    if x != y {
      SumSplit(ids - {y}, v, x);
      SumSplit(ids - {x}, v, y);
      assert ids - {y} - {x} == ids - {x} - {y};
    }
  }

  lemma {:induction false} SumAgree(ids: set<nat>, v: map<nat, real>, w: map<nat, real>)
    requires ids <= v.Keys && ids <= w.Keys
    requires forall x :: x in ids ==> v[x] == w[x]
    ensures SumOver(ids, v) == SumOver(ids, w)
    decreases |ids|
  {
    if ids != {} {
      var x :| x in ids;
      SumSplit(ids, v, x);
      SumSplit(ids, w, x);
      SumAgree(ids - {x}, v, w);
    }
  }

  lemma ProductBound(f: real, p: real, q: real, l: real)
    requires 0.0 <= f <= q && 0.0 <= p <= l
    ensures 0.0 <= f * p <= q * l
  {
    assert f * p <= q * p;
    assert q * p <= q * l;
  }
}
