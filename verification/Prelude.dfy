/** Small shared vocabulary: optional values, raising computations, and facts about finite sets. */
module Prelude {

  datatype Option<+T> = None | Some(value: T)

  /** The outcome of code that may raise: `Raised` stands for Python's ValueError. */
  datatype Result<+T> = Ok(value: T) | Raised {
    predicate IsFailure() {
      Raised?
    }

    function PropagateFailure<U>(): Result<U>
      requires Raised?
    {
      Raised
    }

    function Extract(): T
      requires Ok?
    {
      value
    }
  }

  function Max(a: int, b: int): int {
    if a >= b then a else b
  }

  function Min(a: int, b: int): int {
    if a <= b then a else b
  }

  /** Some element of a non-empty set. */
  ghost function Pick<T>(s: set<T>): (x: T)
    requires s != {}
    ensures x in s
  {
    var x :| x in s;
    x
  }

  lemma {:induction false} SubsetSize<T>(a: set<T>, b: set<T>)
    requires a <= b
    ensures |a| <= |b| && |b - a| == |b| - |a|
    ensures |a| == |b| ==> a == b
  {
    assert b == a + (b - a);
    assert |b| == |a| + |b - a|;
    if |a| == |b| {
      assert b - a == {};
    }
  }

  /** The integers of a half-open interval, with their number. */
  function Interval(lo: nat, hi: nat): (s: set<nat>)
    ensures lo <= hi ==> |s| == hi - lo
    ensures forall i: nat :: i in s <==> lo <= i < hi
    decreases hi - lo
  {
    if lo >= hi then {} else
      var rest := Interval(lo, hi - 1);
      assert hi - 1 !in rest;
      rest + {hi - 1}
  }
}
