/** Small types and facts shared by every part of the model. */
module Common {

  datatype Option<+T> = None | Some(value: T)

  datatype Result<+T, +E> = Ok(value: T) | Err(error: E)

  function Min(a: int, b: int): int { if a <= b then a else b }

  function Max(a: int, b: int): int { if a >= b then a else b }

  function Pow2(n: nat): (r: nat)
    ensures r >= 1
  {
    if n == 0 then 1 else 2 * Pow2(n - 1)
  }

  /** The integers from `a` to `b`, both included. */
  function Interval(a: int, b: int): set<int> { set i | a <= i <= b && Between(a, i, b) }

  predicate Between(a: int, i: int, b: int) { a <= i <= b }

  ghost function Pick<T>(xs: set<T>): (x: T)
    requires xs != {}
    ensures x in xs
  {
    var x :| x in xs; x
  }

  lemma {:induction false} IntervalSize(a: int, b: int)
    requires a <= b + 1
    ensures |Interval(a, b)| == b - a + 1
    decreases b - a + 1
  {
    if a == b + 1 {
      assert Interval(a, b) == {};
    } else {
      IntervalSize(a, b - 1);
      assert Interval(a, b) == Interval(a, b - 1) + {b};
    }
  }

  lemma {:induction false} SubsetSize<T>(a: set<T>, b: set<T>)
    requires a <= b
    ensures |a| <= |b|
  {
    assert b == a + (b - a);
  }

  /** A function maps a finite set onto a set that is no larger. */
  lemma {:induction false} ImageSize<T, U>(domain: set<T>, image: set<U>, f: T -> U)
    requires forall y :: y in image ==> exists x :: x in domain && f(x) == y
    ensures |image| <= |domain|
    decreases |domain|
  {
    if image != {} {
      var y :| y in image;
      var x :| x in domain && f(x) == y;
      var rest := image - {y};
      forall z | z in rest
        ensures exists w :: w in domain - {x} && f(w) == z
      {
        var w :| w in domain && f(w) == z;
        assert w in domain - {x};
      }
      ImageSize(domain - {x}, rest, f);
    }
  }
}
