module Numbers {
  function Min(a: int, b: int): int {
    if a < b then a else b
  }

  function Max(a: int, b: int): int {
    if a < b then b else a
  }

  /** `q` is the whole part of `a / b`. */
  predicate Whole(q: int, a: int, b: int) {
    b * q <= a < b * (q + 1)
  }

  lemma WholeIsQuotient(a: int, b: int)
    requires b > 0
    ensures Whole(a / b, a, b)
  {
  }

  lemma {:induction false} ProductGrows(b: nat, x: int, y: int)
    requires x <= y
    ensures b * x <= b * y
    decreases y - x
  {
    if x < y {
      ProductGrows(b, x, y - 1);
      assert b * y == b * (y - 1) + b;
    }
  }

  /** There is one whole part, and it grows with what is divided. */
  lemma WholeGrows(q: int, a: int, q': int, a': int, b: int)
    requires b > 0 && Whole(q, a, b) && Whole(q', a', b) && a <= a'
    ensures q <= q'
  {
    if q' + 1 <= q {
      ProductGrows(b, q' + 1, q);
    }
  }

  lemma OneWhole(q: int, q': int, a: int, b: int)
    requires b > 0 && Whole(q, a, b) && Whole(q', a, b)
    ensures q == q'
  {
    WholeGrows(q, a, q', a, b);
    WholeGrows(q', a, q, a, b);
  }
}
