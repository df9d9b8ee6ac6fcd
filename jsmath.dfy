/** The JavaScript arithmetic the components rely on, written out over unbounded integers. */
module JsMath {

  /** JavaScript's `a % n` for a positive divisor: the remainder truncated toward zero,
      so it takes the sign of `a` (Dafny's own `%` is Euclidean and never negative). */
  function JsRem(a: int, n: int): (r: int)
    requires n > 0
    ensures a >= 0 ==> 0 <= r < n && r == a % n
    ensures a < 0 ==> -n < r <= 0 && r == -((-a) % n)
  {
    if a >= 0 then a % n else -((-a) % n)
  }

  /** The index after `i` in a cyclic list of `n` entries: `(i + 1) % n`. */
  function CyclicNext(i: int, n: int): (r: int)
    requires n > 0
    ensures -1 <= i < n ==> 0 <= r < n
    ensures -1 <= i < n - 1 ==> r == i + 1
    ensures i == n - 1 ==> r == 0
  {
    JsRem(i + 1, n)
  }

  /** The index before `i` in a cyclic list of `n` entries: `(i - 1 + n) % n`. */
  function CyclicPrev(i: int, n: int): (r: int)
    requires n > 0
    ensures 0 <= i < n ==> 0 <= r < n
    ensures 0 < i < n ==> r == i - 1
    ensures i == 0 ==> r == n - 1
  {
    JsRem(i - 1 + n, n)
  }

  /** Stepping back after stepping forward returns to the same index, and the other way round. */
  lemma PrevNextInverse(i: int, n: int)
    requires 0 <= i < n
    ensures CyclicPrev(CyclicNext(i, n), n) == i
    ensures CyclicNext(CyclicPrev(i, n), n) == i
  {
  }
}
