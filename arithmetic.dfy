/**
 * Python's `(i + d) % n`, which both menus use to move a cursor around, with the two facts about
 * multiplication and Euclidean `%` that its contract needs.
 */
module Arithmetic {

  lemma MulSign(q: int, n: int)
    requires n > 0
    ensures q >= 1 ==> q * n >= n
    ensures q <= -1 ==> q * n <= -n
  {
  }

  /** For `a` within one `n` of `[0, n)`, `a % n` adds or subtracts `n` once. */
  lemma ModShift(a: int, n: int, q: int)
    requires n > 0 && -1 <= q <= 1 && q * n <= a < q * n + n
    ensures a % n == a - q * n
  {
    var k := a / n;
    assert a == k * n + a % n;
    MulSign(k - q, n);
    assert (k - q) * n == k * n - q * n;
  }

  /**
   * Python's `(i + d) % n` for a positive `n`: the position `i + d` brought back into
   * `[0, n)`, by adding `n` when it fell below and subtracting `n` when it went past.
   */
  function Wrapped(i: int, d: int, n: int): (r: int)
    requires n > 0
    ensures 0 <= r < n
    ensures 0 <= i + d < n ==> r == i + d
    ensures -n <= i + d < 0 ==> r == i + d + n
    ensures n <= i + d < 2 * n ==> r == i + d - n
  {
    if 0 <= i + d < n then
      ModShift(i + d, n, 0);
      (i + d) % n
    else if -n <= i + d < 0 then
      ModShift(i + d, n, -1);
      (i + d) % n
    else if n <= i + d < 2 * n then
      ModShift(i + d, n, 1);
      (i + d) % n
    else
      (i + d) % n
  }

  /** Moving up from the first card lands on the last one, moving down from the last lands on the first. */
  lemma WrappedAtTheEnds(n: int)
    requires n > 0
    ensures Wrapped(0, -1, n) == n - 1
    ensures Wrapped(n - 1, 1, n) == 0
  {
  }
}
