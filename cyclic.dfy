/**
  Stepping through a ring of `n` positions. The project carousel pages with
  `(prev + 1) % totalPages` and `(prev - 1 + totalPages) % totalPages`, and the
  image gallery does the same with the image count of the open project; both
  use the two steps defined here.
*/
module Cyclic {

  /** `(i + 1) % n`: one step forward, wrapping the last position to 0. */
  function Next(i: nat, n: nat): (r: nat)
    requires n > 0
    ensures r < n
    ensures i < n ==> r == if i == n - 1 then 0 else i + 1
  {
    (i + 1) % n
  }

  /** `(i - 1 + n) % n`: one step back, wrapping position 0 to the last one.
      For `i >= 0` the dividend is never negative, so JavaScript's truncating
      `%` and Dafny's Euclidean `%` agree. */
  function Prev(i: nat, n: nat): (r: nat)
    requires n > 0
    ensures r < n
    ensures i < n ==> r == if i == 0 then n - 1 else i - 1
  {
    (i - 1 + n) % n
  }

  /** A step back undoes a step forward. */
  lemma PrevAfterNext(i: nat, n: nat)
    requires i < n
    ensures Prev(Next(i, n), n) == i
  {
  }

  /** A step forward undoes a step back. */
  lemma NextAfterPrev(i: nat, n: nat)
    requires i < n
    ensures Next(Prev(i, n), n) == i
  {
  }

  /** `k` forward steps from `i`. */
  function Forward(i: nat, n: nat, k: nat): (r: nat)
    requires n > 0
    ensures r < n || (k == 0 && r == i)
  {
    if k == 0 then i else Next(Forward(i, n, k - 1), n)
  }

  /** While no wrap happens, `k` forward steps add `k`. */
  lemma {:induction false} ForwardWithoutWrap(i: nat, n: nat, k: nat)
    requires i + k < n
    ensures Forward(i, n, k) == i + k
  {
    if k > 0 {
      ForwardWithoutWrap(i, n, k - 1);
    }
  }

  /** Forward steps compose: `a` steps then `b` steps are `a + b` steps. */
  lemma {:induction false} ForwardAdd(i: nat, n: nat, a: nat, b: nat)
    requires i < n
    ensures Forward(i, n, a + b) == Forward(Forward(i, n, a), n, b)
  {
    if b > 0 {
      ForwardAdd(i, n, a, b - 1);
    }
  }

  /** `n` forward steps go once round the ring and come back to the start. */
  lemma FullCycle(i: nat, n: nat)
    requires i < n
    ensures Forward(i, n, n) == i
  {
    ForwardWithoutWrap(i, n, n - 1 - i);
    assert Forward(i, n, n - i) == 0;
    ForwardAdd(i, n, n - i, i);
    ForwardWithoutWrap(0, n, i);
  }
}
