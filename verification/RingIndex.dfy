/**
 Arithmetic of ring positions. The code keeps only positions modulo the ring
 size; the proofs number the operations by unbounded tickets, and these lemmas
 say when the position identifies the ticket. Positions are defined without the
 modulus, which the solver handles badly, and proved equal to it.
 */
module RingIndex {
  import opened Remainders

  /** The position of ticket `k` in a ring of `n` slots. */
  function At(n: nat, k: nat): (i: nat)
    requires n > 0
    ensures i < n
  {
    if k < n then k else At(n, k - n)
  }

  /** The position after `i`; the code writes `(i + 1) % max_size_`. */
  function Succ(n: nat, i: nat): (j: nat)
    requires i < n
    ensures j < n
  {
    if i + 1 == n then 0 else i + 1
  }

  lemma {:induction false} AtIsMod(n: nat, k: nat)
    requires n > 0
    ensures At(n, k) == k % n
  {
    if k < n {
      ModUnique(n, k, 0, k);
    } else {
      AtIsMod(n, k - n);
      ModUnique(n, k, (k - n) / n + 1, (k - n) % n);
    }
  }

  lemma SuccIsMod(n: nat, i: nat)
    requires i < n
    ensures Succ(n, i) == (i + 1) % n
  {
    if i + 1 == n {
      ModUnique(n, n, 1, 0);
    } else {
      ModUnique(n, i + 1, 0, i + 1);
    }
  }

  /** Advancing the position is advancing the ticket. */
  lemma {:induction false} AtSucc(n: nat, k: nat)
    requires n > 0
    ensures At(n, k + 1) == Succ(n, At(n, k))
  {
    if k >= n {
      AtSucc(n, k - n);
    }
  }

  /** Less than one lap apart, equal positions mean equal tickets. */
  lemma {:induction false} AtInjective(n: nat, a: nat, b: nat)
    requires n > 0 && a <= b < a + n && At(n, a) == At(n, b)
    ensures a == b
  {
    if a >= n {
      AtInjective(n, a - n, b - n);
    }
  }
}
