/** Arithmetic of the target-sync counter: the remainder the source keeps
    in `update_count` after each call. */
module TargetSync {

  lemma MulAtLeast(a: int, f: int)
    requires a >= 1 && f > 0
    ensures a * f >= f
  {
  }

  /** A remainder is determined by any decomposition `c == q * f + r` with
      `0 <= r < f`. */
  lemma RemainderUnique(c: int, f: int, q: int, r: int)
    requires f > 0 && 0 <= r < f && c == q * f + r
    ensures c % f == r
  {
    var q0, r0 := c / f, c % f;
    assert c == q0 * f + r0;
    assert (q - q0) * f == r0 - r;
    if q > q0 {
      MulAtLeast(q - q0, f);
    } else if q < q0 {
      MulAtLeast(q0 - q, f);
    }
  }

  /** One call of `update_target_model`: incrementing the stored remainder
      and reducing it again gives the remainder of one more call. */
  lemma CounterStep(c: nat, f: nat)
    requires f > 0
    ensures (c % f + 1) % f == (c + 1) % f
    ensures (c % f + 1) % f == 0 <==> c % f == f - 1
  {
    var q, r := c / f, c % f;
    assert c == q * f + r;
    if r + 1 < f {
      RemainderUnique(c + 1, f, q, r + 1);
      RemainderUnique(r + 1, f, 0, r + 1);
    } else {
      assert c + 1 == (q + 1) * f + 0;
      RemainderUnique(c + 1, f, q + 1, 0);
      RemainderUnique(r + 1, f, 1, 0);
    }
  }
}
