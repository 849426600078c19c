/**
 * The HMI correlation-id allocator of ApplicationManagerImpl
 * (GetNextHMICorrelationID): one unsigned counter that steps by one up to
 * UINT_MAX and then wraps to 0; each call returns the new counter value.
 */
module CorrelationIds {
  import opened Common

  /** message_chain_max_id_ */
  const MESSAGE_CHAIN_MAX_ID: Uint32 := UINT_MAX

  /** The counter after one call of GetNextHMICorrelationID, which is also what the call returns. */
  function NextId(current: Uint32): (next: Uint32)
    ensures next == (current + 1) % (UINT_MAX + 1)
  {
    if current < MESSAGE_CHAIN_MAX_ID then current + 1 else 0
  }

  /** The counter after `n` calls, starting from `start`. */
  function Iterate(start: Uint32, n: nat): Uint32 {
    if n == 0 then start else NextId(Iterate(start, n - 1))
  }

  /** The remainder modulo 2^32 is the unique r in range with x == q * 2^32 + r. */
  lemma ModOfDecomposition(x: int, q: int, r: int)
    requires 0 <= r <= UINT_MAX && x == q * (UINT_MAX + 1) + r
    ensures x % (UINT_MAX + 1) == r
  {
  }

  /** Stepping a reduced counter by one agrees with stepping the unreduced one. */
  lemma ModSucc(k: nat)
    ensures (k % (UINT_MAX + 1) + 1) % (UINT_MAX + 1) == (k + 1) % (UINT_MAX + 1)
  {
    var M := UINT_MAX + 1;
    var q, r := k / M, k % M;
    assert k == q * M + r;
    if r < UINT_MAX {
      ModOfDecomposition(r + 1, 0, r + 1);
      ModOfDecomposition(k + 1, q, r + 1);
    } else {
      ModOfDecomposition(r + 1, 1, 0);
      ModOfDecomposition(k + 1, q + 1, 0);
    }
  }

  /** `n` calls advance the counter by `n` modulo 2^32. */
  lemma {:induction false} IterateIsModular(start: Uint32, n: nat)
    ensures Iterate(start, n) == (start + n) % (UINT_MAX + 1)
  {
    if n > 0 {
      IterateIsModular(start, n - 1);
      ModSucc(start + n - 1);
    }
  }

  /** From the initial counter 0 the first id handed out is 1, and the i-th is i up to UINT_MAX. */
  lemma FirstIdsCountUp(i: nat)
    requires 1 <= i <= UINT_MAX
    ensures Iterate(0, 1) == 1
    ensures Iterate(0, i) == i
  {
    IterateIsModular(0, 1);
    IterateIsModular(0, i);
    ModOfDecomposition(1, 0, 1);
    ModOfDecomposition(i, 0, i);
  }

  /** Among the first UINT_MAX + 2 calls from 0, exactly call number UINT_MAX + 1 returns 0. */
  lemma WrapsOnce(k: nat)
    requires 1 <= k <= UINT_MAX + 2
    ensures Iterate(0, k) == 0 <==> k == UINT_MAX + 1
  {
    IterateIsModular(0, k);
    if k <= UINT_MAX {
      ModOfDecomposition(k, 0, k);
    } else if k == UINT_MAX + 1 {
      ModOfDecomposition(k, 1, 0);
    } else {
      ModOfDecomposition(k, 1, 1);
    }
  }

  /** Values less than 2^32 apart have different remainders. */
  lemma ModDistinct(a: nat, d: int)
    requires 1 <= d <= UINT_MAX
    ensures a % (UINT_MAX + 1) != (a + d) % (UINT_MAX + 1)
  {
    var M := UINT_MAX + 1;
    var qa, ra := a / M, a % M;
    assert a == qa * M + ra;
    if ra + d <= UINT_MAX {
      ModOfDecomposition(a + d, qa, ra + d);
    } else {
      ModOfDecomposition(a + d, qa + 1, ra + d - M);
    }
  }

  /** No id repeats within UINT_MAX + 1 consecutive calls. */
  lemma NoRepeatWithinPeriod(start: Uint32, i: nat, j: nat)
    requires i < j <= i + UINT_MAX
    ensures Iterate(start, i) != Iterate(start, j)
  {
    IterateIsModular(start, i);
    IterateIsModular(start, j);
    ModDistinct(start + i, j - i);
  }
}
