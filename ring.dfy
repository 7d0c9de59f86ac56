/**
  Positions round a ring of `n` nodes. Both the runtime script and the editor
  tool move to the next node with `(i + 1) % n`.
 */
module Ring {

  /** The node after `i` round a ring of `n`, as `(i + 1) % n` computes it for an index in range. */
  function Next(i: nat, n: nat): (j: nat)
    requires i < n
    ensures j == (i + 1) % n && j < n
  {
    if i + 1 < n then i + 1 else 0
  }

  /** The node `k` positions after `i` round a ring of `n`. */
  function Advance(i: nat, n: nat, k: nat): (j: nat)
    requires i < n
    ensures j < n
    decreases k
  {
    if k == 0 then i else Advance(Next(i, n), n, k - 1)
  }

  lemma MulAtLeast(d: int, n: int)
    requires d >= 1 && n >= 1
    ensures d * n >= n
  {
    assert d * n == (d - 1) * n + n;
    assert (d - 1) * n >= 0;
  }

  lemma ModUnique(x: int, n: int, q: int, r: int)
    requires n >= 1 && 0 <= r < n && x == q * n + r
    ensures x % n == r
  {
    var q', r' := x / n, x % n;
    assert x == q' * n + r';
    assert (q - q') * n == r' - r by {
      assert q * n - q' * n == (q - q') * n;
    }
    if q > q' {
      MulAtLeast(q - q', n);
    } else if q < q' {
      MulAtLeast(q' - q, n);
    }
  }

  lemma ModAddPeriod(x: nat, n: nat)
    requires n >= 1
    ensures (x + n) % n == x % n
  {
    assert x == (x / n) * n + x % n;
    assert x + n == (x / n + 1) * n + x % n;
    ModUnique(x + n, n, x / n + 1, x % n);
  }

  /** Stepping `k` times round the ring lands on `(i + k) % n`. */
  lemma {:induction false} AdvanceIsModulo(i: nat, n: nat, k: nat)
    requires i < n
    ensures Advance(i, n, k) == (i + k) % n
    decreases k
  {
    if k > 0 {
      AdvanceIsModulo(Next(i, n), n, k - 1);
      if i + 1 == n {
        ModAddPeriod(k - 1, n);
      }
    }
  }

  /** The node before `i` round a ring of `n` nodes. */
  function Prev(i: nat, n: nat): (prev: nat)
    requires i < n
    ensures prev < n && Next(prev, n) == i
  {
    if i == 0 then n - 1 else i - 1
  }

  /** No two nodes have the same successor. */
  lemma NextInjective(a: nat, b: nat, n: nat)
    requires a < n && b < n
    ensures Next(a, n) == Next(b, n) <==> a == b
  {
  }
}
