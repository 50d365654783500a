/** A seeded generator, seen from its callers: some stream of numbers in [0, 1) that the seed fixes. */
module Random {
  type Stream = nat -> real

  ghost predicate InUnit(rng: Stream) {
    forall k: nat :: 0.0 <= rng(k) < 1.0
  }

  /** `Math.floor(rng() * n)` on draw number `k`. */
  function Draw(rng: Stream, k: nat, n: nat): int {
    (rng(k) * n as real).Floor
  }

  /** Each of the `n` numbers has its own `1 / n` of the unit interval. */
  lemma DrawIsShare(rng: Stream, k: nat, n: nat, j: int)
    requires n > 0
    ensures Draw(rng, k, n) == j <==> j as real / n as real <= rng(k) < (j + 1) as real / n as real
  {
    var x := rng(k) * n as real;
    ShareOf(rng(k), n, j);
    ShareOf(rng(k), n, j + 1);
    assert j as real <= x < (j + 1) as real <==> x.Floor == j;
  }

  lemma ShareOf(u: real, n: nat, j: int)
    requires n > 0
    ensures j as real / n as real <= u <==> j as real <= u * n as real
  {
    var d := u - j as real / n as real;
    assert d * n as real == u * n as real - j as real;
  }

  lemma DrawInRange(rng: Stream, k: nat, n: nat)
    requires InUnit(rng) && n > 0
    ensures 0 <= Draw(rng, k, n) < n
  {
    assert 0.0 <= rng(k) < 1.0;
    var x := rng(k) * n as real;
    assert 0.0 <= x;
    assert (1.0 - rng(k)) * n as real > 0.0;
  }
}
