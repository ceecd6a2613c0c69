/**
 * The random-number generator the back end draws from, as an oracle: the
 * values it will produce are fixed up front as streams, and `pos` counts
 * the draws taken so far. `Below(n)` stands for `choice`/`randrange` over
 * n items, `Random()` for `random.random()`.
 */
module Oracle {
  class Rng {
    const ints: nat -> nat
    const reals: nat -> real
    var pos: nat

    constructor (ints: nat -> nat, reals: nat -> real)
      ensures this.ints == ints && this.reals == reals && pos == 0
    {
      this.ints := ints;
      this.reals := reals;
      pos := 0;
    }

    /** An index drawn uniformly below n. */
    method Below(n: nat) returns (r: nat)
      requires n > 0
      modifies this
      ensures r < n && r == ints(old(pos)) % n
      ensures pos == old(pos) + 1
    {
      r := ints(pos) % n;
      pos := pos + 1;
    }

    /** A real drawn from [0, 1). */
    method Random() returns (x: real)
      modifies this
      ensures x == reals(old(pos))
      ensures pos == old(pos) + 1
    {
      x := reals(pos);
      pos := pos + 1;
    }

    /**
     * `random.sample(range(n), k)` by the pool method: each draw picks one
     * of the positions not yet taken, whose slot is then refilled from the
     * end of the live part of the pool.
     */
    method Sample(n: nat, k: nat) returns (picked: seq<nat>)
      requires k <= n
      modifies this
      ensures |picked| == k
      ensures forall i :: 0 <= i < k ==> picked[i] < n
      ensures forall i, j :: 0 <= i < j < k ==> picked[i] != picked[j]
      ensures pos == old(pos) + k
    {
      var pool: seq<nat> := seq(n, i requires 0 <= i < n => i);
      picked := [];
      var m := 0;
      while m < k
        invariant 0 <= m <= k && |picked| == m && |pool| == n
        invariant pos == old(pos) + m
        invariant forall i :: 0 <= i < n - m ==> pool[i] < n
        invariant forall i, j :: 0 <= i < j < n - m ==> pool[i] != pool[j]
        invariant forall i :: 0 <= i < m ==> picked[i] < n
        invariant forall i, j :: 0 <= i < j < m ==> picked[i] != picked[j]
        invariant forall i, j :: 0 <= i < n - m && 0 <= j < m ==> pool[i] != picked[j]
      {
        var j := Below(n - m);
        picked := picked + [pool[j]];
        pool := pool[j := pool[n - m - 1]];
        m := m + 1;
      }
    }
  }
}
