/**
 * The seeded random generator the harness threads through its generators,
 * seen as an oracle: an infinite stream of raw draws and a cursor saying how
 * many have been taken. Every generator is then a deterministic function of
 * the stream; the distribution of the draws is not modelled.
 */
module Random {
  import opened Common

  datatype Rng = Rng(draws: nat -> nat, next: nat)
  {
    /** The draw `k` places ahead of the cursor. */
    function Peek(k: nat): nat
    {
      draws(next + k)
    }

    /** The generator after `k` more draws. */
    function Skip(k: nat): Rng
    {
      Rng(draws, next + k)
    }
  }

  /**
   * The draw `d` reduced into `[0, n)` by repeated subtraction, that is
   * `d % n` (see `ReduceIsMod`).
   */
  function Reduce(d: nat, n: nat): (r: nat)
    requires n > 0
    ensures r < n
    decreases d
  {
    if d < n then d else Reduce(d - n, n)
  }

  /** `Reduce` is the remainder of `d` by `n`. */
  lemma {:induction false} ReduceIsMod(d: nat, n: nat)
    requires n > 0
    ensures Reduce(d, n) == d % n
    decreases d
  {
    if d >= n {
      ReduceIsMod(d - n, n);
      var q, r := (d - n) / n, (d - n) % n;
      assert d - n == q * n + r;
      assert d == (q + 1) * n + r;
      DivUnique(d, n, q + 1, r);
    }
  }

  /** Euclidean division is unique: a quotient and remainder in `[0, n)` are `d / n` and `d % n`. */
  lemma DivUnique(d: int, n: int, q: int, r: int)
    requires n > 0 && 0 <= r < n && d == q * n + r
    ensures d / n == q && d % n == r
  {
    var q0, r0 := d / n, d % n;
    assert (q - q0) * n == r0 - r;
    MultipleBelowIsZero(q - q0, n);
  }

  /** The only multiple of `n` strictly between `-n` and `n` is zero. */
  lemma MultipleBelowIsZero(k: int, n: int)
    requires n > 0 && -n < k * n < n
    ensures k == 0
  {
  }

  /** `rng.gen::<u8>()`: the draw modulo 256. */
  function GenByte(rng: Rng): (r: (Byte, Rng))
    ensures r.1 == rng.Skip(1)
  {
    (Reduce(rng.Peek(0), 256), rng.Skip(1))
  }

  /** `rng.gen::<bool>()`: the low bit of the draw. */
  function GenBool(rng: Rng): (r: (bool, Rng))
    ensures r.1 == rng.Skip(1)
  {
    (Reduce(rng.Peek(0), 2) == 1, rng.Skip(1))
  }

  /** `rng.gen_range(lo, hi)`, which the rand crate only accepts with `lo < hi`. */
  function GenRange(lo: int, hi: int, rng: Rng): (r: (int, Rng))
    requires lo < hi
    ensures lo <= r.0 < hi
    ensures r.1 == rng.Skip(1)
  {
    (lo + Reduce(rng.Peek(0), hi - lo), rng.Skip(1))
  }

  /** Every value of the range is produced by some draw. */
  lemma GenRangeReachesAll(lo: int, hi: int, v: int, rng: Rng)
    requires lo <= v < hi
    requires rng.Peek(0) == v - lo
    ensures GenRange(lo, hi, rng).0 == v
  {
  }
}
