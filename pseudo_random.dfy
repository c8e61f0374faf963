/**
  * `randomFloatFromSeed` (utils/PseudoRandom.kt): a SplitMix64-style mix of a
  * 64-bit seed whose top 53 bits are scaled into [0, 1).
  *
  * Kotlin's `ULong` arithmetic is arithmetic modulo 2^64. It is modelled on
  * natural numbers below 2^64: `+` and `*` reduce modulo 2^64, `shr k` is
  * division by 2^k, `shl k` multiplies by 2^k and drops the bits above bit 63,
  * and `xor` is defined bit by bit.
  */
module PseudoRandom {

  const TWO_53: nat := 0x20_0000_0000_0000
  const TWO_63: nat := 0x8000_0000_0000_0000
  const TWO_64: nat := 0x1_0000_0000_0000_0000

  /** A Kotlin `Long`: a signed 64-bit integer. */
  newtype Long = v: int | -0x8000_0000_0000_0000 <= v < 0x8000_0000_0000_0000

  /** A Kotlin `ULong`: an unsigned 64-bit integer. */
  type ULong = n: nat | n < TWO_64

  /** The odd constant added to the seed before mixing. */
  const GAMMA: ULong := 0x9E8779B97F2A7C15
  /** The odd constant of the final wrapping multiply. */
  const MULTIPLIER: ULong := 2685821657736338717

  function Pow2(k: nat): (p: nat)
    ensures p >= 1
  {
    if k == 0 then 1 else 2 * Pow2(k - 1)
  }

  /** `seed.toULong()`: the same 64 bits read as unsigned (two's complement). */
  function ToULong(seed: Long): (u: ULong)
    ensures seed >= 0 ==> u == seed as int
    ensures seed < 0 ==> u == seed as int + TWO_64
    ensures u >= TWO_63 <==> seed < 0
  {
    seed as int % TWO_64
  }

  /** `a xor b` on the binary digits of `a` and `b`. */
  function Xor(a: nat, b: nat): nat
    decreases a + b
  {
    if a == 0 && b == 0 then 0
    else 2 * Xor(a / 2, b / 2) + (if a % 2 == b % 2 then 0 else 1)
  }

  /** `xor` never sets a bit at or above the width of its operands. */
  lemma {:induction false} XorBelow(a: nat, b: nat, k: nat)
    requires a < Pow2(k) && b < Pow2(k)
    ensures Xor(a, b) < Pow2(k)
  {
    if a == 0 && b == 0 {
    } else if k == 0 {
      assert false;
    } else {
      XorBelow(a / 2, b / 2, k - 1);
    }
  }

  lemma {:induction false} Pow2Add(a: nat, b: nat)
    ensures Pow2(a + b) == Pow2(a) * Pow2(b)
  {
    if a > 0 {
      Pow2Add(a - 1, b);
    }
  }

  lemma Pow2Values()
    ensures Pow2(4) == 0x10 && Pow2(8) == 0x100 && Pow2(16) == 0x1_0000
    ensures Pow2(29) == 0x2000_0000 && Pow2(32) == 0x1_0000_0000 && Pow2(64) == TWO_64
  {
    assert Pow2(2) == 4;
    Pow2Add(2, 2);
    Pow2Add(4, 4);
    Pow2Add(8, 8);
    Pow2Add(16, 16);
    Pow2Add(32, 32);
    Pow2Add(16, 8);
    Pow2Add(24, 4);
    assert Pow2(29) == 2 * Pow2(28);
  }

  /** `a xor b` on two `ULong`s. */
  function XorULong(a: ULong, b: ULong): (r: ULong)
  {
    Pow2Values();
    XorBelow(a, b, 64);
    Xor(a, b)
  }

  /** The mixed 64-bit state `z`: add `GAMMA`, three xor-shifts, wrapping multiply. */
  function Mix(seed: Long): ULong
  {
    var x0: ULong := (ToULong(seed) + GAMMA) % TWO_64;
    var x1 := XorULong(x0, x0 / 0x1000);                        // x xor (x shr 12)
    var x2 := XorULong(x1, (x1 * 0x200_0000) % TWO_64);         // x xor (x shl 25)
    var x3 := XorULong(x2, x2 / 0x800_0000);                    // x xor (x shr 27)
    (x3 * MULTIPLIER) % TWO_64
  }

  /** `bits53 = z shr 11`: the top 53 bits of the mixed state. */
  function Bits53(seed: Long): (b: nat)
    ensures b < TWO_53
  {
    Mix(seed) / 0x800
  }

  /**
    * The value `bits53 * 2^-53` computed exactly. It depends on the seed
    * alone, lies in [0, 1) and is a multiple of 2^-53.
    */
  function RandomFromSeed(seed: Long): (r: real)
    ensures 0.0 <= r < 1.0
    ensures r * TWO_53 as real == (r * TWO_53 as real).Floor as real
  {
    var b := Bits53(seed);
    var r := b as real / TWO_53 as real;
    assert r * TWO_53 as real == b as real;
    r
  }

  // ---------------------------------------------------------------------
  // The source converts `bits53` to `Float` before scaling.

  const TWO_24: nat := 0x100_0000

  /** The spacing of `Float` values around `n` (24 significant bits). */
  function Ulp(n: nat): (u: nat)
    ensures u >= 1
  {
    if n < TWO_24 then 1 else 2 * Ulp(n / 2)
  }

  lemma {:induction false} UlpInBinade(n: nat, k: nat)
    requires Pow2(k) * TWO_24 <= 2 * n < Pow2(k) * 2 * TWO_24
    ensures Ulp(n) == Pow2(k)
  {
    if k > 0 {
      UlpInBinade(n / 2, k - 1);
    }
  }

  /** A `Float` in the binade of `n` spans at most `Pow2(k)` when `n < Pow2(k) * 2^24`. */
  lemma {:induction false} UlpAtMost(n: nat, k: nat)
    requires n < Pow2(k) * TWO_24
    ensures Ulp(n) <= Pow2(k)
  {
    if n >= TWO_24 {
      assert k > 0;
      UlpAtMost(n / 2, k - 1);
    }
  }

  /**
    * `n.toFloat()`: the nearest `Float` to `n`, ties to an even significand.
    * The result is a whole number of ulps, within half an ulp of `n`, and on
    * a tie the number of ulps is even.
    */
  function RoundToFloat(n: nat): (f: nat)
    ensures f % Ulp(n) == 0
    ensures n <= f + Ulp(n) / 2 && f <= n + Ulp(n) / 2
    ensures 2 * (f - n) == Ulp(n) || 2 * (n - f) == Ulp(n) ==> (f / Ulp(n)) % 2 == 0
  {
    var u := Ulp(n);
    var q := n / u;
    var r := n % u;
    Neighbours(n, u);
    if 2 * r > u || (2 * r == u && q % 2 == 1) then
      (q + 1) * u
    else
      q * u
  }

  /**
    * The multiples of `u` just below and just above `n`: `n` lies `n % u`
    * above the lower one and `u - n % u` below the upper one.
    */
  lemma Neighbours(n: nat, u: nat)
    requires u >= 1
    ensures (n / u) * u % u == 0 && (n / u) * u / u == n / u
    ensures (n / u + 1) * u % u == 0 && (n / u + 1) * u / u == n / u + 1
    ensures n - (n / u) * u == n % u
    ensures (n / u + 1) * u - n == u - n % u
  {
    var q := n / u;
    assert n == q * u + n % u;
    MultipleOf(q, u);
    MultipleOf(q + 1, u);
  }

  lemma MulAtLeast(d: nat, u: nat)
    requires d >= 1
    ensures d * u >= u
  {
    var e: nat := d - 1;
    assert d * u == e * u + u;
  }

  /** Whole division is unique: `x == q * u + r` with `0 <= r < u` fixes `x / u` and `x % u`. */
  lemma DivModUnique(x: nat, u: nat, q: nat, r: nat)
    requires u >= 1 && r < u && x == q * u + r
    ensures x / u == q && x % u == r
  {
    var q', r' := x / u, x % u;
    assert q' * u + r' == x;
    if q' > q {
      var d: nat := q' - q;
      assert d * u == q' * u - q * u;
      MulAtLeast(d, u);
      assert false;
    } else if q' < q {
      var d: nat := q - q';
      assert d * u == q * u - q' * u;
      MulAtLeast(d, u);
      assert false;
    }
  }

  /** `q * u` is a whole number `q` of `u`s. */
  lemma MultipleOf(q: nat, u: nat)
    requires u >= 1
    ensures (q * u) % u == 0 && (q * u) / u == q
    ensures (q + 1) * u == q * u + u
  {
    DivModUnique(q * u, u, q, 0);
  }

  /** `bits53.toFloat() * (1.0f / (1L shl 53))`, as the source computes it. */
  function RandomFloatFromSeed(seed: Long): (r: real)
  {
    RoundToFloat(Bits53(seed)) as real / TWO_53 as real
  }

  /** Every top-binade value from 2^53 - 2^28 on rounds up to 2^53. */
  lemma RoundsUpToTwo53(n: nat)
    requires TWO_53 - 0x1000_0000 <= n < TWO_53
    ensures RoundToFloat(n) == TWO_53
  {
    Pow2Values();
    UlpInBinade(n, 29);
    var u := 0x2000_0000;
    var q := n / u;
    var r := n % u;
    assert q == 0xFF_FFFF && r >= 0x1000_0000 by {
      assert n == q * u + r && 0 <= r < u;
    }
  }

  /** Every seed whose top 53 bits are at least 2^53 - 2^28 yields exactly 1.0f. */
  lemma FloatResultRoundsUpToOne(seed: Long)
    requires Bits53(seed) >= TWO_53 - 0x1000_0000
    ensures RandomFloatFromSeed(seed) == 1.0
  {
    RoundsUpToTwo53(Bits53(seed));
  }

  /**
    * The source's result lies in [0, 1], and it is 1.0 exactly when the top
    * 53 bits are at least 2^53 - 2^28; below that it is in the promised [0, 1).
    */
  lemma FloatResultRange(seed: Long)
    ensures 0.0 <= RandomFloatFromSeed(seed) <= 1.0
    ensures RandomFloatFromSeed(seed) == 1.0 <==> Bits53(seed) >= TWO_53 - 0x1000_0000
  {
    var n := Bits53(seed);
    if n >= TWO_53 - 0x1000_0000 {
      RoundsUpToTwo53(n);
    } else {
      Pow2Values();
      UlpAtMost(n, 29);
      assert RoundToFloat(n) < TWO_53;
    }
  }
}
