/** Helpers of the engine's public header: range test, flag tests and round-up to an aligned size. */
module PublicUtil {

  /** 2^k, as an unbounded natural. */
  function Pow2(k: nat): (r: nat)
    ensures r >= 1
  {
    if k == 0 then 1 else 2 * Pow2(k - 1)
  }

  /** An integer converted to uint32_t: taken modulo 2^32, so -1 becomes 0xFFFFFFFF. */
  function ToUint32(x: int): (r: nat)
    ensures r < 0x1_0000_0000
    ensures 0 <= x < 0x1_0000_0000 ==> r == x
  {
    x % 0x1_0000_0000
  }

  /** Wrap-around of a natural into an unsigned word of `width` bits. */
  function Wrap(x: nat, width: nat): (r: nat)
    ensures r < Pow2(width)
  {
    x % Pow2(width)
  }

  /** Unsigned negation -m on a word of `width` bits. */
  function Negate(m: nat, width: nat): (r: nat)
    requires m < Pow2(width)
    ensures r < Pow2(width)
    ensures (m + r) % Pow2(width) == 0
  {
    if m == 0 then 0 else ModUnique(Pow2(width), Pow2(width), 1, 0); Pow2(width) - m
  }

  /** Bitwise AND of the low `width` bits of two naturals, one bit at a time. */
  function BitAnd(a: nat, b: nat, width: nat): (r: nat)
    decreases width
  {
    if width == 0 then 0
    else 2 * BitAnd(a / 2, b / 2, width - 1) + (if a % 2 == 1 && b % 2 == 1 then 1 else 0)
  }

  /** inBounds(low, high, val): both ends are inclusive. */
  predicate InBounds(low: int, high: int, val: int)
  {
    low <= val && val <= high
  }

  /** The number of values inBounds admits is high - low + 1. */
  lemma {:induction false} InBoundsCount(low: int, high: int)
    requires low <= high + 1
    ensures |set v | low <= v <= high && InBounds(low, high, v)| == high - low + 1
    decreases high - low
  {
    var s := set v | low <= v <= high && InBounds(low, high, v);
    if low == high + 1 {
      assert s == {};
    } else {
      var h := high - 1;
      var t := set v | low <= v <= h && InBounds(low, h, v);
      InBoundsCount(low, h);
      assert s == t + {high};
    }
  }

  /** isBitSet(value, bit): every bit of `bit` is set in `value`. */
  predicate IsBitSet(value: bv32, bit: bv32)
  {
    value & bit == bit
  }

  /** isAnyBitSet(value, bits): some bit of `bits` is set in `value` (unsigned compare). */
  predicate IsAnyBitSet(value: bv32, bits: bv32)
  {
    value & bits > 0
  }

  /** isBitSet holds exactly when OR-ing the bits in leaves the value unchanged. */
  lemma IsBitSetAsOr(value: bv32, bit: bv32)
    ensures IsBitSet(value, bit) ==> value | bit == value
    ensures value | bit == value ==> IsBitSet(value, bit)
  {}

  /** A non-empty fully-set mask is in particular partly set; the empty mask is never partly set. */
  lemma IsBitSetImpliesAny(value: bv32, bits: bv32)
    ensures IsBitSet(value, bits) && bits != 0 ==> IsAnyBitSet(value, bits)
    ensures !IsAnyBitSet(value, 0) && IsBitSet(value, 0)
  {}

  /** rountUpToMultipleOf(n, m) = (n + m - 1) & -m on an unsigned word of `width` bits. */
  function RoundUpToMultipleOf(n: nat, m: nat, width: nat): (r: nat)
    requires n < Pow2(width) && m < Pow2(width)
  {
    BitAnd(Wrap(n + m + Pow2(width) - 1, width), Negate(m, width), width)
  }

  lemma Pow2Split(k: nat)
    requires k > 0
    ensures Pow2(k) == 2 * Pow2(k - 1)
  {}

  lemma Pow2Monotone(j: nat, k: nat)
    requires j <= k
    ensures Pow2(j) <= Pow2(k)
    decreases k
  {
    if j < k { Pow2Monotone(j, k - 1); }
  }

  /** x mod 2^k splits into its lowest bit and the rest. */
  lemma ModPow2Split(x: nat, k: nat)
    requires k > 0
    ensures x % Pow2(k) == x % 2 + 2 * ((x / 2) % Pow2(k - 1))
  {
    var p := Pow2(k - 1);
    var q := (x / 2) / p;
    var s := (x / 2) % p;
    assert x / 2 == q * p + s;
    assert x == 2 * (x / 2) + x % 2;
    assert x == q * (2 * p) + (2 * s + x % 2);
    ModUnique(x, 2 * p, q, 2 * s + x % 2);
  }

  /** Quotient and remainder are unique. */
  lemma ModUnique(x: nat, d: nat, q: nat, r: nat)
    requires d > 0 && x == q * d + r && r < d
    ensures x % d == r && x / d == q
  {
    var q0, r0 := x / d, x % d;
    assert x == q0 * d + r0;
    if q > q0 {
      MulAtLeast(q - q0, d);
      assert false;
    } else if q < q0 {
      MulAtLeast(q0 - q, d);
      assert false;
    }
  }

  lemma MulAtLeast(a: nat, d: nat)
    requires a >= 1
    ensures a * d >= d
  {}

  /** AND with the all-ones word is the identity on values that fit the word. */
  lemma {:induction false} BitAndAllOnes(x: nat, width: nat)
    requires x < Pow2(width)
    ensures BitAnd(x, Pow2(width) - 1, width) == x
    decreases width
  {
    if width > 0 {
      Pow2Split(width);
      BitAndAllOnes(x / 2, width - 1);
    }
  }

  /** AND with 2^width - 2^k clears the low k bits: the result is x minus x mod 2^k. */
  lemma {:induction false} BitAndClearsLow(x: nat, k: nat, width: nat)
    requires k <= width && x < Pow2(width) && Pow2(k) <= Pow2(width)
    ensures BitAnd(x, Pow2(width) - Pow2(k), width) == x - x % Pow2(k)
    decreases width
  {
    if k == 0 {
      BitAndAllOnes(x, width);
    } else {
      var pw, pk := Pow2(width - 1), Pow2(k - 1);
      Pow2Split(k);
      Pow2Split(width);
      Pow2Monotone(k - 1, width - 1);
      var b := Pow2(width) - Pow2(k);
      assert b == 2 * (pw - pk);
      assert b / 2 == pw - pk && b % 2 == 0;
      assert x / 2 < pw;
      BitAndClearsLow(x / 2, k - 1, width - 1);
      var low := BitAnd(x / 2, b / 2, width - 1);
      assert low == x / 2 - (x / 2) % pk;
      assert BitAnd(x, b, width) == 2 * low;
      ModPow2Split(x, k);
      assert x % Pow2(k) == x % 2 + 2 * ((x / 2) % pk);
    }
  }

  /** For a power-of-two multiple m = 2^k whose round-up does not overflow the word,
      rountUpToMultipleOf returns the least multiple of m that is not below n. */
  lemma RoundUpToMultipleOfPow2(n: nat, k: nat, width: nat)
    requires k <= width && n < Pow2(width) && Pow2(k) < Pow2(width)
    requires n + Pow2(k) - 1 < Pow2(width)
    ensures RoundUpToMultipleOf(n, Pow2(k), width) % Pow2(k) == 0
    ensures n <= RoundUpToMultipleOf(n, Pow2(k), width) < n + Pow2(k)
  {
    var m, p := Pow2(k), Pow2(width);
    var x := n + m - 1;
    var r := RoundUpToMultipleOf(n, m, width);
    RoundUpIsRoundDown(n, k, width, m, p, x);
    RoundedDown(n, m, x, r);
  }

  /** Without overflow, the mask -m clears the low bits of x = n + m - 1: it rounds x down to a multiple of m. */
  lemma RoundUpIsRoundDown(n: nat, k: nat, width: nat, m: nat, p: nat, x: nat)
    requires m == Pow2(k) && p == Pow2(width) && k <= width && n < p && m < p
    requires x == n + m - 1 && x < p
    ensures RoundUpToMultipleOf(n, m, width) == x - x % m
  {
    WrapBelow(x, width);
    assert Wrap(n + m + p - 1, width) == x;
    assert Negate(m, width) == p - m;
    assert RoundUpToMultipleOf(n, m, width) == BitAnd(x, p - m, width);
    BitAndClearsLow(x, k, width);
  }

  /** A sum that exceeds the word by less than one word wraps back to its excess. */
  lemma WrapBelow(x: nat, width: nat)
    requires x < Pow2(width)
    ensures Wrap(x + Pow2(width), width) == x
  {
    ModUnique(x + Pow2(width), Pow2(width), 1, x);
  }

  /** n + m - 1 rounded down to a multiple of m is the least multiple of m not below n. */
  lemma RoundedDown(n: nat, m: nat, x: nat, r: int)
    requires m > 0 && x == n + m - 1 && r == x - x % m
    ensures r % m == 0 && n <= r < n + m
  {
    DivMul(x, m);
    ModUnique(r, m, x / m, 0);
  }

  lemma DivMul(x: nat, m: nat)
    requires m > 0
    ensures x - x % m == (x / m) * m
  {}
}
