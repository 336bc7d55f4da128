/**
 * The deterministic pseudo-random source of the Snake rules engine (createRng in
 * src/snakeLogic.js): a 32-bit xorshift generator. Its state is one 32-bit word; each
 * call xors into the word the word shifted left by 13, then the word shifted right
 * (unsigned) by 17, then the word shifted left by 5, and hands out the new word divided
 * by 2^32, a value in [0, 1).
 *
 * The model keeps the word as a bv32 and hands the word itself to the caller; the value
 * the source returns is Fraction(word), and a draw floor(value * n) is Scaled(word, n),
 * computed exactly in integers (ScaledIsFloor proves the two agree).
 */
module Xorshift {

  const TwoTo32: int := 0x1_0000_0000

  /** The word the generator starts from when the seed is zero. */
  const DefaultSeed: bv32 := 123456789

  /** One xorshift32 step: shifts 13 (left), 17 (unsigned right) and 5 (left), in that order. */
  function XorShift(s: bv32): bv32
  {
    var a := s ^ (s << 13);
    var b := a ^ (a >> 17);
    b ^ (b << 5)
  }

  /** Zero is the only word XorShift maps to zero, and it is a fixed point. */
  lemma XorShiftZero(s: bv32)
    ensures XorShift(s) == 0 <==> s == 0
  {
  }

  /**
   * Known answers of xorshift32, fixing the order and direction of the shifts; the right
   * shift of a bv32 is unsigned, as `>>>` is.
   */
  lemma XorShiftKnownAnswers()
    ensures XorShift(2463534242) == 723471715
    ensures XorShift(DefaultSeed) == 2714967881
  {
  }

  /** The word after k calls of the generator. */
  function Iterate(s: bv32, k: nat): bv32
    decreases k
  {
    if k == 0 then s else Iterate(XorShift(s), k - 1)
  }

  /** The words handed out by the next n calls of a generator whose word is s. */
  function Outputs(s: bv32, n: nat): (r: seq<bv32>)
    decreases n
  {
    if n == 0 then [] else [XorShift(s)] + Outputs(XorShift(s), n - 1)
  }

  /** The i-th output (counting from 0) is the word after i + 1 calls. */
  lemma {:induction false} OutputsAt(s: bv32, n: nat, i: nat)
    requires i < n
    ensures |Outputs(s, n)| == n
    ensures Outputs(s, n)[i] == Iterate(s, i + 1)
    decreases n
  {
    if i > 0 {
      OutputsAt(XorShift(s), n - 1, i - 1);
    } else if n > 1 {
      OutputsAt(XorShift(s), n - 1, 0);
    }
  }

  /** A generator started from a non-zero word never reaches the zero word. */
  lemma {:induction false} IterateNonZero(s: bv32, k: nat)
    requires s != 0
    ensures Iterate(s, k) != 0
    decreases k
  {
    if k > 0 {
      XorShiftZero(s);
      IterateNonZero(XorShift(s), k - 1);
    }
  }

  /** Started from the zero word, the generator stays at zero for ever. */
  lemma {:induction false} IterateZero(k: nat)
    ensures Iterate(0, k) == 0
    decreases k
  {
    if k > 0 {
      XorShiftZero(0);
      IterateZero(k - 1);
    }
  }

  /**
   * The initial word of createRng. A zero seed is replaced by DefaultSeed; any other
   * integer seed contributes its low 32 bits, the bits JavaScript's 32-bit operators read.
   * The zero test looks at the seed itself, before the reduction to 32 bits.
   */
  function SeedWord(seed: int): (w: bv32)
  {
    if seed == 0 then DefaultSeed else (seed % TwoTo32) as bv32
  }

  /**
   * The generator starts from the zero word (and, by IterateZero, hands out 0 for ever)
   * exactly when the seed is a non-zero multiple of 2^32; every other seed gives a non-zero
   * word, and with it a generator that never reaches zero (IterateNonZero).
   */
  lemma SeedWordZero(seed: int)
    ensures SeedWord(seed) == 0 <==> seed != 0 && seed % TwoTo32 == 0
  {
    if seed != 0 && (seed % TwoTo32) as bv32 == 0 {
      assert ((seed % TwoTo32) as bv32) as int == seed % TwoTo32;
    }
  }

  /** The number the generator returns for word u: u / 2^32. */
  function Fraction(u: bv32): (r: real)
    ensures 0.0 <= r < 1.0
  {
    (u as int) as real / (TwoTo32 as real)
  }

  /**
   * A draw floor(rng() * n) for word u, in integer arithmetic. For n in range of the grid
   * sizes the product u * n stays below 2^53, so the source's floating-point product is
   * exact and equals this value (ScaledIsFloor).
   */
  function Scaled(u: bv32, n: int): (r: int)
    requires n > 0
    ensures 0 <= r < n
  {
    ScaledBound(u as int, n);
    (u as int * n) / TwoTo32
  }

  lemma ScaledBound(u: int, n: int)
    requires 0 <= u < TwoTo32 && n > 0
    ensures 0 <= (u * n) / TwoTo32 < n
  {
    assert 0 <= u * n;
    assert u * n < TwoTo32 * n by {
      assert (TwoTo32 - u) * n > 0;
    }
    DivBelow(u * n, n);
  }

  lemma DivBelow(a: int, n: int)
    requires 0 <= a < TwoTo32 * n
    ensures a / TwoTo32 < n
  {
    assert a / TwoTo32 * TwoTo32 <= a;
  }

  /** The integer draw is the floor of the real product Fraction(u) * n. */
  lemma ScaledIsFloor(u: bv32, n: int)
    requires n > 0
    ensures Scaled(u, n) == (Fraction(u) * n as real).Floor
  {
    FloorOfProduct(u as int, n, Fraction(u));
  }

  lemma FloorOfProduct(v: int, n: int, f: real)
    requires v >= 0 && n > 0
    requires f == v as real / TwoTo32 as real
    ensures (v * n) / TwoTo32 == (f * n as real).Floor
  {
    DivMulReal(v as real, n as real, TwoTo32 as real);
    CastMul(v, n);
    FloorDiv(v * n);
  }

  lemma CastMul(a: int, b: int)
    ensures (a * b) as real == a as real * b as real
  {
  }

  lemma DivMulReal(a: real, n: real, d: real)
    requires d > 0.0
    ensures (a / d) * n == (a * n) / d
  {
  }

  /** For p >= 0, the integer quotient p / 2^32 is the floor of the real quotient. */
  lemma FloorDiv(p: int)
    requires p >= 0
    ensures (p as real / TwoTo32 as real).Floor == p / TwoTo32
  {
    var q := p / TwoTo32;
    var m := p % TwoTo32;
    assert p == q * TwoTo32 + m;
    CastMul(q, TwoTo32);
    assert p as real == q as real * TwoTo32 as real + m as real;
    assert p as real / TwoTo32 as real == q as real + m as real / TwoTo32 as real;
    assert 0.0 <= m as real / TwoTo32 as real < 1.0;
  }

  /** A generator object: the closure returned by createRng, with its word s. */
  class Rng {
    var s: bv32

    /** createRng(seed). */
    constructor (seed: int)
      ensures s == SeedWord(seed)
    {
      s := SeedWord(seed);
    }

    /** One call of the generator: advances the word and returns the new word. */
    method Next() returns (u: bv32)
      modifies this
      ensures s == XorShift(old(s))
      ensures u == s
    {
      s := XorShift(s);
      u := s;
    }
  }

  /** n calls of the generator, collected in order. */
  method Draw(rng: Rng, n: nat) returns (us: seq<bv32>)
    modifies rng
    ensures us == Outputs(old(rng.s), n)
    ensures rng.s == Iterate(old(rng.s), n)
  {
    us := [];
    var i := 0;
    while i < n
      invariant 0 <= i <= n
      invariant Outputs(old(rng.s), n) == us + Outputs(rng.s, n - i)
      invariant rng.s == Iterate(old(rng.s), i)
    {
      IterateStep(old(rng.s), i);
      var u := rng.Next();
      us := us + [u];
      i := i + 1;
    }
  }

  lemma {:induction false} IterateStep(s: bv32, k: nat)
    ensures Iterate(s, k + 1) == XorShift(Iterate(s, k))
    decreases k
  {
    if k > 0 {
      IterateStep(XorShift(s), k - 1);
    }
  }

  /**
   * Reproducibility: two generators created from the same seed hand out the same words,
   * call for call, namely Outputs(SeedWord(seed), n).
   */
  method SameSeedSameDraws(seed: int, n: nat) returns (xs: seq<bv32>, ys: seq<bv32>)
    ensures xs == ys == Outputs(SeedWord(seed), n)
  {
    var a := new Rng(seed);
    var b := new Rng(seed);
    xs := Draw(a, n);
    ys := Draw(b, n);
  }
}
