/**
 The per-ant generator: SplitMix64 seeding, xoshiro256** stepping and Lemire's
 bounded rejection. Seeding and stepping are shown invertible, which is what
 keeps different ants on different streams and away from the all-zero state.
 */
module Rng {
  import opened Words

  const GOLDEN: Word := 0x9E37_79B9_7F4A_7C15
  const ANT_OFFSET: Word := 0x632B_E59B_D9B4_E019
  const MIX_1: Word := 0xBF58_476D_1CE4_E5B9
  const MIX_2: Word := 0x94D0_49BB_1331_11EB
  const UNMIX_1: Word := 0x96DE_1B17_3F11_9089
  const UNMIX_2: Word := 0x3196_42B2_D24D_8EC3
  const UN_FIVE: Word := 0xCCCC_CCCC_CCCC_CCCD
  const UN_NINE: Word := 0x8E38_E38E_38E3_8E39
  const UNGOLDEN: Word := 0xF1DE_83E1_9937_733D

  datatype State = State(s0: Word, s1: Word, s2: Word, s3: Word)

  const ZERO := State(0, 0, 0, 0)

  // Seeding.

  function XorRight(x: Word, k: nat): Word {
    Xor64(x, ShiftRight(x, k))
  }

  /** One xor-shift and multiply of the finaliser. */
  function MixRound(x: Word, k: nat, p: Word): Word {
    Mul64(XorRight(x, k), p)
  }

  function Mix(z: Word): Word {
    XorRight(MixRound(MixRound(z, 30, MIX_1), 27, MIX_2), 31)
  }

  function SplitMix64(x: Word): Word {
    Mix(Add64(x, GOLDEN))
  }

  function Seeded(seed: Word): State {
    var x0 := Add64(seed, GOLDEN);
    var x1 := Add64(x0, GOLDEN);
    var x2 := Add64(x1, GOLDEN);
    var x3 := Add64(x2, GOLDEN);
    State(Mix(x0), Mix(x1), Mix(x2), Mix(x3))
  }

  /** SeedRng, with its guard against the all-zero state. */
  function SeedRng(seed: Word): State {
    var s := Seeded(seed);
    if s == ZERO then s.(s0 := GOLDEN) else s
  }

  /** uint64(i)*GOLDEN + ANT_OFFSET, the mask of ant i. */
  function AntMask(i: nat): Word {
    Add64(Mul64(i % TWO_64, GOLDEN), ANT_OFFSET)
  }

  /** The seed newWorld derives for ant i. */
  function AntSeed(seed: Word, i: nat): Word {
    SplitMix64(Xor64(seed, AntMask(i)))
  }

  // Stepping.

  function Output(s: State): Word {
    Mul64(RotateLeft(Mul64(s.s1, 5), 7), 9)
  }

  function NextState(s: State): State {
    var t := ShiftLeft(s.s1, 17);
    var s2 := Xor64(s.s2, s.s0);
    var s3 := Xor64(s.s3, s.s1);
    var s1 := Xor64(s.s1, s2);
    var s0 := Xor64(s.s0, s3);
    State(s0, s1, Xor64(s2, t), RotateLeft(s3, 45))
  }

  /** The state before NextState. */
  function PreviousState(q: State): State {
    var e := RotateLeft(q.s3, 19);
    var s0 := Xor64(q.s0, e);
    var s1 := UnLeft17(Xor64(q.s1, q.s2));
    State(s0, s1, Xor64(Xor64(q.s1, s1), s0), Xor64(e, s1))
  }

  function UnLeft17(y: Word): Word {
    Xor64(Xor64(Xor64(y, ShiftLeft(y, 17)), ShiftLeft(y, 34)), ShiftLeft(y, 51))
  }

  function UnRight(y: Word, k: nat): Word {
    Xor64(Xor64(y, ShiftRight(y, k)), ShiftRight(y, 2 * k))
  }

  function UnMixRound(y: Word, k: nat, q: Word): Word {
    UnRight(Mul64(y, q), k)
  }

  function UnMix(w: Word): Word {
    UnMixRound(UnMixRound(UnRight(w, 31), 27, UNMIX_2), 30, UNMIX_1)
  }

  // Inverses of the xor-shift steps.

  lemma Telescope(a: Word, b: Word, c: Word)
    ensures Xor64(Xor64(a, b), Xor64(b, c)) == Xor64(a, c)
  {
    XorAssociative(Xor(a, b), b, c);
    XorUndo(a, b);
  }

  lemma ShiftRightTwice(x: Word, j: nat, k: nat)
    ensures ShiftRight(ShiftRight(x, j), k) == ShiftRight(x, j + k)
  {
    DivDiv(x, Pow2(j), Pow2(k));
    Pow2Add(j, k);
  }

  lemma ShiftRightOut(x: Word, k: nat)
    requires k >= 64
    ensures ShiftRight(x, k) == 0
  {
    Pow2Values();
    Pow2Monotone(64, k);
    ModUnique(x, Pow2(k), 0, x);
  }

  lemma ShiftRightXor(a: Word, b: Word, k: nat)
    ensures ShiftRight(Xor64(a, b), k) == Xor64(ShiftRight(a, k), ShiftRight(b, k))
  {
    XorShiftRight(a, b, k);
  }

  lemma UnRightRight(x: Word, k: nat)
    requires 22 <= k
    ensures UnRight(XorRight(x, k), k) == x
  {
    var x1, x2 := ShiftRight(x, k), ShiftRight(x, 2 * k);
    var y := XorRight(x, k);
    ShiftRightXor(x, x1, k);
    ShiftRightTwice(x, k, k);
    assert ShiftRight(y, k) == Xor64(x1, x2);
    ShiftRightXor(x, x1, 2 * k);
    ShiftRightTwice(x, k, 2 * k);
    ShiftRightOut(x, 3 * k);
    assert ShiftRight(y, 2 * k) == Xor64(x2, 0);
    Telescope(x, x1, x2);
    Telescope(x, x2, 0);
    XorZero(x);
  }

  lemma ShiftLeftXor(a: Word, b: Word, k: nat)
    ensures ShiftLeft(Xor64(a, b), k) == Xor64(ShiftLeft(a, k), ShiftLeft(b, k))
  {
    Pow2Values();
    DoubledIsProduct(a, k);
    DoubledIsProduct(b, k);
    DoubledIsProduct(Xor(a, b), k);
    XorDoubled(a, b, k);
    XorTruncate(Doubled(a, k), Doubled(b, k), 64);
  }

  lemma ShiftLeftTwice(x: Word, j: nat, k: nat)
    ensures ShiftLeft(ShiftLeft(x, j), k) == ShiftLeft(x, j + k)
  {
    ModMul(x * Pow2(j), Pow2(k), TWO_64);
    Pow2Add(j, k);
    assert x * Pow2(j) * Pow2(k) == x * (Pow2(j) * Pow2(k));
  }

  lemma ShiftLeftOut(x: Word, k: nat)
    requires k >= 64
    ensures ShiftLeft(x, k) == 0
  {
    hide Pow2;
    Pow2Values();
    Pow2Add(64, k - 64);
    var p := Pow2(k - 64);
    MulAssociates(x, TWO_64, p);
    MulAssociates(TWO_64, x, p);
    ModUnique(x * Pow2(k), TWO_64, x * p, 0);
  }

  lemma UnLeft17Left(x: Word)
    ensures UnLeft17(Xor64(x, ShiftLeft(x, 17))) == x
  {
    var x1, x2, x3 := ShiftLeft(x, 17), ShiftLeft(x, 34), ShiftLeft(x, 51);
    var y := Xor64(x, x1);
    ShiftLeftTwice(x, 17, 17);
    ShiftLeftTwice(x, 17, 34);
    ShiftLeftTwice(x, 17, 51);
    ShiftLeftOut(x, 68);
    ShiftLeftXor(x, x1, 17);
    ShiftLeftXor(x, x1, 34);
    ShiftLeftXor(x, x1, 51);
    assert ShiftLeft(y, 17) == Xor64(x1, x2);
    assert ShiftLeft(y, 34) == Xor64(x2, x3);
    assert ShiftLeft(y, 51) == Xor64(x3, 0);
    Telescope(x, x1, x2);
    Telescope(x, x2, x3);
    Telescope(x, x3, 0);
    XorZero(x);
  }

  lemma PreviousS0(s: State)
    ensures RotateLeft(NextState(s).s3, 19) == Xor64(s.s3, s.s1)
    ensures Xor64(NextState(s).s0, Xor64(s.s3, s.s1)) == s.s0
  {
    RotateRoundTrip(Xor64(s.s3, s.s1), 45);
    XorUndo(s.s0, Xor64(s.s3, s.s1));
  }

  lemma PreviousS1(s: State)
    ensures UnLeft17(Xor64(NextState(s).s1, NextState(s).s2)) == s.s1
  {
    Telescope(s.s1, Xor64(s.s2, s.s0), ShiftLeft(s.s1, 17));
    UnLeft17Left(s.s1);
  }

  lemma PreviousS2(s: State)
    ensures Xor64(Xor64(NextState(s).s1, s.s1), s.s0) == s.s2
  {
    var s2 := Xor64(s.s2, s.s0);
    XorSymmetric(s.s1, s2);
    XorUndo(s2, s.s1);
    XorUndo(s.s2, s.s0);
  }

  /** PreviousState undoes NextState, on every state. */
  lemma NextInvertible(s: State)
    ensures PreviousState(NextState(s)) == s
  {
    PreviousS0(s);
    PreviousS1(s);
    PreviousS2(s);
    XorUndo(s.s3, s.s1);
  }

  /** Each output determines the word it was computed from. */
  lemma OutputInjective(a: State, b: State)
    requires Output(a) == Output(b)
    ensures a.s1 == b.s1
  {
    var x, y := RotateLeft(Mul64(a.s1, 5), 7), RotateLeft(Mul64(b.s1, 5), 7);
    RotateRoundTrip(Mul64(a.s1, 5), 7);
    RotateRoundTrip(Mul64(b.s1, 5), 7);
    hide RotateLeft;
    MulInverse(x, 9, UN_NINE, TWO_64);
    MulInverse(y, 9, UN_NINE, TWO_64);
    MulInverse(a.s1, 5, UN_FIVE, TWO_64);
    MulInverse(b.s1, 5, UN_FIVE, TWO_64);
  }

  lemma MixRoundInvertible(x: Word, k: nat, p: Word, q: Word)
    requires 22 <= k && (p * q) % TWO_64 == 1
    ensures UnMixRound(MixRound(x, k, p), k, q) == x
  {
    MulInverse(XorRight(x, k), p, q, TWO_64);
    UnRightRight(x, k);
  }

  lemma MixConstants()
    ensures (MIX_1 * UNMIX_1) % TWO_64 == 1
    ensures (MIX_2 * UNMIX_2) % TWO_64 == 1
  {
  }

  /** UnMix undoes the SplitMix64 finaliser, so it is a bijection of words. */
  lemma MixInvertible(z: Word)
    ensures UnMix(Mix(z)) == z
  {
    MixConstants();
    var z1 := MixRound(z, 30, MIX_1);
    UnRightRight(MixRound(z1, 27, MIX_2), 31);
    MixRoundInvertible(z1, 27, MIX_2, UNMIX_2);
    MixRoundInvertible(z, 30, MIX_1, UNMIX_1);
  }

  // Distinct seeds, distinct states, never the all-zero state.

  lemma MixInjective(a: Word, b: Word)
    requires Mix(a) == Mix(b)
    ensures a == b
  {
    MixInvertible(a);
    MixInvertible(b);
  }

  lemma Add64Injective(a: Word, b: Word, c: Word)
    requires Add64(a, c) == Add64(b, c)
    ensures a == b
  {
  }

  lemma NextInjective(a: State, b: State)
    requires NextState(a) == NextState(b)
    ensures a == b
  {
    NextInvertible(a);
    NextInvertible(b);
  }

  /** The guard in SeedRng never fires: two consecutive words cannot both be zero. */
  lemma SeedGuardNeverFires(seed: Word)
    ensures Seeded(seed) != ZERO
    ensures SeedRng(seed) == Seeded(seed)
  {
    var x0 := Add64(seed, GOLDEN);
    if Seeded(seed) == ZERO {
      MixInjective(x0, Add64(x0, GOLDEN));
      assert false;
    }
  }

  lemma SeedRngInjective(a: Word, b: Word)
    requires SeedRng(a) == SeedRng(b)
    ensures a == b
  {
    SeedGuardNeverFires(a);
    SeedGuardNeverFires(b);
    MixInjective(Add64(a, GOLDEN), Add64(b, GOLDEN));
    Add64Injective(a, b, GOLDEN);
  }

  /** The generator after k raw draws. */
  function StateAfter(s: State, k: nat): State {
    if k == 0 then s else NextState(StateAfter(s, k - 1))
  }

  /** Different states stay different however many words are drawn from both. */
  lemma {:induction false} StateAfterInjective(a: State, b: State, k: nat)
    requires StateAfter(a, k) == StateAfter(b, k)
    ensures a == b
  {
    hide NextState;
    if k > 0 {
      NextInjective(StateAfter(a, k - 1), StateAfter(b, k - 1));
      StateAfterInjective(a, b, k - 1);
    }
  }

  lemma NextOfZero()
    ensures NextState(ZERO) == ZERO
  {
    XorZero(0);
    assert ShiftLeft(0, 17) == 0;
    assert RotateLeft(0, 45) == 0 by {
      ModUnique(0, Pow2(19), 0, 0);
    }
  }

  lemma {:induction false} ZeroIsFixed(k: nat)
    ensures StateAfter(ZERO, k) == ZERO
  {
    NextOfZero();
    hide NextState;
    if k > 0 {
      ZeroIsFixed(k - 1);
    }
  }

  /** No seeded generator ever reaches the all-zero fixed point. */
  lemma NeverZero(seed: Word, k: nat)
    ensures StateAfter(SeedRng(seed), k) != ZERO
  {
    SeedGuardNeverFires(seed);
    ZeroIsFixed(k);
    if StateAfter(SeedRng(seed), k) == ZERO {
      StateAfterInjective(SeedRng(seed), ZERO, k);
      assert false;
    }
  }

  lemma GoldenUnit()
    ensures (GOLDEN * UNGOLDEN) % TWO_64 == 1
  {
  }

  lemma GoldenMulInjective(i: Word, j: Word)
    requires Mul64(i, GOLDEN) == Mul64(j, GOLDEN)
    ensures i == j
  {
    GoldenUnit();
    MulInverse(i, GOLDEN, UNGOLDEN, TWO_64);
    MulInverse(j, GOLDEN, UNGOLDEN, TWO_64);
  }

  lemma AntMaskInjective(i: nat, j: nat)
    requires i < TWO_64 && j < TWO_64 && AntMask(i) == AntMask(j)
    ensures i == j
  {
    assert i % TWO_64 == i && j % TWO_64 == j;
    hide Mul64;
    hide Add64;
    Add64Injective(Mul64(i, GOLDEN), Mul64(j, GOLDEN), ANT_OFFSET);
    GoldenMulInjective(i, j);
  }

  lemma SplitMix64Injective(a: Word, b: Word)
    requires SplitMix64(a) == SplitMix64(b)
    ensures a == b
  {
    hide Mix;
    MixInjective(Add64(a, GOLDEN), Add64(b, GOLDEN));
    Add64Injective(a, b, GOLDEN);
  }

  lemma Xor64Injective(a: Word, b: Word, c: Word)
    requires Xor64(c, a) == Xor64(c, b)
    ensures a == b
  {
    XorSymmetric(c, a);
    XorSymmetric(c, b);
    XorCancel(a, b, c);
  }

  /** The masks start at 0x632BE59BD9B4E019 and grow by 0x9E3779B97F4A7C15 from ant to ant, modulo 2^64. */
  lemma AntMasks(i: nat)
    ensures AntMask(0) == 0x632B_E59B_D9B4_E019
    ensures AntMask(i + 1) == Add64(AntMask(i), 0x9E37_79B9_7F4A_7C15)
    ensures AntMask(i) == (i * 0x9E37_79B9_7F4A_7C15 + 0x632B_E59B_D9B4_E019) % TWO_64
  {
    AntMaskIs(0);
    AntMaskIs(i);
    AntMaskIs(i + 1);
    hide AntMask;
    MulDistributes(GOLDEN, i, 1);
    ModAdd(i * GOLDEN + ANT_OFFSET, GOLDEN, TWO_64);
    SmallMod(ANT_OFFSET, TWO_64);
  }

  lemma AntMaskIs(i: nat)
    ensures AntMask(i) == (i * GOLDEN + ANT_OFFSET) % TWO_64
  {
    ModMul(i, GOLDEN, TWO_64);
    ModAdd(i * GOLDEN, ANT_OFFSET, TWO_64);
  }

  lemma ModAdd(a: int, b: int, m: int)
    requires m > 0
    ensures (a % m + b) % m == (a + b) % m
  {
    ModAddMultiple(a % m + b, m, a / m);
  }


  /** Ant seeds are pairwise distinct. */
  lemma AntSeedInjective(seed: Word, i: nat, j: nat)
    requires i < TWO_64 && j < TWO_64
    requires AntSeed(seed, i) == AntSeed(seed, j)
    ensures i == j
  {
    hide SplitMix64;
    hide Xor64;
    hide AntMask;
    SplitMix64Injective(Xor64(seed, AntMask(i)), Xor64(seed, AntMask(j)));
    Xor64Injective(AntMask(i), AntMask(j), seed);
    AntMaskInjective(i, j);
  }

  // Lemire's bounded draw.

  /** uint32(r.Next() >> 32), the k-th time it is evaluated. */
  function WordAt(s: State, k: nat): U32 {
    Output(StateAfter(s, k)) / TWO_32
  }

  function LowHalf(x: U32, n: U32): U32 {
    (x * n) % TWO_32
  }

  /** The value the product yields: m >> 32. */
  function Scaled(x: U32, n: U32): (v: U32)
    requires n > 0
    ensures v < n
  {
    QuotientBelow(x * n, TWO_32, n);
    (x * n) / TWO_32
  }

  /** (-n) % n on 32 bits. */
  function Threshold(n: U32): (t: U32)
    requires n > 0
    ensures t < n
  {
    (TWO_32 - n) % n
  }

  /** The words Intn keeps. */
  predicate Accepted(x: U32, n: U32)
    requires n > 0
  {
    LowHalf(x, n) >= Threshold(n)
  }

  /** Intn(n) terminates from s: some word of the stream is accepted. */
  ghost predicate Ends(s: State, n: U32)
    requires n > 0
  {
    exists k: nat :: KeptAt(s, n, k)
  }

  /** Whether the k-th word is kept. */
  ghost predicate KeptAt(s: State, n: U32, k: nat)
    requires n > 0
  {
    Accepted(WordAt(s, k), n)
  }

  /** The first index from k on that is kept, given that bound is. */
  ghost function FirstFrom(s: State, n: U32, k: nat, bound: nat): nat
    requires n > 0 && k <= bound && KeptAt(s, n, bound)
    decreases bound - k
  {
    if k == bound || KeptAt(s, n, k) then k else FirstFrom(s, n, k + 1, bound)
  }

  lemma {:induction false} FirstFromIsFirst(s: State, n: U32, k: nat, bound: nat)
    requires n > 0 && k <= bound && KeptAt(s, n, bound)
    ensures KeptAt(s, n, FirstFrom(s, n, k, bound))
    ensures forall j: nat :: k <= j < FirstFrom(s, n, k, bound) ==> !KeptAt(s, n, j)
    decreases bound - k
  {
    hide KeptAt;
    if k < bound && !KeptAt(s, n, k) {
      FirstFromIsFirst(s, n, k + 1, bound);
    }
  }

  /** How many words Intn(n) rejects before it returns. */
  ghost function Rejections(s: State, n: U32): (r: nat)
    requires n > 0 && Ends(s, n)
    ensures KeptAt(s, n, r)
    ensures forall j: nat :: j < r ==> !KeptAt(s, n, j)
  {
    hide KeptAt;
    var bound: nat :| KeptAt(s, n, bound);
    FirstFromIsFirst(s, n, 0, bound);
    FirstFrom(s, n, 0, bound)
  }

  datatype Drawn = Drawn(value: U32, rest: State)

  /** The outcome of keeping the r-th word. */
  function Taking(s: State, n: U32, r: nat): (d: Drawn)
    requires n > 0
    ensures d.value < n
  {
    Drawn(Scaled(WordAt(s, r), n), StateAfter(s, r + 1))
  }

  /** What one call of Intn(n) returns and the state it leaves behind. */
  ghost function Draw(s: State, n: U32): (d: Drawn)
    requires n > 0
    ensures d.value < n
  {
    if Ends(s, n) then Taking(s, n, Rejections(s, n)) else Drawn(0, s)
  }

  /** The threshold computed on 32 bits as (-n) % n is 2^32 mod n. */
  lemma ThresholdIsRemainder(n: U32)
    requires n > 0
    ensures Threshold(n) == TWO_32 % n
  {
    ModAddMultiple(TWO_32 - n, n, 1);
  }

  /**
   What a bounded draw is: x * n / 2^32 for the first word x whose product has a low
   half of at least 2^32 mod n, and the generator just after that word.
   */
  lemma DrawIs(s: State, n: U32) returns (k: nat)
    requires n > 0 && Ends(s, n)
    ensures (WordAt(s, k) * n) % TWO_32 >= TWO_32 % n
    ensures forall j: nat :: j < k ==> (WordAt(s, j) * n) % TWO_32 < TWO_32 % n
    ensures Draw(s, n).value == WordAt(s, k) * n / TWO_32 && Draw(s, n).rest == StateAfter(s, k + 1)
  {
    k := Rejections(s, n);
    ThresholdIsRemainder(n);
    hide Ends;
    hide Threshold;
    hide WordAt;
    hide StateAfter;
    forall j: nat | j < k
      ensures (WordAt(s, j) * n) % TWO_32 < TWO_32 % n
    {
      assert !KeptAt(s, n, j);
    }
    assert KeptAt(s, n, k);
  }

  // How many words a draw takes.

  /** A state whose s1 is zero outputs zero, which is kept only when there is no threshold. */
  lemma ZeroWordKept(s: State, n: U32)
    requires n > 0 && s.s1 == 0
    ensures WordAt(s, 0) == 0 && (KeptAt(s, n, 0) <==> TWO_32 % n == 0)
  {
    ZeroOutput(s);
    hide Output;
    hide Threshold;
    ThresholdIsRemainder(n);
  }

  lemma ZeroOutput(s: State)
    requires s.s1 == 0
    ensures Output(s) == 0
  {
    hide Pow2;
    ModUnique(0, Pow2(57), 0, 0);
  }

  lemma DivisorKeeps(s: State, n: U32, k: nat)
    requires n > 0 && TWO_32 % n == 0
    ensures KeptAt(s, n, k)
  {
    ThresholdIsRemainder(n);
    hide WordAt;
  }

  /**
   Intn(n) is sure to keep the first word it draws exactly when n divides 2^32;
   the state (1, 0, 0, 0), whose word is zero, is rejected for every other n.
   */
  lemma FirstWordKeptExactlyForDivisors(n: U32)
    requires n > 0
    ensures (forall s: State :: s != ZERO ==> KeptAt(s, n, 0)) <==> TWO_32 % n == 0
    ensures TWO_32 % n == 0 ==> forall s: State, k: nat :: KeptAt(s, n, k)
  {
    hide KeptAt;
    if TWO_32 % n == 0 {
      forall s: State, k: nat
        ensures KeptAt(s, n, k)
      {
        DivisorKeeps(s, n, k);
      }
    } else {
      ZeroWordKept(State(1, 0, 0, 0), n);
    }
  }

  /** The words one call of Intn(n) consumes. */
  ghost function WordsTaken(s: State, n: U32): (k: nat)
    requires n > 0 && Ends(s, n)
    ensures k >= 1
  {
    Rejections(s, n) + 1
  }

  lemma OneWordTaken(s: State, n: U32)
    requires n > 0 && Ends(s, n)
    ensures WordsTaken(s, n) == 1 <==> KeptAt(s, n, 0)
    ensures Draw(s, n).rest == StateAfter(s, WordsTaken(s, n))
  {
    hide KeptAt;
    hide Rejections;
    hide Ends;
    hide NextState;
    hide WordAt;
    hide Scaled;
  }

  lemma {:induction false} StateAfterAdds(s: State, j: nat, k: nat)
    ensures StateAfter(StateAfter(s, j), k) == StateAfter(s, j + k)
    decreases k
  {
    hide NextState;
    if k > 0 {
      StateAfterAdds(s, j, k - 1);
    }
  }

  /** The words the two draws of one tick consume. */
  ghost function TickWords(s: State, den: U32): (k: nat)
    requires den > 0 && DrawsEnd(s, den)
    ensures k >= 2
  {
    WordsTaken(s, den) + WordsTaken(Draw(s, den).rest, 3)
  }

  lemma KeptByThree(s: State)
    ensures KeptAt(s, 3, 0) <==> WordAt(s, 0) != 0
  {
    hide WordAt;
    ThresholdIsRemainder(3);
  }

  lemma KeptFirst(s: State, n: U32)
    requires n > 0
    ensures KeptAt(s, n, 0) <==> LowHalf(WordAt(s, 0), n) >= TWO_32 % n
  {
    ThresholdIsRemainder(n);
    hide WordAt;
  }

  lemma WordAtAdds(s: State, j: nat, k: nat)
    ensures WordAt(StateAfter(s, j), k) == WordAt(s, j + k)
  {
    StateAfterAdds(s, j, k);
    hide StateAfter;
  }

  lemma TickIsTwoDraws(s: State, den: U32)
    requires den > 0 && DrawsEnd(s, den)
    ensures var r := Draw(s, den).rest;
      && Ends(s, den) && Ends(r, 3) && Advance(s, den) == Draw(r, 3).rest
      && TickWords(s, den) == WordsTaken(s, den) + WordsTaken(r, 3)
  {
    hide Draw;
    hide Ends;
    hide WordsTaken;
  }

  lemma TickAdvancesBy(s: State, den: U32)
    requires den > 0 && DrawsEnd(s, den)
    ensures TickWords(s, den) == 2 <==> KeptAt(s, den, 0) && KeptAt(StateAfter(s, 1), 3, 0)
    ensures Advance(s, den) == StateAfter(s, TickWords(s, den))
  {
    hide *;
    TickIsTwoDraws(s, den);
    var r := Draw(s, den).rest;
    OneWordTaken(s, den);
    OneWordTaken(r, 3);
    StateAfterAdds(s, WordsTaken(s, den), WordsTaken(r, 3));
  }

  /** A tick consumes two words exactly when the first passes RandomDen's threshold and the second is not zero. */
  lemma TwoWordsExactly(s: State, den: U32)
    requires den > 0 && DrawsEnd(s, den)
    ensures TickWords(s, den) == 2 <==> LowHalf(WordAt(s, 0), den) >= TWO_32 % den && WordAt(s, 1) != 0
    ensures Advance(s, den) == StateAfter(s, TickWords(s, den))
  {
    hide *;
    TickAdvancesBy(s, den);
    KeptFirst(s, den);
    KeptByThree(StateAfter(s, 1));
    WordAtAdds(s, 1, 0);
  }

  /** The state word whose output is 2^64 - 1. */
  const ALL_ONES: Word := 0x4FC7_1C71_C71C_71C7

  lemma AllOnesWord(s: State)
    requires s.s1 == ALL_ONES
    ensures WordAt(s, 0) == TWO_32 - 1
  {
    Pow2Values();
    assert Mul64(ALL_ONES, 5) == 0x8EE3_8E38_E38E_38E3;
    assert RotateLeft(0x8EE3_8E38_E38E_38E3, 7) == 0x71C7_1C71_C71C_71C7;
  }

  lemma AllOnesKept(n: U32)
    requires n > 0
    ensures Accepted(TWO_32 - 1, n)
  {
    ModUnique((TWO_32 - 1) * n, TWO_32, n - 1, TWO_32 - n);
  }

  /** Whatever RandomDen is, some generator state makes a tick consume a third word. */
  lemma TwoWordsNeverGuaranteed(den: U32) returns (s: State)
    requires den > 0
    ensures s != ZERO && KeptAt(s, den, 0) && !KeptAt(NextState(s), 3, 0)
    ensures DrawsEnd(s, den) ==> TickWords(s, den) > 2
  {
    s := State(0, ALL_ONES, ALL_ONES, 0);
    AllOnesWord(s);
    AllOnesKept(den);
    XorZero(ALL_ONES);
    assert NextState(s).s1 == 0;
    ZeroWordKept(NextState(s), 3);
    assert StateAfter(s, 1) == NextState(s);
    if DrawsEnd(s, den) {
      TwoWordsExactly(s, den);
    }
  }

  /** 8 divides 2^32, so newWorld's Intn(8) takes exactly one word. */
  lemma PowerOfTwoNeverRejects(s: State)
    ensures Ends(s, 8) && Draw(s, 8) == Drawn(Scaled(WordAt(s, 0), 8), NextState(s))
  {
    FirstWordKeptExactlyForDivisors(8);
    hide KeptAt;
    assert KeptAt(s, 8, 0);
    assert StateAfter(s, 1) == NextState(s);
    hide Rejections;
    hide Scaled;
    hide WordAt;
    hide NextState;
  }

  /** Intn(8) returns the top three bits of the word. */
  lemma TopThreeBits(s: State)
    ensures Draw(s, 8).value == Output(s) / TWO_32 / 0x2000_0000 && Draw(s, 8).rest == NextState(s)
  {
    PowerOfTwoNeverRejects(s);
    hide Draw;
    hide Output;
    hide NextState;
    assert WordAt(s, 0) == Output(s) / TWO_32;
    EighthOf(WordAt(s, 0));
  }

  lemma EighthOf(x: nat)
    ensures x * 8 / TWO_32 == x / 0x2000_0000
  {
  }

  /** An ant's generator as newWorld leaves it, after the draw of its heading. */
  ghost function AntStream(seed: Word, i: nat): State {
    Draw(SeedRng(AntSeed(seed, i)), 8).rest
  }

  /** All ants of a colony start from different generator states, none of them zero. */
  lemma AntStreamsDistinct(seed: Word, i: nat, j: nat)
    requires i < TWO_64 && j < TWO_64 && i != j
    ensures AntStream(seed, i) != AntStream(seed, j)
    ensures AntStream(seed, i) != ZERO
  {
    var a, b := SeedRng(AntSeed(seed, i)), SeedRng(AntSeed(seed, j));
    PowerOfTwoNeverRejects(a);
    PowerOfTwoNeverRejects(b);
    NeverZero(AntSeed(seed, i), 1);
    assert StateAfter(a, 1) == NextState(a);
    if NextState(a) == NextState(b) {
      NextInjective(a, b);
      SeedRngInjective(AntSeed(seed, i), AntSeed(seed, j));
      AntSeedInjective(seed, i, j);
      assert false;
    }
  }

  // The draws of a whole run.

  /** The generator after the two draws of one tick. */
  ghost function Advance(s: State, den: U32): State
    requires den > 0
  {
    Draw(Draw(s, den).rest, 3).rest
  }

  /** The generator after the draws of k ticks. */
  ghost function AdvanceBy(s: State, den: U32, k: nat): State
    requires den > 0
    decreases k
  {
    if k == 0 then s else AdvanceBy(Advance(s, den), den, k - 1)
  }

  ghost predicate DrawsEnd(s: State, den: U32)
    requires den > 0
  {
    Ends(s, den) && Ends(Draw(s, den).rest, 3)
  }

  /** The draws of the next t ticks all end: what running the program that far presumes. */
  ghost predicate Live(s: State, den: U32, t: nat)
    requires den > 0
  {
    forall k: nat :: k < t ==> DrawsEnd(AdvanceBy(s, den, k), den)
  }

  lemma LiveStep(s: State, den: U32, t: nat)
    requires den > 0 && t > 0 && Live(s, den, t)
    ensures DrawsEnd(s, den) && Live(Advance(s, den), den, t - 1)
  {
    assert AdvanceBy(s, den, 0) == s;
    forall k: nat | k < t - 1
      ensures DrawsEnd(AdvanceBy(Advance(s, den), den, k), den)
    {
      assert AdvanceBy(s, den, k + 1) == AdvanceBy(Advance(s, den), den, k);
    }
  }

  lemma {:induction false} AdvanceByStep(s: State, den: U32, k: nat)
    requires den > 0
    ensures AdvanceBy(s, den, k + 1) == Advance(AdvanceBy(s, den, k), den)
    decreases k
  {
    hide Advance;
    if k > 0 {
      AdvanceByStep(Advance(s, den), den, k - 1);
    }
  }

  // The generator object.

  class Generator {
    var s: State

    constructor (seed: Word)
      ensures s == SeedRng(seed)
    {
      var words: seq<Word> := [];
      var x := seed;
      for i := 0 to 4
        invariant |words| == i
        invariant i == 0 ==> x == seed
        invariant i >= 1 ==> words[0] == Mix(Add64(seed, GOLDEN))
        invariant i == 1 ==> x == Add64(seed, GOLDEN)
        invariant i >= 2 ==> words[1] == Mix(Add64(Add64(seed, GOLDEN), GOLDEN))
        invariant i == 2 ==> x == Add64(Add64(seed, GOLDEN), GOLDEN)
        invariant i >= 3 ==> words[2] == Mix(Add64(Add64(Add64(seed, GOLDEN), GOLDEN), GOLDEN))
        invariant i == 3 ==> x == Add64(Add64(Add64(seed, GOLDEN), GOLDEN), GOLDEN)
        invariant i >= 4 ==> words[3] == Mix(Add64(Add64(Add64(Add64(seed, GOLDEN), GOLDEN), GOLDEN), GOLDEN))
      {
        x := Add64(x, GOLDEN);
        words := words + [Mix(x)];
      }
      if words[0] == 0 && words[1] == 0 && words[2] == 0 && words[3] == 0 {
        words := words[0 := GOLDEN];
      }
      s := State(words[0], words[1], words[2], words[3]);
    }

    method Next() returns (word: Word)
      modifies this
      ensures word == Output(old(s)) && s == NextState(old(s))
    {
      word := Mul64(RotateLeft(Mul64(s.s1, 5), 7), 9);
      var t := ShiftLeft(s.s1, 17);
      var r := s;
      r := r.(s2 := Xor64(r.s2, r.s0));
      r := r.(s3 := Xor64(r.s3, r.s1));
      r := r.(s1 := Xor64(r.s1, r.s2));
      r := r.(s0 := Xor64(r.s0, r.s3));
      r := r.(s2 := Xor64(r.s2, t));
      r := r.(s3 := RotateLeft(r.s3, 45));
      s := r;
    }

    /**
     Intn returns the first accepted word, scaled. The early test lo < n only
     skips the computation of the threshold: it accepts exactly the same words.
     */
    method Intn(n: U32) returns (value: U32)
      requires n > 0 && Ends(s, n)
      modifies this
      ensures Drawn(value, s) == Draw(old(s), n)
    {
      hide NextState;
      hide Output;
      hide Ends;
      hide Rejections;
      ghost var start := s;
      ghost var k := 0;
      var word := Next();
      var x := word / TWO_32;
      var lo := LowHalf(x, n);
      if lo < n {
        var thresh := Threshold(n);
        while lo < thresh
          invariant x == WordAt(start, k) && s == StateAfter(start, k + 1)
          invariant lo == LowHalf(x, n)
          invariant k <= Rejections(start, n)
          decreases Rejections(start, n) - k
        {
          word := Next();
          x := word / TWO_32;
          lo := LowHalf(x, n);
          k := k + 1;
        }
      }
      assert KeptAt(start, n, k);
      value := Scaled(x, n);
    }
  }
}
