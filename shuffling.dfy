/**
 * The index-mixing networks the set randomizer uses for sets larger than one
 * block. One stage with divisor `rev` splits an index as
 * (c * 20 + r) * rev + t, lets a 20-slot permutation block reorder r, and
 * combines the parts again; indices at or past the stage's bound pass
 * through. `RepeatedShuffling` runs the stages for rev = 1, 2, 4, ...;
 * `ShuffleContinuousBatch` runs them several rounds with a half-turn
 * rotation of the set in between.
 */
module Shuffling {
  import opened Factoradics
  import opened FactoradicBuilder

  const UInt32Modulus: int := 0x1_0000_0000

  /** Slot r of block c of the flat block array. */
  function Slot(blocks: seq<byte>, c: nat, r: nat): nat
    requires CPermutationIndexesPerBlock * (c + 1) <= |blocks| && r < CPermutationIndexesPerBlock
  {
    blocks[CPermutationIndexesPerBlock * c + r] as nat
  }

  /** Block c reorders 0..19: every slot holds a label below 20 and no label appears twice. */
  predicate PermutesBlock(blocks: seq<byte>, c: nat)
  {
    CPermutationIndexesPerBlock * (c + 1) <= |blocks| &&
    (forall r :: 0 <= r < CPermutationIndexesPerBlock ==> Slot(blocks, c, r) < CPermutationIndexesPerBlock) &&
    (forall r, r' :: 0 <= r < r' < CPermutationIndexesPerBlock ==> Slot(blocks, c, r) != Slot(blocks, c, r'))
  }

  /** A block filled with the labels 0..19, each once, permutes 0..19. */
  lemma PermutesBlockOfIota(blocks: seq<byte>, c: nat)
    requires CPermutationIndexesPerBlock * (c + 1) <= |blocks|
    requires multiset(blocks[CPermutationIndexesPerBlock * c..CPermutationIndexesPerBlock * (c + 1)])
             == multiset(Iota(CPermutationIndexesPerBlock))
    ensures PermutesBlock(blocks, c)
  {
    var block := blocks[CPermutationIndexesPerBlock * c..CPermutationIndexesPerBlock * (c + 1)];
    PermutationOfIota(block, CPermutationIndexesPerBlock);
    assert forall r :: 0 <= r < CPermutationIndexesPerBlock ==> Slot(blocks, c, r) == block[r] as nat;
  }

  /** The parts of (c * 20 + p) * rev + t read back by division. */
  lemma Combine(c: nat, p: nat, rev: nat, t: nat)
    requires t < rev && p < CPermutationIndexesPerBlock
    ensures ((c * 20 + p) * rev + t) % rev == t
    ensures ((c * 20 + p) * rev + t) / rev == c * 20 + p
    ensures (c * 20 + p) / 20 == c && (c * 20 + p) % 20 == p
  {
    DivModUnique((c * 20 + p) * rev + t, rev, c * 20 + p, t);
    DivModUnique(c * 20 + p, 20, c, p);
  }

  lemma MulMonotone(a: int, b: int, k: int)
    requires a <= b && 0 <= k
    ensures a * k <= b * k
  {
    assert b * k == a * k + (b - a) * k;
  }

  /** Combining parts below their bounds stays below 20 * rev * combMult. */
  lemma CombineBelow(c: nat, p: nat, rev: nat, t: nat, combMult: nat)
    requires c < combMult && p < CPermutationIndexesPerBlock && t < rev
    ensures 0 <= (c * 20 + p) * rev + t < CPermutationIndexesPerBlock * rev * combMult
  {
    MulMonotone(0, c * 20 + p, rev);
    MulMonotone(c * 20 + p, 20 * combMult - 1, rev);
    assert (20 * combMult - 1) * rev + rev == CPermutationIndexesPerBlock * rev * combMult;
  }

  /** A quotient of a value below d * n by d is below n. */
  lemma QuotientUnder(x: nat, d: nat, n: nat)
    requires 0 < d && x < d * n
    ensures x / d < n
  {
    if x / d >= n {
      MulMonotone(n, x / d, d);
    }
  }

  /** Doubling the divisor while halving the count never widens a stage. */
  lemma HalvingBound(rev: nat, combMult: nat)
    ensures 2 * rev * (combMult / 2) <= rev * combMult
    ensures CPermutationIndexesPerBlock * (2 * rev) * (combMult / 2) <= CPermutationIndexesPerBlock * rev * combMult
  {
    MulMonotone(2 * (combMult / 2), combMult, rev);
    assert 2 * rev * (combMult / 2) == 2 * (combMult / 2) * rev;
    MulMonotone(2 * rev * (combMult / 2), rev * combMult, CPermutationIndexesPerBlock);
  }

  /**
   * While the count is positive and the divisor times the count stays within
   * a multiplier whose 20-fold fits 32 bits, the stage's bounds and the
   * doubled divisor fit 32 bits too.
   */
  lemma StageFits(rev: nat, combMult: nat, permutationMultiplier: nat)
    requires 0 < combMult && rev * combMult <= permutationMultiplier
    requires CPermutationIndexesPerBlock * permutationMultiplier < UInt32Modulus
    ensures CPermutationIndexesPerBlock * rev < UInt32Modulus && 2 * rev < UInt32Modulus
    ensures CPermutationIndexesPerBlock * rev * combMult < UInt32Modulus
  {
    MulMonotone(1, combMult, rev);
    MulMonotone(rev * combMult, permutationMultiplier, CPermutationIndexesPerBlock);
  }

  /**
   * One stage with divisor `rev` over the indices below 20 * rev * combMult:
   * index q * rev + t with q = c * 20 + r becomes (c * 20 + p(r)) * rev + t,
   * p being block `used`; every other index passes. The result is a 32-bit
   * value and wraps as the source's unsigned arithmetic does.
   */
  function Stage(blocks: seq<byte>, used: nat, rev: nat, combMult: nat, index: nat): (r: nat)
    requires 0 < rev && CPermutationIndexesPerBlock * (used + 1) <= |blocks|
    ensures index < UInt32Modulus ==> r < UInt32Modulus
  {
    if index < CPermutationIndexesPerBlock * rev * combMult then
      var q := index / rev;
      ((q / 20 * 20 + Slot(blocks, used, q % 20)) * rev + index % rev) % UInt32Modulus
    else
      index
  }

  /** On a permuting block a stage keeps its own range and moves nothing past it. */
  lemma StageWithin(blocks: seq<byte>, used: nat, rev: nat, combMult: nat, index: nat)
    requires 0 < rev && PermutesBlock(blocks, used)
    requires CPermutationIndexesPerBlock * rev * combMult <= UInt32Modulus
    ensures index < CPermutationIndexesPerBlock * rev * combMult ==>
              Stage(blocks, used, rev, combMult, index) < CPermutationIndexesPerBlock * rev * combMult
    ensures index >= CPermutationIndexesPerBlock * rev * combMult ==> Stage(blocks, used, rev, combMult, index) == index
  {
    if index < CPermutationIndexesPerBlock * rev * combMult {
      StageDecode(blocks, used, rev, combMult, index);
    }
  }

  /** Inside its range a stage does not wrap: its value is the recombined parts themselves. */
  lemma StageValue(blocks: seq<byte>, used: nat, rev: nat, combMult: nat, index: nat)
    requires 0 < rev && PermutesBlock(blocks, used)
    requires CPermutationIndexesPerBlock * rev * combMult <= UInt32Modulus
    requires index < CPermutationIndexesPerBlock * rev * combMult
    ensures index / rev / 20 < combMult
    ensures Stage(blocks, used, rev, combMult, index)
            == (index / rev / 20 * 20 + Slot(blocks, used, index / rev % 20)) * rev + index % rev
  {
    assert rev * (20 * combMult) == CPermutationIndexesPerBlock * rev * combMult;
    DivNonNegative(index, rev);
    DivNonNegative(index / rev, 20);
    QuotientUnder(index, rev, 20 * combMult);
    QuotientUnder(index / rev, 20, combMult);
    var v := (index / rev / 20 * 20 + Slot(blocks, used, index / rev % 20)) * rev + index % rev;
    CombineBelow(index / rev / 20, Slot(blocks, used, index / rev % 20), rev, index % rev, combMult);
    SmallMod(v, UInt32Modulus);
  }

  lemma SmallMod(v: int, d: int)
    requires 0 <= v < d
    ensures v % d == v
  {
  }

  /** Inside its range a stage's result reads back as t, c and p(r). */
  lemma StageDecode(blocks: seq<byte>, used: nat, rev: nat, combMult: nat, index: nat)
    requires 0 < rev && PermutesBlock(blocks, used)
    requires CPermutationIndexesPerBlock * rev * combMult <= UInt32Modulus
    requires index < CPermutationIndexesPerBlock * rev * combMult
    ensures Stage(blocks, used, rev, combMult, index) < CPermutationIndexesPerBlock * rev * combMult
    ensures Stage(blocks, used, rev, combMult, index) % rev == index % rev
    ensures Stage(blocks, used, rev, combMult, index) / rev / 20 == index / rev / 20
    ensures Stage(blocks, used, rev, combMult, index) / rev % 20 == Slot(blocks, used, index / rev % 20)
  {
    StageValue(blocks, used, rev, combMult, index);
    DivNonNegative(index, rev);
    DivNonNegative(index / rev, 20);
    CombineBelow(index / rev / 20, Slot(blocks, used, index / rev % 20), rev, index % rev, combMult);
    Combine(index / rev / 20, Slot(blocks, used, index / rev % 20), rev, index % rev);
  }

  /** On a permuting block a stage sends no two indices to the same place. */
  lemma StageInjective(blocks: seq<byte>, used: nat, rev: nat, combMult: nat, x: nat, y: nat)
    requires 0 < rev && PermutesBlock(blocks, used)
    requires CPermutationIndexesPerBlock * rev * combMult <= UInt32Modulus
    requires Stage(blocks, used, rev, combMult, x) == Stage(blocks, used, rev, combMult, y)
    ensures x == y
  {
    StageWithin(blocks, used, rev, combMult, x);
    StageWithin(blocks, used, rev, combMult, y);
    if x < CPermutationIndexesPerBlock * rev * combMult && y < CPermutationIndexesPerBlock * rev * combMult {
      StageDecode(blocks, used, rev, combMult, x);
      StageDecode(blocks, used, rev, combMult, y);
      SlotInjective(blocks, used, x / rev % 20, y / rev % 20);
      SameParts(x / rev, y / rev, 20);
      SameParts(x, y, rev);
    }
  }

  /** A permuting block holds no label in two slots. */
  lemma SlotInjective(blocks: seq<byte>, c: nat, r: nat, r': nat)
    requires PermutesBlock(blocks, c) && r < CPermutationIndexesPerBlock && r' < CPermutationIndexesPerBlock
    requires Slot(blocks, c, r) == Slot(blocks, c, r')
    ensures r == r'
  {
  }

  lemma DivNonNegative(a: int, d: int)
    requires 0 <= a && 0 < d
    ensures 0 <= a / d
  {
  }

  /** Two values with the same quotient and remainder are equal. */
  lemma SameParts(a: int, b: int, d: int)
    requires 0 < d && a / d == b / d && a % d == b % d
    ensures a == b
  {
    assert a == a / d * d + a % d;
    assert b == b / d * d + b % d;
  }

  /**
   * The stages for divisors rev, 2 * rev, 4 * rev, ... while the count
   * combMult, halved each time, is positive.
   */
  function StagesFrom(blocks: seq<byte>, used: nat, rev: nat, combMult: nat, index: nat): (r: nat)
    requires 0 < rev && (0 < combMult ==> CPermutationIndexesPerBlock * (used + 1) <= |blocks|)
    ensures index < UInt32Modulus ==> r < UInt32Modulus
    decreases combMult
  {
    if combMult == 0 then index
    else StagesFrom(blocks, used, 2 * rev, combMult / 2, Stage(blocks, used, rev, combMult, index))
  }

  /** Stages no wider than `bound` keep indices below it below it and leave the others alone. */
  lemma {:induction false} StagesFromWithin(blocks: seq<byte>, used: nat, rev: nat, combMult: nat, bound: nat, index: nat)
    requires 0 < rev && PermutesBlock(blocks, used)
    requires CPermutationIndexesPerBlock * rev * combMult <= bound <= UInt32Modulus
    ensures index < bound ==> StagesFrom(blocks, used, rev, combMult, index) < bound
    ensures index >= bound ==> StagesFrom(blocks, used, rev, combMult, index) == index
    decreases combMult
  {
    if combMult > 0 {
      StageWithin(blocks, used, rev, combMult, index);
      HalvingBound(rev, combMult);
      StagesFromWithin(blocks, used, 2 * rev, combMult / 2, bound, Stage(blocks, used, rev, combMult, index));
    }
  }

  /** Stages on a permuting block send no two indices to the same place. */
  lemma {:induction false} StagesFromInjective(blocks: seq<byte>, used: nat, rev: nat, combMult: nat, x: nat, y: nat)
    requires 0 < rev && PermutesBlock(blocks, used)
    requires CPermutationIndexesPerBlock * rev * combMult <= UInt32Modulus
    requires StagesFrom(blocks, used, rev, combMult, x) == StagesFrom(blocks, used, rev, combMult, y)
    ensures x == y
    decreases combMult
  {
    if combMult > 0 {
      HalvingBound(rev, combMult);
      StagesFromInjective(blocks, used, 2 * rev, combMult / 2,
        Stage(blocks, used, rev, combMult, x), Stage(blocks, used, rev, combMult, y));
      StageInjective(blocks, used, rev, combMult, x, y);
    }
  }

  /**
   * One stage of either network as the source computes it: `ldiv` by the
   * divisor, `ldiv` of the quotient by 20, the block's label for the
   * remainder, and the parts combined again in 32 bits. The divisions take
   * the index as an unsigned value, which is what `ldiv` sees where `long`
   * is 64 bits; where `long` is 32 bits, as on the Windows target the
   * `_getch` console implies, this holds for indexes below 2^31 only.
   */
  method ShuffleStage(blocks: seq<byte>, used: nat, rev: uint32, combMult: uint32, index: uint32)
    returns (shuffled: uint32)
    requires 0 < rev && CPermutationIndexesPerBlock * (used + 1) <= |blocks|
    requires CPermutationIndexesPerBlock * rev as nat < UInt32Modulus
    requires CPermutationIndexesPerBlock * rev as nat * combMult as nat < UInt32Modulus
    ensures shuffled as nat == Stage(blocks, used, rev as nat, combMult as nat, index as nat)
  {
    shuffled := index;
    var blockSize := (CPermutationIndexesPerBlock as uint32) * rev;
    assert blockSize as nat * combMult as nat == CPermutationIndexesPerBlock * rev as nat * combMult as nat;
    if index < blockSize * combMult {
      var baseQuot, baseRem := index / rev, index % rev;
      var blockQuot, blockRem := baseQuot / 20, baseQuot % 20;
      var permuted := blockQuot as nat * 20 + Slot(blocks, used, blockRem as nat);
      shuffled := ((permuted * rev as nat + baseRem as nat) % UInt32Modulus) as uint32;
    }
  }

  /**
   * `RepeatedShuffling` with the combine step `quot * 20 + p(rem)`: the
   * stages for divisors 1, 2, 4, ... over block 0, which `GetWheeledIndex`
   * uses for both repeated-shuffling modes. `mixedBlocks` and `setSize` are
   * unused, as in the source (its rotation is commented out). Multipliers
   * are those whose 20-fold fits 32 bits, as every stored multiplier
   * `setSize / 20` does.
   */
  method RepeatedShuffling(mixedBlocks: bool, setSize: uint32, index: uint32, permutationMultiplier: uint32, blocks: seq<byte>)
    returns (shuffled: uint32)
    requires CPermutationIndexesPerBlock * permutationMultiplier as nat < UInt32Modulus
    requires 0 < permutationMultiplier ==> CPermutationIndexesPerBlock <= |blocks|
    ensures shuffled as nat == StagesFrom(blocks, 0, 1, permutationMultiplier as nat, index as nat)
  {
    var revMultiplier: uint32 := 1;
    var combMult := permutationMultiplier;
    shuffled := index;
    while combMult > 0
      invariant 0 < revMultiplier
      invariant revMultiplier as nat * combMult as nat <= permutationMultiplier as nat
      invariant StagesFrom(blocks, 0, revMultiplier as nat, combMult as nat, shuffled as nat)
                == StagesFrom(blocks, 0, 1, permutationMultiplier as nat, index as nat)
      decreases combMult
    {
      StageFits(revMultiplier as nat, combMult as nat, permutationMultiplier as nat);
      shuffled := ShuffleStage(blocks, 0, revMultiplier, combMult, shuffled);
      HalvingBound(revMultiplier as nat, combMult as nat);
      revMultiplier := revMultiplier * 2;
      combMult := combMult / 2;
    }
  }

  /**
   * One stage of `RepeatedShuffling` as written: the combine step multiplies
   * the block's label into `quot * 20` instead of adding it.
   */
  function StageAsWritten(blocks: seq<byte>, rev: nat, combMult: nat, index: nat): (r: nat)
    requires 0 < rev && CPermutationIndexesPerBlock <= |blocks|
    ensures index < UInt32Modulus ==> r < UInt32Modulus
  {
    if index < CPermutationIndexesPerBlock * rev * combMult then
      var q := index / rev;
      ((q / 20 * 20) * Slot(blocks, 0, q % 20) * rev + index % rev) % UInt32Modulus
    else
      index
  }

  /** `RepeatedShuffling` as written, stage after stage. */
  function RepeatedShufflingAsWritten(blocks: seq<byte>, rev: nat, combMult: nat, index: nat): (r: nat)
    requires 0 < rev && CPermutationIndexesPerBlock <= |blocks|
    ensures index < UInt32Modulus ==> r < UInt32Modulus
    decreases combMult
  {
    if combMult == 0 then index
    else RepeatedShufflingAsWritten(blocks, 2 * rev, combMult / 2, StageAsWritten(blocks, rev, combMult, index))
  }

  /**
   * For a set of 21 to 39 indices (multiplier 1) the written stage sends
   * every index below 20 to 0, whatever block 0 holds; with the addition
   * the stage on a permuting block keeps indices 0 and 1 apart.
   */
  lemma RepeatedShufflingAsWrittenCollapses(blocks: seq<byte>)
    requires PermutesBlock(blocks, 0)
    ensures RepeatedShufflingAsWritten(blocks, 1, 1, 0) == 0
    ensures RepeatedShufflingAsWritten(blocks, 1, 1, 1) == 0
    ensures StagesFrom(blocks, 0, 1, 1, 0) != StagesFrom(blocks, 0, 1, 1, 1)
  {
    StageAsWrittenFirstBlock(blocks, 0);
    StageAsWrittenFirstBlock(blocks, 1);
    if StagesFrom(blocks, 0, 1, 1, 0) == StagesFrom(blocks, 0, 1, 1, 1) {
      StagesFromInjective(blocks, 0, 1, 1, 0, 1);
    }
  }

  /** With divisor 1 the written stage sends every index of the first 20 to 0. */
  lemma StageAsWrittenFirstBlock(blocks: seq<byte>, index: nat)
    requires CPermutationIndexesPerBlock <= |blocks| && index < CPermutationIndexesPerBlock
    ensures StageAsWritten(blocks, 1, 1, index) == 0
  {
    assert index / 1 == index && index % 1 == 0;
    assert index / 20 == 0;
  }

  /** `2^k`. */
  function Pow2(k: nat): (p: nat)
    ensures 1 <= p
  {
    if k == 0 then 1 else 2 * Pow2(k - 1)
  }

  /** The integer part of log2(n), for the double-precision `std::log2` the source rounds down. */
  function FloorLog2(n: nat): (k: nat)
    requires 0 < n
    ensures Pow2(k) <= n < 2 * Pow2(k)
  {
    if n < 2 then 0 else 1 + FloorLog2(n / 2)
  }

  /** The number of rounds: `3 + (log2(setSize) >> 1)`. */
  function ShuffleCount(setSize: nat): (rounds: nat)
    requires 0 < setSize
  {
    3 + FloorLog2(setSize) / 2
  }

  /** The block a round permutes with: round i uses block i mod the block count when mixing, block 0 otherwise. */
  function UsedBlock(mixedBlocks: bool, round: nat, numBlocks: nat): (c: nat)
    requires 0 < numBlocks
    ensures c < numBlocks
  {
    if mixedBlocks then round % numBlocks else 0
  }

  /** The half-turn between rounds: `(index + setSize / 2) % setSize`, without wrap-around. */
  function Rotate(setSize: nat, index: nat): (r: nat)
    requires 0 < setSize
    ensures r < setSize
  {
    (index + setSize / 2) % setSize
  }

  /** The half-turn sends no two indices of the set to the same place. */
  lemma RotateInjective(setSize: nat, x: nat, y: nat)
    requires x < setSize && y < setSize && Rotate(setSize, x) == Rotate(setSize, y)
    ensures x == y
  {
    var h := setSize / 2;
    ModBelowTwice(x + h, setSize);
    ModBelowTwice(y + h, setSize);
  }

  /** The half-turn as written: `index + (setSize >> 1)` is a 32-bit sum and wraps before the `%`. */
  function RotateAsWritten(setSize: uint32, index: uint32): (r: nat)
    requires 0 < setSize
    ensures r < setSize as nat
  {
    ((index as nat + setSize as nat / 2) % UInt32Modulus) % setSize as nat
  }

  /** While the sum fits 32 bits the written half-turn is the intended one. */
  lemma RotateAsWrittenAgrees(setSize: uint32, index: uint32)
    requires 0 < setSize && index as nat + setSize as nat / 2 < UInt32Modulus
    ensures RotateAsWritten(setSize, index) == Rotate(setSize as nat, index as nat)
  {
  }

  /**
   * For a set of 2^32 - 1 indices the written half-turn sends both 2^31 and
   * 2^31 + 1 to 0: the second sum wraps to 0. The intended half-turn keeps
   * them apart.
   */
  lemma RotateAsWrittenCollides()
    ensures RotateAsWritten(0xFFFF_FFFF, 0x8000_0000) == 0
    ensures RotateAsWritten(0xFFFF_FFFF, 0x8000_0001) == 0
    ensures Rotate(0xFFFF_FFFF, 0x8000_0000) != Rotate(0xFFFF_FFFF, 0x8000_0001)
  {
  }

  /**
   * Rounds `round`, `round + 1`, ... of `ShuffleContinuousBatch` out of
   * `shuffles`: each round runs the stages for divisors 1, 2, 4, ... over
   * its block, and every round but the last ends with the half-turn.
   */
  function BatchFrom(blocks: seq<byte>, numBlocks: nat, mixedBlocks: bool, setSize: nat, permutationMultiplier: nat,
                     shuffles: nat, round: nat, index: nat): (r: nat)
    requires 0 < setSize && 0 < numBlocks && CPermutationIndexesPerBlock * numBlocks <= |blocks|
    decreases shuffles - round
  {
    var shuffled := StagesFrom(blocks, UsedBlock(mixedBlocks, round, numBlocks), 1, permutationMultiplier, index);
    if round + 1 >= shuffles then shuffled
    else BatchFrom(blocks, numBlocks, mixedBlocks, setSize, permutationMultiplier, shuffles, round + 1, Rotate(setSize, shuffled))
  }

  /** What `ShuffleContinuousBatch` computes for `index`. */
  function ContinuousBatch(blocks: seq<byte>, numBlocks: nat, mixedBlocks: bool, setSize: nat, permutationMultiplier: nat,
                           index: nat): (r: nat)
    requires 0 < setSize && 0 < numBlocks && CPermutationIndexesPerBlock * numBlocks <= |blocks|
  {
    BatchFrom(blocks, numBlocks, mixedBlocks, setSize, permutationMultiplier, ShuffleCount(setSize), 0, index)
  }

  /** Every block of the flat array permutes 0..19. */
  predicate AllBlocksPermute(blocks: seq<byte>, numBlocks: nat)
  {
    forall c :: 0 <= c < numBlocks ==> PermutesBlock(blocks, c)
  }

  /** With permuting blocks and stages inside the set, every round keeps the set's indices inside it. */
  lemma {:induction false} BatchFromWithin(blocks: seq<byte>, numBlocks: nat, mixedBlocks: bool, setSize: nat,
                                           permutationMultiplier: nat, shuffles: nat, round: nat, index: nat)
    requires 0 < setSize < UInt32Modulus && 0 < numBlocks && CPermutationIndexesPerBlock * numBlocks <= |blocks|
    requires AllBlocksPermute(blocks, numBlocks) && CPermutationIndexesPerBlock * permutationMultiplier <= setSize
    requires index < setSize
    ensures BatchFrom(blocks, numBlocks, mixedBlocks, setSize, permutationMultiplier, shuffles, round, index) < setSize
    decreases shuffles - round
  {
    var used := UsedBlock(mixedBlocks, round, numBlocks);
    StagesFromWithin(blocks, used, 1, permutationMultiplier, setSize, index);
    if round + 1 < shuffles {
      var shuffled := StagesFrom(blocks, used, 1, permutationMultiplier, index);
      BatchFromWithin(blocks, numBlocks, mixedBlocks, setSize, permutationMultiplier, shuffles, round + 1, Rotate(setSize, shuffled));
    }
  }

  /** With permuting blocks and stages inside the set, no two indices of the set end in the same place. */
  lemma {:induction false} BatchFromInjective(blocks: seq<byte>, numBlocks: nat, mixedBlocks: bool, setSize: nat,
                                              permutationMultiplier: nat, shuffles: nat, round: nat, x: nat, y: nat)
    requires 0 < setSize < UInt32Modulus && 0 < numBlocks && CPermutationIndexesPerBlock * numBlocks <= |blocks|
    requires AllBlocksPermute(blocks, numBlocks) && CPermutationIndexesPerBlock * permutationMultiplier <= setSize
    requires x < setSize && y < setSize
    requires BatchFrom(blocks, numBlocks, mixedBlocks, setSize, permutationMultiplier, shuffles, round, x)
             == BatchFrom(blocks, numBlocks, mixedBlocks, setSize, permutationMultiplier, shuffles, round, y)
    ensures x == y
    decreases shuffles - round
  {
    var used := UsedBlock(mixedBlocks, round, numBlocks);
    var sx := StagesFrom(blocks, used, 1, permutationMultiplier, x);
    var sy := StagesFrom(blocks, used, 1, permutationMultiplier, y);
    if round + 1 < shuffles {
      StagesFromWithin(blocks, used, 1, permutationMultiplier, setSize, x);
      StagesFromWithin(blocks, used, 1, permutationMultiplier, setSize, y);
      BatchFromInjective(blocks, numBlocks, mixedBlocks, setSize, permutationMultiplier, shuffles, round + 1,
        Rotate(setSize, sx), Rotate(setSize, sy));
      RotateInjective(setSize, sx, sy);
    }
    StagesFromInjective(blocks, used, 1, permutationMultiplier, x, y);
  }

  /**
   * `ShuffleContinuousBatch`: `shuffles` rounds, each the first stage over
   * 20 * multiplier indices, then the stages for divisors 2, 4, ... with
   * the multiplier halved, then (but after the last round) the half-turn.
   * The double `log2` of the round count is taken as its integer part, and
   * `std::ldiv` works on non-negative values only.
   */
  method ShuffleContinuousBatch(mixedBlocks: bool, setSize: uint32, index: uint32, permutationMultiplier: uint32,
                                blocks: seq<byte>, numBlocks: nat)
    returns (shuffled: uint32)
    requires 0 < setSize && 0 < numBlocks && |blocks| == CPermutationIndexesPerBlock * numBlocks
    requires CPermutationIndexesPerBlock * permutationMultiplier as nat < UInt32Modulus
    ensures shuffled as nat == ContinuousBatch(blocks, numBlocks, mixedBlocks, setSize as nat, permutationMultiplier as nat, index as nat)
  {
    var shuffles := ShuffleCount(setSize as nat);
    var i: nat := 0;
    shuffled := index;
    while true
      invariant i < shuffles
      invariant BatchFrom(blocks, numBlocks, mixedBlocks, setSize as nat, permutationMultiplier as nat, shuffles, i, shuffled as nat)
                == ContinuousBatch(blocks, numBlocks, mixedBlocks, setSize as nat, permutationMultiplier as nat, index as nat)
      decreases shuffles - i
    {
      var usedBlock := UsedBlock(mixedBlocks, i, numBlocks);
      shuffled := ShuffleRound(blocks, usedBlock, permutationMultiplier, shuffled);
      i := i + 1;
      if i >= shuffles {
        break;
      }
      shuffled := Rotate(setSize as nat, shuffled as nat) as uint32;
    }
  }

  /**
   * One round of `ShuffleContinuousBatch`'s outer loop: the first stage over
   * 20 * multiplier indices with block `usedBlock`, then the stages for
   * divisors 2, 4, ... with the multiplier halved each time.
   */
  method ShuffleRound(blocks: seq<byte>, usedBlock: nat, permutationMultiplier: uint32, index: uint32)
    returns (shuffled: uint32)
    requires CPermutationIndexesPerBlock * (usedBlock + 1) <= |blocks|
    requires CPermutationIndexesPerBlock * permutationMultiplier as nat < UInt32Modulus
    ensures shuffled as nat == StagesFrom(blocks, usedBlock, 1, permutationMultiplier as nat, index as nat)
  {
    shuffled := ShuffleStage(blocks, usedBlock, 1, permutationMultiplier, index);
    var revMultiplier: uint32 := 2;
    var combMult := permutationMultiplier / 2;
    HalvingBound(1, permutationMultiplier as nat);
    while combMult > 0
      invariant 0 < revMultiplier
      invariant revMultiplier as nat * combMult as nat <= permutationMultiplier as nat
      invariant StagesFrom(blocks, usedBlock, revMultiplier as nat, combMult as nat, shuffled as nat)
                == StagesFrom(blocks, usedBlock, 1, permutationMultiplier as nat, index as nat)
      decreases combMult
    {
      StageFits(revMultiplier as nat, combMult as nat, permutationMultiplier as nat);
      shuffled := ShuffleStage(blocks, usedBlock, revMultiplier, combMult, shuffled);
      HalvingBound(revMultiplier as nat, combMult as nat);
      revMultiplier := revMultiplier * 2;
      combMult := combMult / 2;
    }
  }

  /**
   * A map of 0..n-1 into itself that sends no two indices to the same place
   * reaches every index.
   */
  lemma InjectiveIsOnto(image: seq<int>)
    requires forall i :: 0 <= i < |image| ==> 0 <= image[i] < |image|
    requires forall i, j :: 0 <= i < j < |image| ==> image[i] != image[j]
    ensures forall y :: 0 <= y < |image| ==> y in image
  {
    var n := |image|;
    var positions := seq(n, i => i);
    var values := set i | 0 <= i < n :: image[i];
    var range := set i | 0 <= i < n :: positions[i];
    DistinctValuesCount(image);
    DistinctValuesCount(positions);
    assert values <= range by {
      forall v | v in values
        ensures v in range
      {
        var i :| 0 <= i < n && image[i] == v;
        assert positions[v] == v;
      }
    }
    forall y | 0 <= y < n
      ensures y in image
    {
      assert positions[y] == y;
      if y !in values {
        SubsetCard(values, range - {y});
      } else {
        var i :| 0 <= i < n && image[i] == y;
      }
    }
  }

  lemma SubsetCard(a: set<int>, b: set<int>)
    requires a <= b
    ensures |a| <= |b|
  {
    assert b == a + (b - a);
  }

  /** A sequence without repeats has as many distinct values as entries. */
  lemma {:induction false} DistinctValuesCount(image: seq<int>)
    requires forall i, j :: 0 <= i < j < |image| ==> image[i] != image[j]
    ensures |set i | 0 <= i < |image| :: image[i]| == |image|
  {
    if |image| > 0 {
      var init := image[..|image| - 1];
      DistinctValuesCount(init);
      assert (set i | 0 <= i < |image| :: image[i]) == (set i | 0 <= i < |init| :: init[i]) + {image[|image| - 1]};
    }
  }

  /** Some index of the set is sent to y by `ShuffleContinuousBatch`. */
  ghost predicate BatchReaches(blocks: seq<byte>, numBlocks: nat, mixedBlocks: bool, setSize: nat, permutationMultiplier: nat, y: nat)
    requires 0 < setSize && 0 < numBlocks && CPermutationIndexesPerBlock * numBlocks <= |blocks|
  {
    exists x :: 0 <= x < setSize && ContinuousBatch(blocks, numBlocks, mixedBlocks, setSize, permutationMultiplier, x) == y
  }

  /**
   * `ShuffleContinuousBatch` on permuting blocks, with the multiplier's 20
   * indices per unit inside the set, permutes the set: every index of the
   * set lands in it, no two land together, and every index is reached.
   */
  lemma ContinuousBatchPermutes(blocks: seq<byte>, numBlocks: nat, mixedBlocks: bool, setSize: nat, permutationMultiplier: nat)
    requires 0 < setSize < UInt32Modulus && 0 < numBlocks && CPermutationIndexesPerBlock * numBlocks <= |blocks|
    requires AllBlocksPermute(blocks, numBlocks) && CPermutationIndexesPerBlock * permutationMultiplier <= setSize
    ensures forall x :: 0 <= x < setSize ==>
              ContinuousBatch(blocks, numBlocks, mixedBlocks, setSize, permutationMultiplier, x) < setSize
    ensures forall x, y :: 0 <= x < y < setSize ==>
              ContinuousBatch(blocks, numBlocks, mixedBlocks, setSize, permutationMultiplier, x)
              != ContinuousBatch(blocks, numBlocks, mixedBlocks, setSize, permutationMultiplier, y)
    ensures forall y :: 0 <= y < setSize ==> BatchReaches(blocks, numBlocks, mixedBlocks, setSize, permutationMultiplier, y)
  {
    ContinuousBatchWithin(blocks, numBlocks, mixedBlocks, setSize, permutationMultiplier);
    ContinuousBatchInjective(blocks, numBlocks, mixedBlocks, setSize, permutationMultiplier);
    var image := seq(setSize, x requires 0 <= x < setSize =>
                       ContinuousBatch(blocks, numBlocks, mixedBlocks, setSize, permutationMultiplier, x));
    InjectiveIsOnto(image);
    forall y | 0 <= y < setSize
      ensures BatchReaches(blocks, numBlocks, mixedBlocks, setSize, permutationMultiplier, y)
    {
      assert y in image;
      var x :| 0 <= x < |image| && image[x] == y;
    }
  }

  lemma ContinuousBatchWithin(blocks: seq<byte>, numBlocks: nat, mixedBlocks: bool, setSize: nat, permutationMultiplier: nat)
    requires 0 < setSize < UInt32Modulus && 0 < numBlocks && CPermutationIndexesPerBlock * numBlocks <= |blocks|
    requires AllBlocksPermute(blocks, numBlocks) && CPermutationIndexesPerBlock * permutationMultiplier <= setSize
    ensures forall x :: 0 <= x < setSize ==>
              ContinuousBatch(blocks, numBlocks, mixedBlocks, setSize, permutationMultiplier, x) < setSize
  {
    forall x | 0 <= x < setSize
      ensures ContinuousBatch(blocks, numBlocks, mixedBlocks, setSize, permutationMultiplier, x) < setSize
    {
      BatchFromWithin(blocks, numBlocks, mixedBlocks, setSize, permutationMultiplier, ShuffleCount(setSize), 0, x);
    }
  }

  lemma ContinuousBatchInjective(blocks: seq<byte>, numBlocks: nat, mixedBlocks: bool, setSize: nat, permutationMultiplier: nat)
    requires 0 < setSize < UInt32Modulus && 0 < numBlocks && CPermutationIndexesPerBlock * numBlocks <= |blocks|
    requires AllBlocksPermute(blocks, numBlocks) && CPermutationIndexesPerBlock * permutationMultiplier <= setSize
    ensures forall x, y :: 0 <= x < y < setSize ==>
              ContinuousBatch(blocks, numBlocks, mixedBlocks, setSize, permutationMultiplier, x)
              != ContinuousBatch(blocks, numBlocks, mixedBlocks, setSize, permutationMultiplier, y)
  {
    forall x, y | 0 <= x < y < setSize
      ensures ContinuousBatch(blocks, numBlocks, mixedBlocks, setSize, permutationMultiplier, x)
              != ContinuousBatch(blocks, numBlocks, mixedBlocks, setSize, permutationMultiplier, y)
    {
      if ContinuousBatch(blocks, numBlocks, mixedBlocks, setSize, permutationMultiplier, x)
         == ContinuousBatch(blocks, numBlocks, mixedBlocks, setSize, permutationMultiplier, y) {
        BatchFromInjective(blocks, numBlocks, mixedBlocks, setSize, permutationMultiplier, ShuffleCount(setSize), 0, x, y);
      }
    }
  }

  /** Some index of the set is sent to y by the stages for divisors 1, 2, 4, ... */
  ghost predicate StagesReach(blocks: seq<byte>, setSize: nat, permutationMultiplier: nat, y: nat)
    requires CPermutationIndexesPerBlock <= |blocks|
  {
    exists x :: 0 <= x < setSize && StagesFrom(blocks, 0, 1, permutationMultiplier, x) == y
  }

  /**
   * The stages for divisors 1, 2, 4, ... on a permuting block 0, with the
   * multiplier's 20 indices per unit inside the set, permute the set.
   */
  lemma RepeatedShufflingPermutes(blocks: seq<byte>, setSize: nat, permutationMultiplier: nat)
    requires setSize < UInt32Modulus && PermutesBlock(blocks, 0) && CPermutationIndexesPerBlock * permutationMultiplier <= setSize
    ensures forall x :: 0 <= x < setSize ==> StagesFrom(blocks, 0, 1, permutationMultiplier, x) < setSize
    ensures forall x, y :: 0 <= x < y < setSize ==>
              StagesFrom(blocks, 0, 1, permutationMultiplier, x) != StagesFrom(blocks, 0, 1, permutationMultiplier, y)
    ensures forall y :: 0 <= y < setSize ==> StagesReach(blocks, setSize, permutationMultiplier, y)
  {
    StagesWithinSet(blocks, setSize, permutationMultiplier);
    StagesInjectiveOnSet(blocks, setSize, permutationMultiplier);
    var image := seq(setSize, x requires 0 <= x < setSize => StagesFrom(blocks, 0, 1, permutationMultiplier, x));
    InjectiveIsOnto(image);
    forall y | 0 <= y < setSize
      ensures StagesReach(blocks, setSize, permutationMultiplier, y)
    {
      assert y in image;
      var x :| 0 <= x < |image| && image[x] == y;
    }
  }

  lemma StagesWithinSet(blocks: seq<byte>, setSize: nat, permutationMultiplier: nat)
    requires setSize < UInt32Modulus && PermutesBlock(blocks, 0) && CPermutationIndexesPerBlock * permutationMultiplier <= setSize
    ensures forall x :: 0 <= x < setSize ==> StagesFrom(blocks, 0, 1, permutationMultiplier, x) < setSize
  {
    forall x | 0 <= x < setSize
      ensures StagesFrom(blocks, 0, 1, permutationMultiplier, x) < setSize
    {
      StagesFromWithin(blocks, 0, 1, permutationMultiplier, setSize, x);
    }
  }

  lemma StagesInjectiveOnSet(blocks: seq<byte>, setSize: nat, permutationMultiplier: nat)
    requires setSize < UInt32Modulus && PermutesBlock(blocks, 0) && CPermutationIndexesPerBlock * permutationMultiplier <= setSize
    ensures forall x, y :: 0 <= x < y < setSize ==>
              StagesFrom(blocks, 0, 1, permutationMultiplier, x) != StagesFrom(blocks, 0, 1, permutationMultiplier, y)
  {
    forall x, y | 0 <= x < y < setSize
      ensures StagesFrom(blocks, 0, 1, permutationMultiplier, x) != StagesFrom(blocks, 0, 1, permutationMultiplier, y)
    {
      if StagesFrom(blocks, 0, 1, permutationMultiplier, x) == StagesFrom(blocks, 0, 1, permutationMultiplier, y) {
        StagesFromInjective(blocks, 0, 1, permutationMultiplier, x, y);
      }
    }
  }
}
