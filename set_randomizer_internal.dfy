/**
 * The engine behind a set randomizer: it classifies the set size into a
 * shuffle mode, fills the permutation blocks for that mode, and answers
 * "where does index i go" from the mode and the blocks alone.
 *
 * The blocks of a randomizer with N blocks are one flat array of 20 * N
 * bytes, block c occupying slots 20 * c .. 20 * c + 19.
 */
module SetRandomizerEngine {
  import opened Factoradics
  import opened FactoradicBuilder
  import Shuffling

  /** How the blocks answer a query; `None` answers every index of the set with the last one. */
  datatype ShuffleMode =
    | None
    | CoinFlip
    | Permutation
    | PermutationExtended
    | RepeatedShuffling
    | RepeatedShufflingWithBlockMixing

  /** The number of positions the block table covers: MaxFactorial of its last block. */
  const CMaxExtendedSetSize: nat := 254

  /**
   * The block `Randomize` extends over for a set of 21 .. 254 labels: the
   * first whose MaxFactorial reaches the set size.
   */
  function ExtendedBlock(setSize: nat): (k: nat)
    requires CPermutationIndexesPerBlock < setSize <= CMaxExtendedSetSize
    ensures 0 < k < CNumBlock
    ensures MinSetPositionOf(k) < setSize <= MaxFactorialOf(k)
    ensures FillableCount(k, setSize)
  {
    BlockTableContiguous(CNumBlock - 1);
    BlockOfPositionBounds(setSize - 1);
    BlockTableContiguous(0);
    BlockOfPosition(setSize - 1)
  }

  /**
   * The mode `Randomize` settles on for a set size and a number of blocks:
   * none below two labels, a coin flip for two, one block up to 20 labels,
   * extended blocks up to the table's end when enough blocks are there (and
   * none when they are not), and the shuffling network with every block
   * mixed beyond.
   */
  function ModeFor(setSize: nat, numBlocks: nat): (mode: ShuffleMode)
  {
    if setSize < 2 then None
    else if setSize == 2 then CoinFlip
    else if setSize <= CPermutationIndexesPerBlock then Permutation
    else if setSize <= CMaxExtendedSetSize then
      (if ExtendedBlock(setSize) < numBlocks then PermutationExtended else None)
    else RepeatedShufflingWithBlockMixing
  }

  /** The mode `RandomizeSingleBlock` settles on: no extended blocks, one block shuffled beyond 20 labels. */
  function SingleBlockModeFor(setSize: nat): (mode: ShuffleMode)
  {
    if setSize < 2 then None
    else if setSize == 2 then CoinFlip
    else if setSize <= CPermutationIndexesPerBlock then Permutation
    else RepeatedShuffling
  }

  /**
   * For a set of 21 .. 254 labels the small path falls back to `None`
   * exactly when the blocks end below the set size, even though the source
   * calls that point unreachable.
   */
  lemma SmallPathFallsBackToNone(setSize: nat, numBlocks: nat)
    requires CPermutationIndexesPerBlock < setSize <= CMaxExtendedSetSize && WithinPermutationBlockBounds(numBlocks)
    ensures ModeFor(setSize, numBlocks) == None <==> MaxFactorialOf(numBlocks - 1) < setSize
  {
    var k := ExtendedBlock(setSize);
    if k < numBlocks {
      if k < numBlocks - 1 {
        BlockMaxIncreasing(k, numBlocks - 1);
      }
    } else {
      if numBlocks - 1 < k {
        BlockEndsBefore(numBlocks - 1, k);
      }
    }
  }

  /** A single block holds too few labels for 21: the small path answers it with `None`. */
  lemma SmallPathFallbackExample()
    ensures ModeFor(21, 1) == None
    ensures ModeFor(21, 2) == PermutationExtended
  {
    SmallPathFallsBackToNone(21, 1);
    SmallPathFallsBackToNone(21, 2);
    BlockTableContiguous(0);
    BlockTableContiguous(1);
  }

  /** The flat array of `numBlocks` permutation blocks. */
  predicate BlockArray(blocks: seq<byte>, numBlocks: nat)
  {
    0 < numBlocks && |blocks| == CPermutationIndexesPerBlock * numBlocks
  }

  /**
   * What the blocks hold once a mode is set: the coin for a coin flip, a
   * permutation of the set in block 0's first slots or across the extended
   * blocks 0 .. k, and permutations of 0 .. 19 in the blocks the shuffling
   * network reads, with the multiplier at setSize / 20.
   */
  ghost predicate Randomized(setSize: nat, numBlocks: nat, mode: ShuffleMode, permutationMultiplier: nat, blocks: seq<byte>)
    requires BlockArray(blocks, numBlocks)
  {
    match mode
    case None => true
    case CoinFlip => setSize == 2 && blocks[0] < 2
    case Permutation =>
      3 <= setSize <= CPermutationIndexesPerBlock && multiset(blocks[..setSize]) == multiset(Iota(setSize))
    case PermutationExtended =>
      CPermutationIndexesPerBlock < setSize <= CMaxExtendedSetSize && ExtendedBlock(setSize) < numBlocks
      && multiset(FilledSlots(blocks, ExtendedBlock(setSize), setSize)) == multiset(Iota(setSize))
    case RepeatedShuffling =>
      CPermutationIndexesPerBlock < setSize && permutationMultiplier == setSize / CPermutationIndexesPerBlock
      && Shuffling.PermutesBlock(blocks, 0)
    case RepeatedShufflingWithBlockMixing =>
      CPermutationIndexesPerBlock < setSize && permutationMultiplier == setSize / CPermutationIndexesPerBlock
      && Shuffling.AllBlocksPermute(blocks, numBlocks)
  }

  /** The coin flip's answer, `(index ^ bit) & 1`. */
  function CoinFlipRead(index: uint32, bit: byte): (r: nat)
    ensures r < 2
  {
    ((index as bv32 ^ bit as bv32) & 1) as nat
  }

  /**
   * The extended read: the first block whose MaxFactorial lies above the
   * index, at offset index - MinSetPosition; an index past every available
   * block is answered with itself.
   */
  function ExtendedRead(blocks: seq<byte>, numBlocks: nat, index: nat): (r: nat)
    requires BlockArray(blocks, numBlocks)
  {
    if index < CMaxExtendedSetSize && BlockOfPosition(index) < numBlocks then
      BlockOfPositionBounds(index);
      PositionUpToBlock(index, BlockOfPosition(index));
      blocks[SlotOfPosition(index)] as nat
    else
      index
  }

  /**
   * `GetWheeledIndex` with the pass-through test corrected to
   * `index >= setSize`: indices outside the set pass, and inside it the
   * mode picks the answer. Both shuffling modes use the stages with the
   * label added (`Shuffling.StagesFrom`), on block 0.
   */
  function WheeledIndex(setSize: uint32, numBlocks: nat, mode: ShuffleMode, permutationMultiplier: nat,
                        blocks: seq<byte>, index: uint32): (r: nat)
    requires BlockArray(blocks, numBlocks)
    requires mode == Permutation ==> setSize as nat <= CPermutationIndexesPerBlock
  {
    if index >= setSize then index as nat
    else match mode
      case None => setSize as nat - 1
      case CoinFlip => CoinFlipRead(index, blocks[0])
      case Permutation => blocks[index] as nat
      case PermutationExtended => ExtendedRead(blocks, numBlocks, index as nat)
      case RepeatedShuffling => Shuffling.StagesFrom(blocks, 0, 1, permutationMultiplier, index as nat)
      case RepeatedShufflingWithBlockMixing => Shuffling.StagesFrom(blocks, 0, 1, permutationMultiplier, index as nat)
  }

  /** Some index of the set is answered with y. */
  ghost predicate WheelReaches(setSize: uint32, numBlocks: nat, mode: ShuffleMode, permutationMultiplier: nat,
                               blocks: seq<byte>, y: nat)
    requires BlockArray(blocks, numBlocks)
    requires mode == Permutation ==> setSize as nat <= CPermutationIndexesPerBlock
  {
    exists x: uint32 :: x < setSize && WheeledIndex(setSize, numBlocks, mode, permutationMultiplier, blocks, x) == y
  }

  /** In mode `None` every index of the set is answered with the last one. */
  lemma WheeledIndexNoneIsConstant(setSize: uint32, numBlocks: nat, permutationMultiplier: nat, blocks: seq<byte>, x: uint32)
    requires BlockArray(blocks, numBlocks) && x < setSize
    ensures WheeledIndex(setSize, numBlocks, None, permutationMultiplier, blocks, x) == setSize as nat - 1
  {
  }

  /** What a query answers inside the set: each index lands in the set, no two together, and every index is reached. */
  ghost predicate PermutesSet(setSize: uint32, numBlocks: nat, mode: ShuffleMode, permutationMultiplier: nat, blocks: seq<byte>)
    requires BlockArray(blocks, numBlocks)
    requires mode == Permutation ==> setSize as nat <= CPermutationIndexesPerBlock
  {
    (forall x: uint32 :: x < setSize ==>
       WheeledIndex(setSize, numBlocks, mode, permutationMultiplier, blocks, x) < setSize as nat)
    && (forall x: uint32, y: uint32 :: x < y < setSize ==>
          WheeledIndex(setSize, numBlocks, mode, permutationMultiplier, blocks, x)
          != WheeledIndex(setSize, numBlocks, mode, permutationMultiplier, blocks, y))
    && (forall y: nat :: y < setSize as nat ==> WheelReaches(setSize, numBlocks, mode, permutationMultiplier, blocks, y))
  }

  /** Every label of 0 .. n - 1 occurs in a reordering of them. */
  lemma IotaPermutationReaches(t: seq<byte>, n: nat, y: nat)
    requires n <= 0x100 && multiset(t) == multiset(Iota(n)) && y < n
    ensures exists i :: 0 <= i < |t| && t[i] as nat == y
  {
    assert Iota(n)[y] as nat == y;
    assert y as byte in multiset(Iota(n));
    assert y as byte in t;
  }

  /** The coin flip swaps 0 and 1 when the coin is 1 and keeps them when it is 0. */
  lemma CoinFlipReads(bit: byte)
    requires bit < 2
    ensures CoinFlipRead(0, bit) == bit as nat && CoinFlipRead(1, bit) == 1 - bit as nat
  {
    if bit == 0 {
      assert (0 as bv32 ^ 0 as bv32) & 1 == 0;
      assert (1 as bv32 ^ 0 as bv32) & 1 == 1;
    } else {
      assert (0 as bv32 ^ 1 as bv32) & 1 == 1;
      assert (1 as bv32 ^ 1 as bv32) & 1 == 0;
    }
  }

  lemma CoinFlipPermutes(setSize: uint32, numBlocks: nat, permutationMultiplier: nat, blocks: seq<byte>)
    requires BlockArray(blocks, numBlocks) && Randomized(setSize as nat, numBlocks, CoinFlip, permutationMultiplier, blocks)
    ensures PermutesSet(setSize, numBlocks, CoinFlip, permutationMultiplier, blocks)
  {
    CoinFlipReads(blocks[0]);
    forall y: nat | y < setSize as nat
      ensures WheelReaches(setSize, numBlocks, CoinFlip, permutationMultiplier, blocks, y)
    {
      var x: uint32 := if y == blocks[0] as nat then 0 else 1;
      assert WheeledIndex(setSize, numBlocks, CoinFlip, permutationMultiplier, blocks, x) == y;
    }
  }

  lemma PermutationPermutes(setSize: uint32, numBlocks: nat, permutationMultiplier: nat, blocks: seq<byte>)
    requires BlockArray(blocks, numBlocks) && Randomized(setSize as nat, numBlocks, Permutation, permutationMultiplier, blocks)
    ensures PermutesSet(setSize, numBlocks, Permutation, permutationMultiplier, blocks)
  {
    var n := setSize as nat;
    var t := blocks[..n];
    PermutationOfIota(t, n);
    assert forall x: uint32 :: x < setSize ==>
      WheeledIndex(setSize, numBlocks, Permutation, permutationMultiplier, blocks, x) == t[x] as nat;
    forall y: nat | y < n
      ensures WheelReaches(setSize, numBlocks, Permutation, permutationMultiplier, blocks, y)
    {
      IotaPermutationReaches(t, n, y);
      var i :| 0 <= i < |t| && t[i] as nat == y;
      assert WheeledIndex(setSize, numBlocks, Permutation, permutationMultiplier, blocks, i as uint32) == y;
    }
  }

  /** Inside block k's range the extended read is the label `FilledSlot` places at that position. */
  lemma ExtendedReadIsFilledSlot(blocks: seq<byte>, numBlocks: nat, k: nat, x: nat)
    requires BlockArray(blocks, numBlocks) && k < numBlocks && k < CNumBlock && x < MaxFactorialOf(k)
    ensures ExtendedRead(blocks, numBlocks, x) == FilledSlot(blocks, k, x) as nat
  {
    PositionUpToBlock(x, k);
  }

  lemma PermutationExtendedPermutes(setSize: uint32, numBlocks: nat, permutationMultiplier: nat, blocks: seq<byte>)
    requires BlockArray(blocks, numBlocks)
    requires Randomized(setSize as nat, numBlocks, PermutationExtended, permutationMultiplier, blocks)
    ensures PermutesSet(setSize, numBlocks, PermutationExtended, permutationMultiplier, blocks)
  {
    var n := setSize as nat;
    var k := ExtendedBlock(n);
    var t := FilledSlots(blocks, k, n);
    PermutationOfIota(t, n);
    forall x: uint32 | x < setSize
      ensures WheeledIndex(setSize, numBlocks, PermutationExtended, permutationMultiplier, blocks, x) == t[x] as nat
    {
      ExtendedReadIsFilledSlot(blocks, numBlocks, k, x as nat);
    }
    forall y: nat | y < n
      ensures WheelReaches(setSize, numBlocks, PermutationExtended, permutationMultiplier, blocks, y)
    {
      IotaPermutationReaches(t, n, y);
      var i :| 0 <= i < |t| && t[i] as nat == y;
      assert WheeledIndex(setSize, numBlocks, PermutationExtended, permutationMultiplier, blocks, i as uint32) == y;
    }
  }

  lemma ShufflingPermutes(setSize: uint32, numBlocks: nat, mode: ShuffleMode, permutationMultiplier: nat, blocks: seq<byte>)
    requires BlockArray(blocks, numBlocks)
    requires mode == RepeatedShuffling || mode == RepeatedShufflingWithBlockMixing
    requires Randomized(setSize as nat, numBlocks, mode, permutationMultiplier, blocks)
    ensures PermutesSet(setSize, numBlocks, mode, permutationMultiplier, blocks)
  {
    var n := setSize as nat;
    assert Shuffling.PermutesBlock(blocks, 0);
    assert CPermutationIndexesPerBlock * permutationMultiplier <= n;
    Shuffling.RepeatedShufflingPermutes(blocks, n, permutationMultiplier);
    assert forall x: uint32 :: x < setSize ==>
      WheeledIndex(setSize, numBlocks, mode, permutationMultiplier, blocks, x)
      == Shuffling.StagesFrom(blocks, 0, 1, permutationMultiplier, x as nat);
    forall y: nat | y < n
      ensures WheelReaches(setSize, numBlocks, mode, permutationMultiplier, blocks, y)
    {
      assert Shuffling.StagesReach(blocks, n, permutationMultiplier, y);
      var x :| 0 <= x < n && Shuffling.StagesFrom(blocks, 0, 1, permutationMultiplier, x) == y;
      assert WheeledIndex(setSize, numBlocks, mode, permutationMultiplier, blocks, x as uint32) == y;
    }
  }

  /**
   * Once the blocks hold what their mode needs, every mode but `None`
   * answers the indices of the set with a permutation of the set, and
   * every index outside it with itself.
   */
  lemma WheeledIndexPermutes(setSize: uint32, numBlocks: nat, mode: ShuffleMode, permutationMultiplier: nat, blocks: seq<byte>)
    requires BlockArray(blocks, numBlocks) && mode != None
    requires Randomized(setSize as nat, numBlocks, mode, permutationMultiplier, blocks)
    ensures mode == Permutation ==> setSize as nat <= CPermutationIndexesPerBlock
    ensures PermutesSet(setSize, numBlocks, mode, permutationMultiplier, blocks)
    ensures forall x: uint32 :: setSize <= x ==>
              WheeledIndex(setSize, numBlocks, mode, permutationMultiplier, blocks, x) == x as nat
  {
    match mode
    case CoinFlip => CoinFlipPermutes(setSize, numBlocks, permutationMultiplier, blocks);
    case Permutation => PermutationPermutes(setSize, numBlocks, permutationMultiplier, blocks);
    case PermutationExtended => PermutationExtendedPermutes(setSize, numBlocks, permutationMultiplier, blocks);
    case RepeatedShuffling => ShufflingPermutes(setSize, numBlocks, mode, permutationMultiplier, blocks);
    case RepeatedShufflingWithBlockMixing => ShufflingPermutes(setSize, numBlocks, mode, permutationMultiplier, blocks);
  }

  /** A query's answer as written: a value, or a read beyond the block the source indexes. */
  datatype WheelAnswer = Answer(value: nat) | ReadPastBlock(slot: nat)

  /**
   * `GetWheeledIndex` as written: only `index > setSize` passes, so the
   * index equal to the set size is answered by the mode; `setSize - 1`
   * wraps in 32 bits; and both shuffling modes run the stages that multiply
   * the label in.
   */
  function WheeledIndexAsWritten(setSize: uint32, numBlocks: nat, mode: ShuffleMode, permutationMultiplier: nat,
                                 blocks: seq<byte>, index: uint32): (r: WheelAnswer)
    requires BlockArray(blocks, numBlocks)
  {
    if index > setSize then Answer(index as nat)
    else match mode
      case None => Answer((setSize as int - 1) % Shuffling.UInt32Modulus)
      case CoinFlip => Answer(CoinFlipRead(index, blocks[0]))
      case Permutation =>
        if index as nat < CPermutationIndexesPerBlock then Answer(blocks[index] as nat) else ReadPastBlock(index as nat)
      case PermutationExtended => Answer(ExtendedRead(blocks, numBlocks, index as nat))
      case RepeatedShuffling => Answer(Shuffling.RepeatedShufflingAsWritten(blocks, 1, permutationMultiplier, index as nat))
      case RepeatedShufflingWithBlockMixing =>
        Answer(Shuffling.RepeatedShufflingAsWritten(blocks, 1, permutationMultiplier, index as nat))
  }

  /** Below the set size, and for the modes that read no block past it, the two agree. */
  lemma WheeledIndexAsWrittenAgreesInside(setSize: uint32, numBlocks: nat, mode: ShuffleMode, permutationMultiplier: nat,
                                          blocks: seq<byte>, index: uint32)
    requires BlockArray(blocks, numBlocks) && index < setSize
    requires mode == Permutation ==> setSize as nat <= CPermutationIndexesPerBlock
    requires mode != RepeatedShuffling && mode != RepeatedShufflingWithBlockMixing
    ensures WheeledIndexAsWritten(setSize, numBlocks, mode, permutationMultiplier, blocks, index)
            == Answer(WheeledIndex(setSize, numBlocks, mode, permutationMultiplier, blocks, index))
  {
  }

  /**
   * The index equal to the set size is not passed through: a full block of
   * 20 labels in `Permutation` mode reads slot 20, past block 0, and a set
   * of one label in mode `None` answers both 0 and 1 with 0. The corrected
   * test answers 20 and 1 with themselves.
   */
  lemma WheeledIndexAsWrittenAtSetSize(blocks: seq<byte>, coin: seq<byte>)
    requires BlockArray(blocks, 1) && BlockArray(coin, 1)
    ensures WheeledIndexAsWritten(20, 1, Permutation, 0, blocks, 20) == ReadPastBlock(20)
    ensures WheeledIndexAsWritten(1, 1, None, 0, coin, 0) == WheeledIndexAsWritten(1, 1, None, 0, coin, 1) == Answer(0)
    ensures WheeledIndex(20, 1, Permutation, 0, blocks, 20) == 20
    ensures WheeledIndex(1, 1, None, 0, coin, 0) == 0 && WheeledIndex(1, 1, None, 0, coin, 1) == 1
  {
  }

  /** The labels 0 .. n - 1 are the first n of 0 .. m - 1. */
  lemma IotaPrefix(m: nat, n: nat)
    requires n <= m <= 0x100
    ensures Iota(m)[..n] == Iota(n)
  {
  }

  /** Block c still permutes 0 .. 19 when nothing before `bound` changed and it lies before `bound`. */
  lemma PermutesBlockFrame(before: seq<byte>, after: seq<byte>, c: nat, bound: nat)
    requires Shuffling.PermutesBlock(before, c) && CPermutationIndexesPerBlock * (c + 1) <= bound
    requires bound <= |before| && bound <= |after| && after[..bound] == before[..bound]
    ensures Shuffling.PermutesBlock(after, c)
  {
    forall r | 0 <= r < CPermutationIndexesPerBlock
      ensures Shuffling.Slot(after, c, r) == Shuffling.Slot(before, c, r)
    {
      assert after[..bound][CPermutationIndexesPerBlock * c + r] == after[CPermutationIndexesPerBlock * c + r];
    }
  }

  /** How many 32-bit draws `Randomize` consumes: two per `MakeRandom`. */
  function DrawsFor(setSize: nat, numBlocks: nat): (draws: nat)
    ensures 2 <= draws
  {
    var mode := ModeFor(setSize, numBlocks);
    if mode == PermutationExtended then 2 + 2 * (ExtendedBlock(setSize) + 1)
    else if mode == RepeatedShufflingWithBlockMixing then 2 + 2 * numBlocks
    else 2
  }

  /** Copies a filled scratch block into block c of the flat array. */
  method CopyBlock(scratch: array<byte>, blocks: array<byte>, c: nat)
    requires scratch.Length == CPermutationIndexesPerBlock && CPermutationIndexesPerBlock * (c + 1) <= blocks.Length
    requires scratch != blocks
    modifies blocks
    ensures blocks[CPermutationIndexesPerBlock * c..CPermutationIndexesPerBlock * (c + 1)] == scratch[..]
    ensures blocks[..CPermutationIndexesPerBlock * c] == old(blocks[..CPermutationIndexesPerBlock * c])
    ensures blocks[CPermutationIndexesPerBlock * (c + 1)..] == old(blocks[CPermutationIndexesPerBlock * (c + 1)..])
  {
    var first := CPermutationIndexesPerBlock * c;
    var r := 0;
    while r < CPermutationIndexesPerBlock
      invariant 0 <= r <= CPermutationIndexesPerBlock
      invariant blocks[first..first + r] == scratch[..r]
      invariant blocks[..first] == old(blocks[..first])
      invariant blocks[first + CPermutationIndexesPerBlock..] == old(blocks[first + CPermutationIndexesPerBlock..])
    {
      blocks[first + r] := scratch[r];
      r := r + 1;
    }
  }

  /**
   * The engine's state: the set size (fixed at construction), the random
   * source, the multiplier of the shuffling network and the mode. The
   * random source is the stream of its 32-bit draws, of which `drawCount`
   * are used up.
   */
  class SetRandomizerInternal {
    const setSize: uint32
    const randomFunc: nat -> uint32
    var drawCount: nat
    var permutationMultiplier: nat
    var mode: ShuffleMode

    /** The multiplier keeps the network inside the set, and a single-block permutation fits its block. */
    ghost predicate Valid()
      reads this
    {
      CPermutationIndexesPerBlock * permutationMultiplier <= setSize as nat
      && (mode == Permutation ==> setSize as nat <= CPermutationIndexesPerBlock)
    }

    constructor (randomFunc: nat -> uint32, setSize: uint32)
      ensures Valid() && this.setSize == setSize && this.randomFunc == randomFunc
      ensures drawCount == 0 && permutationMultiplier == 0 && mode == None
    {
      this.setSize := setSize;
      this.randomFunc := randomFunc;
      drawCount := 0;
      permutationMultiplier := 0;
      mode := None;
    }

    /**
     * Two draws combined into 63 random bits. C++ leaves the order of the two
     * `mRandomFunc()` calls open; the model takes the first as the high half.
     */
    method MakeRandom() returns (bits: int)
      modifies this
      ensures drawCount == old(drawCount) + 2
      ensures mode == old(mode) && permutationMultiplier == old(permutationMultiplier)
      ensures bits == MakeRandomBits(randomFunc(old(drawCount)), randomFunc(old(drawCount) + 1))
    {
      var hi := randomFunc(drawCount);
      var lo := randomFunc(drawCount + 1);
      drawCount := drawCount + 2;
      bits := MakeRandomBits(hi, lo);
    }

    /**
     * Fills one block: nothing below two labels, a coin for two, a
     * permutation of the set up to 20 labels, and beyond that a permutation
     * of 0 .. 19 for the shuffling network with the multiplier at
     * setSize / 20.
     */
    method RandomizeSingleBlock(block: array<byte>)
      requires Valid() && block.Length == CPermutationIndexesPerBlock
      modifies this, block
      ensures Valid() && drawCount == old(drawCount) + 2
      ensures mode == SingleBlockModeFor(setSize as nat)
      ensures Randomized(setSize as nat, 1, mode, permutationMultiplier, block[..])
      ensures mode != RepeatedShuffling ==> permutationMultiplier == old(permutationMultiplier)
      ensures mode == None ==> block[..] == old(block[..])
      ensures mode == CoinFlip ==> block[1..] == old(block[1..])
      ensures mode == Permutation ==> block[setSize..] == old(block[setSize..])
    {
      var randomBits := MakeRandom();
      mode := None;
      if setSize < 2 {
        return;
      }
      if setSize == 2 {
        var bits := new Bits(randomBits);
        block[0] := bits.FinalBit() as byte;
        mode := CoinFlip;
        return;
      }
      var builder := new PermutationBuilder(0, setSize as nat);
      FillFirstBlock(builder, block, randomBits);
      if setSize as nat <= CPermutationIndexesPerBlock {
        mode := Permutation;
        return;
      }
      permutationMultiplier := setSize as nat / CPermutationIndexesPerBlock;
      mode := RepeatedShuffling;
      Shuffling.PermutesBlockOfIota(block[..], 0);
    }

    /**
     * `FillBlock<0>` from a fresh builder for this set: block 0's first
     * min(setSize, 20) slots receive a permutation of that many labels.
     */
    method FillFirstBlock(builder: PermutationBuilder, blocks: array<byte>, randomBits: int)
      requires builder.Valid() && builder.maxBlock == 0 && blocks != builder.pool
      requires builder.nextEntry == InitialEntry(0, setSize as nat) && builder.pool[..] == Iota(MaxFactorialOf(0))
      requires 3 <= setSize && CPermutationIndexesPerBlock <= blocks.Length && 0 <= randomBits < UInt64Modulus
      modifies builder, builder.pool, blocks
      ensures var n := InitialEntry(0, setSize as nat);
              multiset(blocks[..n]) == multiset(Iota(n)) && blocks[n..] == old(blocks[n..])
    {
      var n := InitialEntry(0, setSize as nat);
      BlockTableContiguous(0);
      IotaPrefix(MaxFactorialOf(0), n);
      builder.FillBlock(0, blocks, randomBits);
      OwnSlotsAre(blocks[..], 0, n, 0, n);
    }

    /**
     * Randomizes for the set: nothing below two labels, a coin for two, one
     * block up to 20 labels, the extended blocks up to the table's end, and
     * every block for the shuffling network beyond it.
     */
    method Randomize(blocks: array<byte>, numBlocks: nat)
      requires Valid() && WithinPermutationBlockBounds(numBlocks)
      requires blocks.Length == CPermutationIndexesPerBlock * numBlocks
      modifies this, blocks
      ensures Valid() && mode == ModeFor(setSize as nat, numBlocks)
      ensures Randomized(setSize as nat, numBlocks, mode, permutationMultiplier, blocks[..])
      ensures drawCount == old(drawCount) + DrawsFor(setSize as nat, numBlocks)
      ensures mode != RepeatedShufflingWithBlockMixing ==> permutationMultiplier == old(permutationMultiplier)
      ensures mode == None ==> blocks[..] == old(blocks[..])
    {
      var randomBits := MakeRandom();
      mode := None;
      if setSize < 2 {
        return;
      }
      if setSize == 2 {
        var bits := new Bits(randomBits);
        blocks[0] := bits.FinalBit() as byte;
        mode := CoinFlip;
        return;
      }
      BlockTableContiguous(0);
      if setSize as nat <= MaxFactorialOf(0) {
        var builder := new PermutationBuilder(0, setSize as nat);
        FillFirstBlock(builder, blocks, randomBits);
        mode := Permutation;
        return;
      }
      BlockTableContiguous(CNumBlock - 1);
      if setSize as nat <= MaxFactorialOf(CNumBlock - 1) {
        RandomizeWithinTable(blocks, numBlocks);
        return;
      }
      FillMixedBlocks(blocks, numBlocks);
    }

    /**
     * The small path for sets that fit the table: the first block whose
     * range reaches the set size, among the blocks present, is filled with
     * the blocks below it; when no block present reaches it the mode stays
     * `None`.
     */
    method RandomizeWithinTable(blocks: array<byte>, numBlocks: nat)
      requires Valid() && mode == None && WithinPermutationBlockBounds(numBlocks)
      requires CPermutationIndexesPerBlock < setSize as nat <= CMaxExtendedSetSize
      requires blocks.Length == CPermutationIndexesPerBlock * numBlocks
      modifies this, blocks
      ensures Valid() && mode == ModeFor(setSize as nat, numBlocks) && permutationMultiplier == old(permutationMultiplier)
      ensures Randomized(setSize as nat, numBlocks, mode, permutationMultiplier, blocks[..])
      ensures mode == PermutationExtended ==> drawCount == old(drawCount) + 2 * (ExtendedBlock(setSize as nat) + 1)
      ensures mode == None ==> drawCount == old(drawCount) && blocks[..] == old(blocks[..])
    {
      var blockSize := if numBlocks < CNumBlock then numBlocks else CNumBlock;
      var blockIndex := 0;
      while blockIndex < blockSize
        invariant 0 <= blockIndex <= blockSize
        invariant 0 < blockIndex ==> MaxFactorialOf(blockIndex - 1) < setSize as nat
        invariant mode == None && drawCount == old(drawCount) && blocks[..] == old(blocks[..])
      {
        if setSize as nat <= MaxFactorialOf(blockIndex) {
          ExtendedBlockFound(setSize as nat, numBlocks, blockIndex);
          FillWithPermutationExtended(blockIndex, blocks, numBlocks);
          return;
        }
        blockIndex := blockIndex + 1;
      }
      SmallPathFallsBackToNone(setSize as nat, numBlocks);
      mode := None;
    }

    /**
     * Fills blocks maxBlockIndex down to 0 with a permutation of the set's
     * labels spread over them, one 63-bit draw per block; an index past the
     * table leaves the mode at `None`.
     */
    method FillWithPermutationExtended(maxBlockIndex: nat, blocks: array<byte>, numBlocks: nat)
      requires Valid() && BlockArray(blocks[..], numBlocks)
      requires maxBlockIndex < CNumBlock ==>
                 maxBlockIndex < numBlocks && FillableCount(maxBlockIndex, InitialEntry(maxBlockIndex, setSize as nat))
      modifies this, blocks
      ensures Valid() && permutationMultiplier == old(permutationMultiplier)
      ensures drawCount == old(drawCount) + 2 * (maxBlockIndex + 1)
      ensures CNumBlock <= maxBlockIndex ==> mode == None && blocks[..] == old(blocks[..])
      ensures maxBlockIndex < CNumBlock ==>
                var n := InitialEntry(maxBlockIndex, setSize as nat);
                mode == PermutationExtended
                && multiset(FilledSlots(blocks[..], maxBlockIndex, n)) == multiset(Iota(n))
                && forall i :: CPermutationIndexesPerBlock * maxBlockIndex + n - MinSetPositionOf(maxBlockIndex) <= i < blocks.Length ==>
                     blocks[i] == old(blocks[i])
    {
      mode := PermutationExtended;
      var randomBits: seq<int> := [];
      var i := 0;
      while i <= maxBlockIndex
        invariant 0 <= i <= maxBlockIndex + 1 && |randomBits| == i
        invariant forall j :: 0 <= j < |randomBits| ==> 0 <= randomBits[j] < UInt64Modulus
        invariant drawCount == old(drawCount) + 2 * i
        invariant mode == PermutationExtended && permutationMultiplier == old(permutationMultiplier)
        invariant blocks[..] == old(blocks[..])
      {
        var r := MakeRandom();
        randomBits := randomBits + [r];
        i := i + 1;
      }
      if maxBlockIndex < CNumBlock {
        var builder := new PermutationBuilder(maxBlockIndex, setSize as nat);
        var n := builder.nextEntry;
        builder.FillBlockAndFallThrough(maxBlockIndex, blocks, randomBits);
        IotaPrefix(MaxFactorialOf(maxBlockIndex), n);
      } else {
        mode := None;
      }
    }

    /**
     * The mixing path: every block receives its own permutation of
     * 0 .. 19 from its own draw, and the multiplier becomes setSize / 20.
     */
    method FillMixedBlocks(blocks: array<byte>, numBlocks: nat)
      requires Valid() && CPermutationIndexesPerBlock < setSize as nat
      requires BlockArray(blocks[..], numBlocks)
      modifies this, blocks
      ensures Valid() && mode == RepeatedShufflingWithBlockMixing
      ensures permutationMultiplier == setSize as nat / CPermutationIndexesPerBlock
      ensures Shuffling.AllBlocksPermute(blocks[..], numBlocks)
      ensures drawCount == old(drawCount) + 2 * numBlocks
    {
      permutationMultiplier := setSize as nat / CPermutationIndexesPerBlock;
      var scratch := new byte[CPermutationIndexesPerBlock];
      var j := 0;
      while j < numBlocks
        invariant 0 <= j <= numBlocks && blocks.Length == CPermutationIndexesPerBlock * numBlocks
        invariant drawCount == old(drawCount) + 2 * j
        invariant mode == old(mode) && permutationMultiplier == setSize as nat / CPermutationIndexesPerBlock
        invariant forall c :: 0 <= c < j ==> Shuffling.PermutesBlock(blocks[..], c)
      {
        ghost var before := blocks[..];
        FillMixedBlock(scratch, blocks, j);
        forall c | 0 <= c < j
          ensures Shuffling.PermutesBlock(blocks[..], c)
        {
          PermutesBlockFrame(before, blocks[..], c, CPermutationIndexesPerBlock * j);
        }
        j := j + 1;
      }
      mode := RepeatedShufflingWithBlockMixing;
    }

    /** One block of the mixing path: a draw, a fresh builder over 20 labels, and the copy into block c. */
    method FillMixedBlock(scratch: array<byte>, blocks: array<byte>, c: nat)
      requires Valid() && CPermutationIndexesPerBlock < setSize as nat
      requires scratch.Length == CPermutationIndexesPerBlock && scratch != blocks
      requires CPermutationIndexesPerBlock * (c + 1) <= blocks.Length
      modifies this, scratch, blocks
      ensures Valid() && mode == old(mode) && permutationMultiplier == old(permutationMultiplier)
      ensures drawCount == old(drawCount) + 2
      ensures blocks[..CPermutationIndexesPerBlock * c] == old(blocks[..CPermutationIndexesPerBlock * c])
      ensures Shuffling.PermutesBlock(blocks[..], c)
    {
      var bits := MakeRandom();
      BlockTableContiguous(0);
      var builder := new PermutationBuilder(0, setSize as nat);
      FillFirstBlock(builder, scratch, bits);
      assert scratch[..CPermutationIndexesPerBlock] == scratch[..];
      CopyBlock(scratch, blocks, c);
      Shuffling.PermutesBlockOfIota(blocks[..], c);
    }

    /** The mode's answer for an index, the extended blocks searched in order. */
    method GetWheeledIndex(index: uint32, blocks: array<byte>, numBlocks: nat) returns (wheeled: uint32)
      requires Valid() && BlockArray(blocks[..], numBlocks) && numBlocks <= CNumBlock
      ensures wheeled as nat == WheeledIndex(setSize, numBlocks, mode, permutationMultiplier, blocks[..], index)
    {
      if index >= setSize {
        return index;
      }
      match mode {
        case None =>
          wheeled := setSize - 1;
        case CoinFlip =>
          wheeled := CoinFlipRead(index, blocks[0]) as uint32;
        case Permutation =>
          wheeled := blocks[index] as uint32;
        case PermutationExtended =>
          wheeled := ReadExtendedBlocks(index, blocks, numBlocks);
        case RepeatedShuffling =>
          wheeled := Shuffling.RepeatedShuffling(false, setSize, index, permutationMultiplier as uint32, blocks[..]);
        case RepeatedShufflingWithBlockMixing =>
          wheeled := Shuffling.RepeatedShuffling(true, setSize, index, permutationMultiplier as uint32, blocks[..]);
      }
    }
  }

  /** The extended read: the first block present whose range reaches past the index holds its answer. */
  method ReadExtendedBlocks(index: uint32, blocks: array<byte>, numBlocks: nat) returns (wheeled: uint32)
    requires BlockArray(blocks[..], numBlocks) && numBlocks <= CNumBlock
    ensures wheeled as nat == ExtendedRead(blocks[..], numBlocks, index as nat)
  {
    var blockIndex := 0;
    BlockTableContiguous(0);
    while blockIndex < numBlocks
      invariant 0 <= blockIndex <= numBlocks
      invariant 0 < blockIndex ==> MaxFactorialOf(blockIndex - 1) <= index as nat
    {
      if (index as nat) < MaxFactorialOf(blockIndex) {
        if 0 < blockIndex {
          BlockTableContiguous(blockIndex - 1);
        }
        BlockOfPositionIs(index as nat, blockIndex);
        return blocks[CPermutationIndexesPerBlock * blockIndex + index as nat - MinSetPositionOf(blockIndex)] as uint32;
      }
      blockIndex := blockIndex + 1;
    }
    ExtendedReadPastBlocks(blocks[..], numBlocks, index as nat);
    wheeled := index;
  }

  /**
   * The first block whose range reaches the set size is the extended block
   * of the set; its builder starts with every label of the set.
   */
  lemma ExtendedBlockFound(setSize: nat, numBlocks: nat, k: nat)
    requires CPermutationIndexesPerBlock < setSize <= CMaxExtendedSetSize && WithinPermutationBlockBounds(numBlocks)
    requires k < numBlocks && setSize <= MaxFactorialOf(k)
    requires 0 < k ==> MaxFactorialOf(k - 1) < setSize
    ensures k == ExtendedBlock(setSize) && ModeFor(setSize, numBlocks) == PermutationExtended
    ensures InitialEntry(k, setSize) == setSize && FillableCount(k, InitialEntry(k, setSize))
  {
    BlockTableContiguous(0);
    if 0 < k {
      BlockTableContiguous(k - 1);
    }
    BlockOfPositionIs(setSize - 1, k);
  }

  /** An index at or past the last block present reads back unchanged. */
  lemma ExtendedReadPastBlocks(blocks: seq<byte>, numBlocks: nat, index: nat)
    requires BlockArray(blocks, numBlocks) && numBlocks <= CNumBlock
    requires MaxFactorialOf(numBlocks - 1) <= index
    ensures ExtendedRead(blocks, numBlocks, index) == index
  {
    if index < CMaxExtendedSetSize {
      BlockOfPositionBounds(index);
      var b := BlockOfPosition(index);
      if b < numBlocks - 1 {
        BlockMaxIncreasing(b, numBlocks - 1);
      }
    }
  }
}
