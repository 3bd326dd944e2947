/**
 * The public face of the engine: a randomizer over a set of `setSize`
 * indices owning `numBlocks` permutation blocks, randomized on
 * construction, and the two stack shufflers whose lookups are still
 * stubs.
 */
module SetRandomizerFacade {
  import opened Factoradics
  import opened SetRandomizerEngine

  class SetRandomizer {
    const numBlocks: nat
    const internalRandomizer: SetRandomizerInternal
    const permutationBlocks: array<byte>

    /** The blocks are laid out for the engine and hold what its mode needs. */
    ghost predicate Valid()
      reads this, internalRandomizer, permutationBlocks
    {
      WithinPermutationBlockBounds(numBlocks)
      && permutationBlocks.Length == CPermutationIndexesPerBlock * numBlocks
      && internalRandomizer.Valid()
      && Randomized(internalRandomizer.setSize as nat, numBlocks, internalRandomizer.mode,
                    internalRandomizer.permutationMultiplier, permutationBlocks[..])
    }

    constructor (randomFunc: nat -> uint32, setSize: uint32, numBlocks: nat)
      requires WithinPermutationBlockBounds(numBlocks)
      ensures Valid() && fresh(internalRandomizer) && fresh(permutationBlocks)
      ensures this.numBlocks == numBlocks && internalRandomizer.setSize == setSize
      ensures internalRandomizer.randomFunc == randomFunc
      ensures internalRandomizer.mode == ModeFor(setSize as nat, numBlocks)
      ensures internalRandomizer.drawCount == DrawsFor(setSize as nat, numBlocks)
    {
      this.numBlocks := numBlocks;
      internalRandomizer := new SetRandomizerInternal(randomFunc, setSize);
      permutationBlocks := new byte[CPermutationIndexesPerBlock * numBlocks];
      new;
      internalRandomizer.Randomize(permutationBlocks, numBlocks);
    }

    /** Draws a fresh arrangement for the same set. */
    method Randomize()
      requires Valid()
      modifies internalRandomizer, permutationBlocks
      ensures Valid()
      ensures internalRandomizer.mode == ModeFor(internalRandomizer.setSize as nat, numBlocks)
      ensures internalRandomizer.drawCount
              == old(internalRandomizer.drawCount) + DrawsFor(internalRandomizer.setSize as nat, numBlocks)
    {
      internalRandomizer.Randomize(permutationBlocks, numBlocks);
    }

    /** The index the arrangement puts at `index`. */
    method GetWheeledIndex(index: uint32) returns (wheeled: uint32)
      requires Valid()
      ensures wheeled as nat == WheeledIndex(internalRandomizer.setSize, numBlocks, internalRandomizer.mode,
                                             internalRandomizer.permutationMultiplier, permutationBlocks[..], index)
      ensures index < GetSetSize() && internalRandomizer.mode != None ==> wheeled < GetSetSize()
      ensures GetSetSize() <= index ==> wheeled == index
    {
      if internalRandomizer.mode != None {
        WheeledIndexPermutes(internalRandomizer.setSize, numBlocks, internalRandomizer.mode,
                             internalRandomizer.permutationMultiplier, permutationBlocks[..]);
      }
      wheeled := internalRandomizer.GetWheeledIndex(index, permutationBlocks, numBlocks);
    }

    /** The set size fixed at construction. */
    function GetSetSize(): (size: uint32)
      reads this, internalRandomizer
      ensures size == internalRandomizer.setSize
    {
      internalRandomizer.setSize
    }

    /** The number of permutation blocks, fixed at construction and within the table. */
    function GetNumBlocks(): (count: nat)
      reads this
      ensures count == numBlocks
      ensures Valid() ==> 0 < count <= CNumBlock
    {
      numBlocks
    }

    /** Once randomized into any mode but `None`, the queries over the set form a permutation of it. */
    lemma ArrangementPermutes()
      requires Valid() && internalRandomizer.mode != None
      ensures PermutesSet(internalRandomizer.setSize, numBlocks, internalRandomizer.mode,
                          internalRandomizer.permutationMultiplier, permutationBlocks[..])
    {
      WheeledIndexPermutes(internalRandomizer.setSize, numBlocks, internalRandomizer.mode,
                           internalRandomizer.permutationMultiplier, permutationBlocks[..]);
    }
  }
}

/**
 * The two stack shufflers: their permutation fill is empty and their
 * lookup hands the index back, so each is the identity arrangement.
 */
module StackShufflers {
  import opened Factoradics

  /** `FixedSetStackShuffler::Get` and `StackShuffler::Get`: the index itself. */
  function StackShufflerGet(index: uint32): (r: uint32)
  {
    index
  }

  /** The stub lookup is the identity, so over any set it is a permutation that fixes every index. */
  lemma StackShufflerIsIdentity(setSize: uint32)
    ensures forall x: uint32 :: StackShufflerGet(x) == x
    ensures forall x: uint32 :: x < setSize ==> StackShufflerGet(x) < setSize
    ensures forall x: uint32, y: uint32 :: x != y ==> StackShufflerGet(x) != StackShufflerGet(y)
  {
  }
}
