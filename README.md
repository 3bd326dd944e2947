# MathExperimentation core, modelled in Dafny

This project models the integer and string logic of MathExperimentation,
a console program of small maths experiments.

The primary part is the lazy set randomizer. It shuffles a set of up to
2^32 indices without storing the whole permutation. It works like this:

- A constant table of 28 blocks splits set positions 0 .. 253 into
  contiguous runs of at most 20.
- One 63-bit random draw per block is unranked in the factorial number
  system. The draw picks labels from a pool, which it reduces by
  swap-with-last.
- A query (`GetWheeledIndex`) is then answered by the shuffle mode chosen
  for the set size:
  - nothing to shuffle;
  - a coin flip;
  - a single permuted block;
  - a permutation spread over several blocks;
  - repeated divide, permute and recombine stages over block 0, the same
    for both shuffling modes, since the block-mixing mode also dispatches
    to `RepeatedShuffling`.

`ShuffleContinuousBatch`, the round-based variant with half-turns between
rounds, is modelled as well, though no query reaches it.

The documentation tool's transformer tree is modelled with it. It shows the
same divide, map, combine and shift algebra on 16 numbers.

The secondary parts are self-contained game and menu logic:

- dice, cards and workers of the worker-placement game (`WP*`), with
  random draws supplied as inputs;
- a histogram counter;
- the console menu's prefix matcher, description splitter and input
  buffer;
- the square-containment data loader's line parsers and name tokeniser;
- the set tags of points;
- the enum/string table macro.

Each module follows one source file. Code that changes state in place
becomes a `class` with `modifies` clauses. Most methods are proved against
a pure specification function, and the properties the source promises are
lemmas about those functions; the rest state their new state directly in
their contracts. Pure code becomes functions and lemmas.

| Dafny file | module | source |
|---|---|---|
| fixed_width.dfy | FixedWidth | C++ integer widths and truncating division |
| options.dfy, sequences.dfy, string_search.dfy | Options, Sequences, StringSearch | `std::optional`, `std::string::find`, splitting at a separator |
| factoradics.dfy | Factoradics | LazyElementShuffler.h, SetRandomizer.cpp:40-160 |
| permutation_builder.dfy | FactoradicBuilder | SetRandomizer.cpp:162-226 |
| set_randomizer_internal.dfy | SetRandomizerEngine | SetRandomizer.cpp (engine and queries) |
| shuffling.dfy | Shuffling | SetRandomizer.cpp:406-579 |
| set_randomizer.dfy | SetRandomizerFacade, StackShufflers | SetRandomizer.h, LazyElementShuffler.h:222-256 |
| transformer.dfy, transformer_nodes.dfy | TransformerDocs, TransformerHeap | SetRandomizerMenu.cpp:203-483 |
| enum_strings.dfy | EnumStrings | MathCommon.h |
| stats.dfy | StatsCounters | Stats.cpp |
| wp_card.dfy | WPCards | WPCard.cpp |
| wp_resources.dfy | WPResources | WPExecutionResources.cpp |
| wp_worker.dfy | WPWorkers | WPWorker.cpp |
| wp_challenge.dfy | WPChallenges | WPChallenge.cpp |
| int_streams.dfy | IntStreams | `atoi` and `operator>>` on integers |
| console_menu.dfy | ConsoleMenus | ConsoleMenu.cpp |
| ordered_map.dfy | OrderedMaps | `std::map<std::string, V>` |
| square_containment_data.dfy | SquareContainmentData | SquareContainmentGlobalData.cpp (parsers, name tokeniser) |
| square_containment_global.dfy | SquareContainmentGlobal | SquareContainmentGlobalData.cpp, SquareContainmentGlobalData.h |
| square_containment_menu.dfy | SquareContainmentMenus | SquareContainmentMenu.cpp |

## Model

| member | source | states |
|---|---|---|
| Factoradics.Bits.DivAndSetToRemainder | LazyElementShuffler.h:33-40 | for a positive divisor, the returned quotient times the divisor plus the remainder left in the register is the old value, and the remainder is below the divisor |
| Factoradics.Bits.FinalBit | LazyElementShuffler.h:48-49 | the final bit is the register's value mod 2 |
| Factoradics.MakeRandomBits | SetRandomizer.cpp:642-645 | two 32-bit draws combine into a value below 2^63 whose low 32 bits are the second draw and whose high bits are the first draw's low 31 bits |
| Factoradics.MakeRandomBitsLemma | SetRandomizer.cpp:644 | the 64-bit shift, the mask with INT64_MAX and the or give exactly that value |
| Factoradics.ConstMax | LazyElementShuffler.h:66-70 | the result is min(value, tMax) |
| Factoradics.ConstFactorialRange | LazyElementShuffler.h:72-80 | the accumulating loop leaves the product of every k with min < k <= max, modulo 2^64, and 1 for an empty range |
| Factoradics.ProductSplit | LazyElementShuffler.h:72-80 | a product range is the product of its two halves |
| Factoradics.FactorialRange | LazyElementShuffler.h:82-113 | the result is a 64-bit value, and 1 whenever m - MinFactorial lies outside 0 .. 20, including an m below MinFactorial, which wraps into the default case |
| FactoradicBuilder.BlockRangeInside | SetRandomizer.cpp:62-91 | inside a block, the factorial range at m is the product from MinFactorial up to m, between 1 and 2^64 - 1 |
| Factoradics.BlockRangeStep | SetRandomizer.cpp:62-91 | inside a block, the range at m is the range at m - 1 times m |
| Factoradics.BlockWidthMatchesTable | SetRandomizer.cpp:111-120 | block i's width is entry i of the width table 20, 13, 11, ..., 7 |
| Factoradics.BuildBlocks | SetRandomizer.cpp:109-145 | the builder loop produces exactly the table `CBlocks()` |
| Factoradics.OffsetBlock | SetRandomizer.cpp:128-140 | one pass of the loop offsets block i by the running base, records how many maximal factoradic numbers fit in 64 bits, and advances the base by the width |
| Factoradics.BlockBaseStep | SetRandomizer.cpp:127-140 | the running base starts at 0, grows by each block's width, and ends at 254 |
| Factoradics.BlockTableContiguous | SetRandomizer.cpp:109-145 | block 0 starts at position 0; each block starts where the previous one ends; its width lies between 2 and 20; the last block ends at 254 |
| Factoradics.MinFactorialOf | LazyElementShuffler.h:121-129 | a block's MinFactorial is its MinSetPosition + 1 |
| Factoradics.BlockRangeFits | SetRandomizer.cpp:135-136 | every block's whole factorial range fits in 64 bits |
| Factoradics.MaxNumOfMaxFactoradicPositive | SetRandomizer.cpp:136 | each block can hold at least one maximal factoradic number, and MaxNumOfMaxFactoradic times the block's range still fits in 64 bits |
| Factoradics.CoinflipOnlyInFirstBlock | SetRandomizer.cpp:141 | only block 0 settles its final two entries with a coin flip |
| Factoradics.BlockMaxIncreasing | SetRandomizer.cpp:109-145 | the blocks' MaxFactorial values are strictly increasing |
| Factoradics.BlockOfPositionIs | SetRandomizer.cpp:602-612 | exactly one block holds each set position below 254 |
| Factoradics.SlotOfPositionIn | SetRandomizer.cpp:606-608 | a position of block b sits at offset p - MinSetPosition inside block b's 20 slots |
| FactoradicBuilder.Iota | SetRandomizer.cpp:169 | the pool starts as 0, 1, ..., n - 1 |
| FactoradicBuilder.PermutationBuilder.constructor | SetRandomizer.cpp:166-170 | the live count is the set size capped at the top block's MaxFactorial, and the pool holds 0, 1, 2, ... |
| FactoradicBuilder.InitialEntry | SetRandomizer.cpp:167-168 | the starting live count is the set size or the block's MaxFactorial, whichever is smaller |
| FactoradicBuilder.SwapRemove | SetRandomizer.cpp:218-223 | removing entry q by overwriting it with the last entry loses exactly that one label |
| FactoradicBuilder.PermutationBuilder.GetAndRemovePosition | SetRandomizer.cpp:218-223 | the label at the position is returned and overwritten with the label at the live count; the live pool shrinks by one, and the returned label joined with the new live pool is the old live pool |
| FactoradicBuilder.PermutationBuilder.PlaceNext | SetRandomizer.cpp:186-190 | one loop step lowers the live count by one, takes one live label out of the pool (the quotient is below the old live count), writes it into the slot of the new count only, and keeps the draw below the next smaller range |
| FactoradicBuilder.PermutationBuilder.SettleFinalTwo | SetRandomizer.cpp:192-197 | block 0's final bit puts pool[1] into slot bit and pool[0] into the other slot |
| FactoradicBuilder.PermutationBuilder.PlaceLast | SetRandomizer.cpp:198-204 | the remaining draw, now 0, takes the label at pool position 0 into the slot of the new live count |
| FactoradicBuilder.PermutationBuilder.FillRange | SetRandomizer.cpp:180-204 | once the draw is reduced, the block's written slots together with the unused pool hold exactly the labels that were live, and no slot outside them changes |
| FactoradicBuilder.PermutationBuilder.FillBlock | SetRandomizer.cpp:173-205 | filling block b leaves the live count at 2 for block 0 and at MinSetPosition otherwise; the block's filled slots plus the pool left hold the labels that were live; no other block changes; with the corrected single-label entry of the Findings row for SetRandomizer.cpp:198-204 |
| FactoradicBuilder.PermutationBuilder.FillBlockAndFallThrough | SetRandomizer.cpp:207-215 | blocks b down to 0, filled from one shared pool, hold for positions 0 .. n0 - 1 exactly the n0 labels that were live; nothing past block b's filled slots changes; with the corrected single-label entry of the Findings row for SetRandomizer.cpp:198-204 |
| FactoradicBuilder.FilledSlotsJoin | SetRandomizer.cpp:207-215 | block b's own labels and those taken by the blocks below make up the labels live before block b |
| FactoradicBuilder.PermutationOfIota | SetRandomizer.cpp:169 | a sequence holding the same labels as 0 .. n - 1 has every label below n and none twice |
| FactoradicBuilder.FillBlockSlotsCoverBlock | SetRandomizer.cpp:178-204 | as written, a block entered with more than its first label writes slots n0 - 1 - MinSetPosition down to 0, each once |
| FactoradicBuilder.FillBlockSlotsAsWritten | SetRandomizer.cpp:178-204 | the slot offsets the source writes into block b > 0: one per step, from the first placement to the ending |
| FactoradicBuilder.FillBlockSlotBeforeBlock | SetRandomizer.cpp:198-204 | as written, a block b > 0 entered with only its first label writes slot 0 and then slot -1 |
| FactoradicBuilder.InitialEntryAsWritten | SetRandomizer.cpp:166-168 | as written, the constructor converts the `uint32_t` set size to `int32_t`, then caps it at MaxFactorial with a comparison that is signed or unsigned depending on the type `SetSize`, which is defined outside the modelled files; the result is the cap, the signed value or the unsigned one |
| FactoradicBuilder.InitialEntryAsWrittenBelowHalf | SetRandomizer.cpp:166-168 | below 2^31 the conversion is harmless and the capped counts agree, whatever `SetSize` is |
| FactoradicBuilder.InitialEntryAsWrittenUnsigned | SetRandomizer.cpp:166-168 | if `SetSize` is an unsigned 32-bit or 64-bit type, the comparison converts the argument back and the capped count is always the intended one |
| FactoradicBuilder.InitialEntryAsWrittenWraps | SetRandomizer.cpp:166-168 | if `SetSize` compares signed (a signed type, or an unsigned one narrower than `int`), a set of 2^31 labels starts its block-mixing builder at -2^31 live labels, which no block accepts, while the intended count is a full block of 20 |
| SetRandomizerEngine.SetRandomizerInternal.constructor | LazyElementShuffler.h:294-296 | the set size is stored; the multiplier is 0 and the mode is `None` |
| SetRandomizerEngine.SetRandomizerInternal.MakeRandom | SetRandomizer.cpp:642-645 | two draws are consumed and the result is `MakeRandomBits` of them; C++ leaves the order of the two calls unspecified, and the model fixes the first draw as the high half |
| SetRandomizerEngine.SetRandomizerInternal.RandomizeSingleBlock | SetRandomizer.cpp:231-264 | below 2 labels the mode is None and the block is untouched; for 2 the coin goes to slot 0 alone; up to 20 the mode is Permutation and slots 0 .. setSize - 1 hold a permutation of them, the rest untouched; beyond 20 the block permutes 0 .. 19 and the multiplier is setSize / 20 |
| SetRandomizerEngine.SetRandomizerInternal.Randomize | SetRandomizer.cpp:266-354 | the mode is `ModeFor(setSize, numBlocks)` and the blocks hold what that mode needs; mode None leaves every block untouched; the multiplier changes only in the block-mixing mode; with the corrected single-label entry of the Findings row for SetRandomizer.cpp:198-204 |
| SetRandomizerEngine.SetRandomizerInternal.RandomizeWithinTable | SetRandomizer.cpp:294-333 | for 21 .. 254 labels, the first block present that reaches the set size is filled with the blocks below it; if no block present reaches it, the mode stays `None` and nothing is drawn or written; with the corrected single-label entry of the Findings row for SetRandomizer.cpp:198-204 |
| SetRandomizerEngine.SmallPathFallsBackToNone | SetRandomizer.cpp:294-333 | for 21 .. 254 labels the small path ends in `None` exactly when the last block present ends below the set size |
| SetRandomizerEngine.SmallPathFallbackExample | SetRandomizer.cpp:328-333 | 21 labels with a single block fall back to None, and with two blocks they get PermutationExtended |
| SetRandomizerEngine.ExtendedBlockFound | SetRandomizer.cpp:300-305 | the first block that reaches the set size is the extended block; its builder starts with every label of the set |
| SetRandomizerEngine.SetRandomizerInternal.FillWithPermutationExtended | SetRandomizer.cpp:360-404 | the mode becomes PermutationExtended; one draw per block is consumed for blocks 0 .. k; positions 0 .. n - 1 read through the blocks hold a permutation of 0 .. n - 1, and nothing after them changes; an index past the table leaves the mode at None; with the corrected single-label entry of the Findings row for SetRandomizer.cpp:198-204 |
| SetRandomizerEngine.SetRandomizerInternal.FillMixedBlocks | SetRandomizer.cpp:343-353 | every block permutes 0 .. 19, the multiplier is setSize / 20, and the mode is RepeatedShufflingWithBlockMixing |
| SetRandomizerEngine.SetRandomizerInternal.FillMixedBlock | SetRandomizer.cpp:346-350 | one draw and a fresh builder give block c a permutation of 0 .. 19, and the blocks before it keep their contents |
| SetRandomizerEngine.CopyBlock | SetRandomizer.cpp:349 | block c of the flat array receives the filled block, and nothing else changes |
| SetRandomizerEngine.SetRandomizerInternal.GetWheeledIndex | SetRandomizer.cpp:581-640 | the answer is the corrected `WheeledIndex` of the mode, the multiplier and the blocks |
| SetRandomizerEngine.ReadExtendedBlocks | SetRandomizer.cpp:602-612 | the extended loop returns the slot of the first block present whose MaxFactorial lies above the index, or the index itself |
| SetRandomizerEngine.ExtendedReadPastBlocks | SetRandomizer.cpp:611 | an index at or past the last block present is returned unchanged |
| SetRandomizerEngine.ExtendedReadIsFilledSlot | SetRandomizer.cpp:602-612 | inside block k's range the extended read gives the label the fall-through fill placed at that position |
| SetRandomizerEngine.WheeledIndexNoneIsConstant | SetRandomizer.cpp:592-593 | in mode None every index of the set is answered with setSize - 1 |
| SetRandomizerEngine.CoinFlipReads | SetRandomizer.cpp:595-596 | the coin flip swaps 0 and 1 when the coin is 1 and keeps them when it is 0 |
| SetRandomizerEngine.CoinFlipPermutes | SetRandomizer.cpp:595-596 | the coin flip permutes the set {0, 1} |
| SetRandomizerEngine.PermutationPermutes | SetRandomizer.cpp:598-599 | a table read of a permuted block 0 permutes the set |
| SetRandomizerEngine.PermutationExtendedPermutes | SetRandomizer.cpp:602-612 | reading the extended blocks over 0 .. setSize - 1 gives a permutation of the set |
| SetRandomizerEngine.ShufflingPermutes | SetRandomizer.cpp:630-638 | both repeated-shuffling modes, with the stages' addition, permute the set |
| SetRandomizerEngine.WheeledIndexPermutes | SetRandomizer.cpp:581-640 | once randomized, every mode but None answers the indices of the set with a permutation of the set (each lands inside, no two together, each is reached) and every index outside the set with itself |
| SetRandomizerEngine.WheeledIndexAsWrittenAgreesInside | SetRandomizer.cpp:581-612 | below the set size and for the modes that read no block past it, the written answer equals the corrected one |
| SetRandomizerEngine.WheeledIndexAsWrittenAtSetSize | SetRandomizer.cpp:584 | as written, index 20 of a full 20-label block reads slot 20, past block 0, and a one-label set in mode None answers both 0 and 1 with 0; the corrected test passes index 20 through and keeps 0 and 1 apart |
| SetRandomizerEngine.DrawsFor | SetRandomizer.cpp:266-354 | every Randomize consumes at least the two draws of its first MakeRandom |
| Shuffling.Stage | SetRandomizer.cpp:548-565 | one stage with divisor rev maps index q rev + t (q = 20 c + r) to (20 c + p(r)) rev + t below 20 rev combMult and passes every other index, in 32-bit arithmetic |
| Shuffling.StageWithin | SetRandomizer.cpp:548-565 | on a permuting block a stage keeps its own range and moves nothing past it |
| Shuffling.StageInjective | SetRandomizer.cpp:548-565 | on a permuting block a stage sends no two indices to the same place |
| Shuffling.StagesFromInjective | SetRandomizer.cpp:547-566 | the stages for divisors rev, 2 rev, 4 rev, ... send no two indices to the same place |
| Shuffling.ShuffleStage | SetRandomizer.cpp:554-563 | the `ldiv`s, the block lookup and the recombination compute `Stage`, for a 64-bit `long` (with a 32-bit `long`, for indexes below 2^31) |
| Shuffling.ShuffleRound | SetRandomizer.cpp:534-566 | one round is the first stage over 20 multiplier indices and the stages for divisors 2, 4, ... with the multiplier halved |
| Shuffling.ShuffleContinuousBatch | SetRandomizer.cpp:529-578 | the method computes `ContinuousBatch`: `shuffles` rounds with the half-turn between them, with the corrected half-turn of the Findings row for SetRandomizer.cpp:575; `GetWheeledIndex` never calls this batch (SetRandomizer.cpp:629-637 sends both shuffling modes to `RepeatedShuffling`) |
| Shuffling.ContinuousBatchPermutes | SetRandomizer.cpp:529-578 | with blocks that permute 0 .. 19 and 20 times the multiplier within the set, the batch permutes the set; code that only the unused `ShuffleContinuousBatch` runs |
| Shuffling.Rotate | SetRandomizer.cpp:575 | the half-turn `(index + setSize / 2) % setSize` stays inside the set; code that only the unused `ShuffleContinuousBatch` runs |
| Shuffling.RotateInjective | SetRandomizer.cpp:575 | the half-turn sends no two indices of the set to the same place; code that only the unused `ShuffleContinuousBatch` runs |
| Shuffling.RotateAsWritten | SetRandomizer.cpp:575 | as written, the sum is 32-bit and wraps before the `%`; code that only the unused `ShuffleContinuousBatch` runs |
| Shuffling.RotateAsWrittenAgrees | SetRandomizer.cpp:575 | while the sum fits 32 bits the written half-turn is the intended one; code that only the unused `ShuffleContinuousBatch` runs |
| Shuffling.RotateAsWrittenCollides | SetRandomizer.cpp:575 | for 2^32 - 1 indices the written half-turn sends both 2^31 and 2^31 + 1 to 0, while the intended one keeps them apart; code that only the unused `ShuffleContinuousBatch` runs |
| Shuffling.FloorLog2 | SetRandomizer.cpp:531 | the integer part of log2(n): 2^k <= n < 2^(k+1); code that only the unused `ShuffleContinuousBatch` runs |
| Shuffling.UsedBlock | SetRandomizer.cpp:541-545 | a round uses block i mod the block count when mixing and block 0 otherwise |
| Shuffling.RepeatedShuffling | SetRandomizer.cpp:503-516 | with the combine step corrected to an addition, the method computes the stages for divisors 1, 2, 4, ... over block 0 |
| Shuffling.RepeatedShufflingPermutes | SetRandomizer.cpp:503-516 | on a permuting block 0, with 20 times the multiplier within the set, the corrected stages permute the set |
| Shuffling.StageAsWritten | SetRandomizer.cpp:509-514 | as written, the combine step multiplies the block's label into `quot * 20` |
| Shuffling.RepeatedShufflingAsWritten | SetRandomizer.cpp:503-516 | the written stages, one after another |
| Shuffling.RepeatedShufflingAsWrittenCollapses | SetRandomizer.cpp:513 | for 21 .. 39 indices the written stage sends every index below 20 to 0, whatever block 0 holds, while the corrected stage keeps indices 0 and 1 apart |
| SetRandomizerFacade.SetRandomizer.constructor | SetRandomizer.h:45-49 | the set size and the random source are stored, and the blocks are randomized at once into `ModeFor(setSize, numBlocks)` |
| SetRandomizerFacade.SetRandomizer.Randomize | SetRandomizer.h:51-54 | the owned blocks are refilled for the same set and the mode is `ModeFor(setSize, numBlocks)` |
| SetRandomizerFacade.SetRandomizer.GetWheeledIndex | SetRandomizer.h:56-59 | a read of the owned blocks: inside the set and in any mode but None the answer lies in the set; outside the set the index comes back unchanged |
| SetRandomizerFacade.SetRandomizer.GetSetSize | SetRandomizer.h:61 | the set size given at construction |
| SetRandomizerFacade.SetRandomizer.GetNumBlocks | SetRandomizer.h:62 | the block count, between 1 and 28 |
| SetRandomizerFacade.SetRandomizer.ArrangementPermutes | SetRandomizer.h:56-59 | between two Randomize calls, in any mode but None, the queries over the set form a permutation of it |
| StackShufflers.StackShufflerIsIdentity | LazyElementShuffler.h:231-252 | the stub `Get` is the identity: it fixes every index and permutes any set |
| EnumStrings.ToString | MathCommon.h:30-38 | a value inside the name table gives its name; any value at or past the table's end gives the empty string |
| EnumStrings.ToEnum | MathCommon.h:39-50 | the result is below the table size exactly when the string is a name; it is then the first index holding that name, and otherwise the count member (the table size) |
| EnumStrings.FindName | MathCommon.h:42-48 | the linear search returns the first matching index from `from` on, or the table size |
| EnumStrings.ToEnumOfToString | MathCommon.h:28-50 | with distinct names, converting a value below the count to its name and back gives the value |
| EnumStrings.ToStringOfToEnum | MathCommon.h:30-50 | a name in the table converts to a value whose name is that name again |
| EnumStrings.ToUnderlying | MathCommon.h:9-12 | the cast back to the 8-bit underlying type keeps the value modulo 256 |
| EnumStrings.PreIncrement | MathCommon.h:9 | prefix `++` adds one to the underlying value, wrapping 255 to 0 |
| EnumStrings.PreDecrement | MathCommon.h:10 | prefix `--` subtracts one, wrapping 0 to 255 |
| EnumStrings.PostIncrement | MathCommon.h:11 | postfix `++` gives the incremented argument and returns the old value |
| EnumStrings.PostDecrement | MathCommon.h:12 | postfix `--` gives the decremented argument and returns the old value |
| EnumStrings.Less | MathCommon.h:20 | `<` holds exactly when the underlying values compare so |
| EnumStrings.IncrementDecrementInverse | MathCommon.h:9-10 | incrementing and decrementing undo each other, across the wrap too |
| EnumStrings.EnumLoopStep | MathCommon.h:9-20 | below the count an increment never wraps and moves strictly up, so a loop up to the count visits each value once |
| StatsCounters.Stats.constructor | Stats.h:19-21 | the distributions start empty, with the legacy minimum at INT_MAX and the maxima at 0 |
| StatsCounters.Stats.ClearIntDistribution | Stats.cpp:4-10 | the legacy distribution becomes empty, its minimum INT_MAX and both maxima 0; the per-id distributions are untouched |
| StatsCounters.Stats.AddToIntDistribution | Stats.cpp:12-31 | only the addressed distribution changes, and it becomes `Added(old, value, amount)`, created empty first if absent |
| StatsCounters.Added | Stats.cpp:16-30 | the count for the value rises by `amount` from 0 if new; no other count changes; min <= value <= max afterwards, each bound moving only to the value; the amount maximum covers the new count; the axis names stay |
| StatsCounters.AddedSummarizes | Stats.cpp:12-31 | adding keeps every recorded value between the minimum and the maximum, every count at most the amount maximum, and the maximum non-negative |
| StatsCounters.EmptyDistributionSummarizes | Stats.h:19-21 | a fresh distribution (minimum INT_MAX, maximum 0) already satisfies that summary |
| StatsCounters.CountsBelowMaxCanAddOne | Stats.cpp:17 | a count below INT_MAX can take one more occurrence without overflow |
| StatsCounters.Stats.SetIntDistributionAxisNames | Stats.cpp:33-38 | only the two names of the addressed distribution change, created empty first if absent |
| WPCards.MakeCard | WPCard.cpp:5-11 | the constructor stores the level, name and effects verbatim |
| WPCards.GetCardEffect | WPCard.cpp:13-24 | the result is true exactly when some pair has the effect; then the magnitude is that of the first such pair; otherwise the out-parameter keeps its value |
| WPCards.FirstWithEffect | WPCard.cpp:15-22 | the scan returns the first index holding the effect, or the length |
| WPCards.FirstWithEffectSkips | WPCard.cpp:15-22 | an index with the effect and none before it is what the scan returns |
| WPCards.InvalidCardHasNoEffect | WPCard.cpp:3 | the invalid card has level 0 and no effect, so the scan never finds one on it |
| WPResources.RNG.RandomIndex | RNG.cpp:13-16 | the index is the next draw modulo the size, below the size, and one draw is consumed |
| WPResources.WPExecutionResources.RandomDieFace | WPExecutionResources.cpp:29-32 | the face is the next draw modulo the six faces |
| WPResources.GetSimplePredictedValue | WPExecutionResources.cpp:22-25 | the predicted value is the face value, plus one exactly when the die plays a card |
| WPResources.MakeDieRoll | WPExecutionResources.cpp:77-119 | the roll carries the type, the side value and the effect of the face; for the four setup dice the value plus the missing potential is the best face's value; the random-effect die has no missing potential; missing potential is never negative |
| WPResources.MakeDiceEffectList | WPExecutionResources.cpp:122-130 | all six faces get the same effect |
| WPResources.SidesNonDecreasing | WPExecutionResources.cpp:86-95 | every side row is sorted from the worst face to the best |
| WPResources.DieEffects | WPExecutionResources.cpp:97-106 | Heavy and Swing have no effect on any face, Bonus always gives ResultBonus, Card always plays a card, and RandomEffect plays a card on faces 0-1, gives ResultBonus on 2-3 and nothing on 4-5 |
| WPResources.SideValuesAreDigits | WPExecutionResources.cpp:86-95 | every side value is a single decimal digit |
| WPResources.WPExecutionResources.RollDiceOfType | WPExecutionResources.cpp:37-42 | the inner loop appends `numOfEach` dice of the type, each rolled with its own draw, and keeps the dice before them |
| WPResources.WPExecutionResources.RollNOfEachDie | WPExecutionResources.cpp:34-44 | the dice become `RolledDice`: 4n dice, one draw each, and a negative n gives no dice |
| WPResources.RolledDiceTypes | WPExecutionResources.cpp:34-44 | the roll holds n dice of each of Heavy, Swing, Bonus and Card, in that order |
| WPResources.WPExecutionResources.RerollDie | WPExecutionResources.cpp:46-49 | only the die at the index changes; it is rolled again with one draw and keeps its type |
| WPResources.WPExecutionResources.ReplaceDie | WPExecutionResources.cpp:51-54 | only the die at the index changes; it is rolled with one draw as the given type |
| WPResources.WPExecutionResources.RemoveDice | WPExecutionResources.cpp:56-67 | the dice become `KeptDice`: the unlisted dice in their order |
| WPResources.KeptIndexesAre | WPExecutionResources.cpp:58-65 | the kept indexes are exactly the unlisted ones below the count, in ascending order |
| WPResources.KeptDiceAre | WPExecutionResources.cpp:58-66 | the kept dice are the dice at the kept indexes, in the same order |
| WPResources.KeptAfterRemovingTwo | WPExecutionResources.cpp:56-67 | removing two distinct indexes drops one die for each index that is in range |
| WPResources.WPExecutionResources.GetNumRemainingCombatRounds | WPExecutionResources.h:98 | two dice are played per round |
| WPResources.WPExecutionResources.GetDieRoll | WPExecutionResources.cpp:69-76 | the die at an index inside the dice, and the invalid die with value -10 past the end |
| WPResources.DieAt | WPExecutionResources.cpp:69-76 | the same lookup on a die sequence |
| WPResources.WPExecutionResources.GetPossibleDieRollIndexes | WPExecutionResources.cpp:132-143 | every die index except `skipIndex`, ascending, and nothing else |
| WPResources.WPExecutionResources.GetSortedDieRollIndexes | WPExecutionResources.cpp:145-176 | min(n, count of possible indexes) distinct possible indexes, in the comparator's order, and none left out ranks before one kept |
| WPResources.WPExecutionResources.GetNWorstDieRollIndexes | WPExecutionResources.cpp:145-154 | min(n, count of possible indexes) distinct possible indexes, predicted value ascending, and none left out is predicted lower than one kept |
| WPResources.WPExecutionResources.GetNBestDieRollIndexes | WPExecutionResources.cpp:156-165 | min(n, count of possible indexes) distinct possible indexes, predicted value descending, and none left out is predicted higher than one kept |
| WPResources.WPExecutionResources.GetNHighestMissingPotentialDieRollIndexes | WPExecutionResources.cpp:167-176 | min(n, count of possible indexes) distinct possible indexes, missing potential descending, and none left out misses more than one kept |
| WPResources.SortByRank | WPExecutionResources.cpp:148-152 | the sort leaves a permutation of its input in the comparator's order |
| WPResources.InsertByRank | WPExecutionResources.cpp:148-152 | one insertion keeps the order and adds exactly that element |
| WPResources.SortedPrefixIsExtreme | WPExecutionResources.cpp:152-153 | cutting a sorted arrangement keeps the extreme elements |
| WPResources.WPExecutionResources.GetFirstRemainingDiceIndexWithEffect | WPExecutionResources.cpp:178-188 | -1 exactly when no unskipped die shows the effect; otherwise the smallest unskipped index that shows it |
| WPResources.WPExecutionResources.GetCard | WPExecutionResources.cpp:194-201 | the card at an index inside the list, and the invalid card of level 0 past the end |
| WPResources.WPExecutionResources.ResetCardsToDefault | WPExecutionResources.cpp:203-219 | the cards become the four default level-1 cards, and the dice stay |
| WPResources.WPExecutionResources.AddCardVariation | WPExecutionResources.cpp:221-300 | the cards become `WithVariation` of the old ones, and the dice stay |
| WPResources.WithVariation | WPExecutionResources.cpp:221-300 | ids 1 to 9 drop the last card and put their level-2 card first; any other id changes nothing |
| WPResources.VariationOnDefaults | WPExecutionResources.cpp:203-300 | a variation on the defaults keeps four cards, its level-2 card first and the first three defaults after it |
| WPWorkers.DieOnlyValue | WPWorker.cpp:1034-1037 | for two face dice the value is between 0 and 99, its tens digit is the tens die and its ones digit the ones die |
| WPWorkers.SwappedTotal | WPWorker.cpp:1044-1049 | exchanging the dice moves the total by nine times the difference of their values, which is the change in the die-only value |
| WPWorkers.SwapTwiceRestores | WPWorker.cpp:1044-1058 | exchanging the dice twice gives back the original total |
| WPWorkers.HigherFirstIsLarger | WPWorker.cpp:209-217 | the higher die in the tens place gives the larger reading, and only then |
| WPWorkers.FullRollResult.constructor | WPWorker.h:74-79 | both dice start as the invalid die |
| WPWorkers.FullRollResult.GetDieRollOnlyValue | WPWorker.cpp:1034-1037 | the two dice read as a two-digit number, tens first |
| WPWorkers.FullRollResult.CountEffects | WPWorker.cpp:1039-1042 | between 0 and 2; 0 exactly when neither die has the effect and 2 exactly when both have it |
| WPWorkers.FullRollResult.GetTotalValueIfDiceSwapped | WPWorker.cpp:1044-1049 | the total moves by nine times the ones value minus the tens value |
| WPWorkers.FullRollResult.SwapDice | WPWorker.cpp:1051-1058 | the dice change places, the total moves by the change in the die-only value and lands where `GetTotalValueIfDiceSwapped` predicted |
| WPWorkers.DrawsTaken | WPWorker.cpp:319-325 | a draw takes min(numCards, deck size) cards, none for a non-positive count |
| WPWorkers.DrawnPilesMoves | WPWorker.cpp:317-326 | drawing moves that many cards to the end of the hand, keeps the old hand as a prefix, and deck and hand together keep the same cards |
| WPWorkers.DrawnPilesUnfold | WPWorker.cpp:321-324 | one draw moves the card at the drawn position to the hand and the remaining draws start one later |
| WPWorkers.DrawnPilesDone | WPWorker.cpp:319 | with nothing to draw or an empty deck the piles stay as they are |
| WPWorkers.DrawPilesStep | WPWorker.cpp:322-323 | taking one position out of the deck moves exactly that card |
| WPWorkers.WPWorker.constructor | WPWorker.h:156-197 | the references are kept and the in-class defaults hold: a Basic worker with 100 VP, zeroed stats, empty piles and no opponent |
| WPWorkers.WPWorker.SetWorkerType | WPWorker.cpp:14-17 | only the worker type changes |
| WPWorkers.WPWorker.SetupStatsFromWorkerType | WPWorker.cpp:26-76 | each of Basic, Trained, Warrior and Rogue gets its own fixed skill, damage, maximum health, hold, flee and starting hand size; any other value leaves the stats alone |
| WPWorkers.StatRowProperties | WPWorker.cpp:26-76 | setting up the stats is idempotent, never touches current health or flee, raises skill by 10 from each type to the next, and gives every real type positive maximum health and hand size |
| WPWorkers.WPWorker.ClearThisRoundStats | WPWorker.cpp:98-105 | this round's played cards, skill, bonus, extra evaluations and swap flag are reset and nothing else changes |
| WPWorkers.WPWorker.MoveToNextRound | WPWorker.cpp:107-112 | the round number goes up by one, next round's extra evaluations become this round's and are zeroed, and nothing else changes |
| WPWorkers.WPWorker.SetOpponent | WPWorker.cpp:114-117 | only the opponent changes |
| WPWorkers.WPWorker.GetTotalEvaluatesThisRound | WPWorker.cpp:443-446 | one evaluation plus this worker's extra evaluations, plus the opponent's when there is one |
| WPWorkers.WPWorker.DrawCards | WPWorker.cpp:317-326 | the piles become `DrawnPiles` of the old ones, one draw per card taken; the hand grows by the cards taken and no card is lost or invented |
| WPWorkers.WPWorker.DrawFromDeck | WPWorker.cpp:319-325 | the loop leaves `DrawnPiles` of its input piles and consumes one draw per card taken |
| WPWorkers.WPWorker.GetRandomIndexFromList | WPWorker.cpp:923-930 | -1 and no draw for an empty list, otherwise the entry the next draw picks, which is in the list |
| WPWorkers.WPWorker.SelectDice | WPWorker.cpp:196-217 | two distinct remaining dice that keep each strategy pick, exchanged if needed so that the tens die is not lower than the ones die |
| WPWorkers.WPWorker.PullDice | WPWorker.cpp:177-239 | with less than a combat round of dice the default result and no change; otherwise the pulled pair, tens die not lower, exactly those two dice removed, the two-digit total recorded in the histogram and the running totals |
| WPWorkers.WPWorker.RecordRoll | WPWorker.cpp:227-236 | the roll count goes up by one, the value total by the roll's total, and the histogram, when there is one, gains the total |
| WPWorkers.WPWorker.ExecuteHealEffect | WPWorker.cpp:554-561 | a card with a heal effect adds its first heal magnitude to current health, then caps it at the maximum; any other card leaves health alone; nothing else changes |
| WPWorkers.Clamped | WPWorker.cpp:557-560 | the result is at most the maximum, equal to the health or to the maximum, and equal to the health when the health does not exceed the maximum |
| WPWorkers.HealMagnitude | WPCard.cpp:13-24 | for a healing card, the magnitude of its first heal pair |
| WPWorkers.WPWorker.PrepForCombat | WPWorker.cpp:78-96 | a real type starts alive at full health, no flee, round 1 with a clean slate; the deck holds every card index except the starting hand that was drawn; the dice are two fresh dice of each type |
| WPWorkers.WPWorker.PrepStats | WPWorker.cpp:78-85 | the type's stat row at full health and no flee, round 1, nothing earned yet |
| WPWorkers.WPWorker.FillDeck | WPWorker.cpp:87-91 | the deck becomes every card index in order |
| WPWorkers.AllCardIndices | WPWorker.cpp:87-91 | n entries, entry i equal to i |
| WPChallenges.WPChallenge.constructor | WPChallenge.cpp:3-8 | the challenge keeps the random source and the statistics and owns fresh execution resources on the same random source, with no dice, cards or workers |
| WPChallenges.WPChallenge.Execute | WPChallenge.cpp:10-65 | one die of each type is rolled (four draws); the values of the first min(dice, workers) dice meet the skill tenths of as many workers in order; the wins are those of the cardless matching, at most one per die |
| WPChallenges.FirstDieValues | WPChallenge.cpp:22-26 | the values of the first n dice, in order |
| WPChallenges.WPChallenge.WorkerSkillTenths | WPChallenge.cpp:28-33 | the skill of each of the first n workers divided by 10, truncating |
| WPChallenges.MatchWithoutCards | WPChallenge.cpp:38-65 | the loop over the die values leaves exactly the wins, unmatched values and remaining skills of `Cardless` |
| WPChallenges.MatchOne | WPChallenge.cpp:41-63 | one die value wins exactly when it meets the difficulty alone or with some remaining skill; the skill used is removed |
| WPChallenges.FindLastFit | WPChallenge.cpp:50-59 | the search from the end returns `LastFit`: the last skill that lifts the value to the difficulty, or -1 |
| WPChallenges.LastFit | WPChallenge.cpp:50-59 | a result of -1 or an earlier index whose skill reaches the difficulty, and no later skill does |
| WPChallenges.Remaining | WPChallenge.cpp:45-55 | one skill fewer exactly when the value was matched, and only skills that were there |
| WPChallenges.CardlessCounts | WPChallenge.cpp:38-65 | every value is either a win or unmatched, every win uses one skill, and every value that meets the difficulty alone is a win |
| WPChallenges.CardlessSkillsLeft | WPChallenge.cpp:38-65 | the remaining skills are a sub-multiset of the workers' skills |
| WPChallenges.CardlessUnmatched | WPChallenge.cpp:38-65 | the unmatched values are a sub-multiset of the die values |
| WPChallenges.CardlessMissesNothing | WPChallenge.cpp:38-65 | no unmatched value meets the difficulty alone or with any remaining skill |
| WPChallenges.NoFitInLeftovers | WPChallenge.cpp:50-61 | a value that fit no skill fits none of the skills left later |
| WPChallenges.WPChallenge.SetupChallengeToRoundDefaults | WPChallenge.cpp:108-115 | the difficulty is 6 plus (round - 1) / 2 truncated toward zero; there are three workers, the first Trained with Trained stats and the other two default Basic; the cards are the defaults and the dice stay |
| WPChallenges.WPChallenge.ResetWorkers | WPChallenge.cpp:117-125 | the workers become numWorkers fresh default Basic workers (none for a negative count) sharing the challenge's random source, resources and statistics |
| WPChallenges.WPChallenge.TryUpgradeNWorkers | WPChallenge.cpp:127-143 | the workers stay the same objects; exactly the first numWorkers of type fromType (all of them when numWorkers is not positive) become toType with its stat row; the others are unchanged |
| WPChallenges.UpgradeFlags | WPChallenge.cpp:129-142 | one flag per worker, set exactly where the worker is upgraded |
| WPChallenges.UpgradeCount | WPChallenge.cpp:129-142 | the number upgraded among the first n is the count of fromType there, capped at numWorkers when it is positive |
| WPChallenges.UpgradedAreFirst | WPChallenge.cpp:129-142 | an upgraded worker has every earlier fromType worker upgraded too |
| WPChallenges.CountBeforeMonotone | WPChallenge.cpp:132-136 | the count of a type grows along the crew |
| WPChallenges.UpgradeCrew | WPChallenge.cpp:130-142 | each distinct worker of the crew ends up upgraded exactly as its flag says |
| WPChallenges.UpgradePass | WPChallenge.cpp:130-142 | the loop, including its early return, leaves each worker upgraded from its old type and stats exactly as its flag says |
| WPChallenges.StoppedAfter | WPChallenge.cpp:137-140 | returning once numWorkers were upgraded leaves the rest exactly as the flags say |
| WPChallenges.UpgradeAt | WPChallenge.cpp:134-135 | only the worker at the index gets the new type and its stat row |
| WPChallenges.UpgradeWorker | WPChallenge.cpp:134-135 | the worker gets the new type and its stat row |
| ConsoleMenus.InputModeFromChar | ConsoleMenu.cpp:3-13 | `x` gives hex, `d` decimal, `b` binary, and every other character invalid, each in both directions |
| ConsoleMenus.BaseOfMode | ConsoleMenu.cpp:15-25 | base 16 exactly for hex, 2 exactly for binary, 10 for everything else |
| ConsoleMenus.ModeLetterRoundTrip | ConsoleMenu.cpp:3-13 | the letter of a number mode reads back as that mode |
| ConsoleMenus.ModeFromCharIsLetter | ConsoleMenu.cpp:3-13 | a character that names a mode is that mode's letter |
| ConsoleMenus.NumArgs | ConsoleMenu.h:53 | number and text commands take their declared count of parameters; plain and sub-menu commands take none |
| ConsoleMenus.GetInput | ConsoleMenu.cpp:65-74 | the input at a position inside the list, and the invalid input past its end |
| ConsoleMenus.PieceInput | ConsoleMenu.cpp:98-109 | a forced-text piece is all text; otherwise a leading mode letter sets the mode and is dropped, and without one the whole piece is an invalid-mode input |
| ConsoleMenus.PieceInputs | ConsoleMenu.cpp:96-111 | one input per piece, each read by `PieceInput` |
| ConsoleMenus.SplitDescriptionFails | ConsoleMenu.cpp:98 | the split throws exactly when the description has a `;` and ends with one |
| ConsoleMenus.SplitThrowsAtEnd | ConsoleMenu.cpp:98 | the same condition on the throwing predicate |
| ConsoleMenus.LastPieceAtEnd | ConsoleMenu.cpp:96-111 | the last piece is empty exactly when the description ends with `;` |
| ConsoleMenus.SplitDescriptionOfTwoDecimals | ConsoleMenu.cpp:90-115 | a name followed by `;dx;dy` splits into that name and two decimal inputs `x` and `y` |
| ConsoleMenus.SplitDescriptionExample | ConsoleMenu.cpp:90-115 | `Add Single Point;dx;dy` splits into the name and two decimal inputs |
| ConsoleMenus.InputsFromSplits | ConsoleMenu.cpp:96-111 | the do-while loop from a `;` reads the same inputs as reading every piece after it |
| ConsoleMenus.SplitDescriptionByInputsFrom | ConsoleMenu.cpp:92-114 | with a `;`, the split is the text before the first one and the inputs the loop reads |
| ConsoleMenus.ReadInputAfter | ConsoleMenu.cpp:98-109 | one pass of the loop reads the input of the piece after the `;` and finds the next `;` |
| ConsoleMenus.ReadInputsFrom | ConsoleMenu.cpp:96-111 | the loop reads `InputsFrom` the first `;` |
| ConsoleMenus.SplitDescriptionAmongInputs | ConsoleMenu.cpp:90-115 | the method computes `SplitDescription` |
| ConsoleMenus.NewCommand | ConsoleMenu.cpp:76-88 | a command exists exactly when the split does not throw; it keeps the name and kind and holds the split's description and inputs, forced text for text and sub-menu commands |
| ConsoleMenus.SplitInputsOk | ConsoleMenu.cpp:90-115 | every input read has a hex, decimal, binary, text or invalid mode and never a menu mode |
| ConsoleMenus.MatchValueMeaning | ConsoleMenu.cpp:49-63 | 0 exactly for the whole command, a positive count of missing characters exactly for a proper prefix, -1 otherwise |
| ConsoleMenus.Matches | ConsoleMenu.cpp:49-63 | the walk over the NUL-terminated typed text returns `MatchValue` |
| ConsoleMenus.Typed | ConsoleMenu.cpp:469-498 | the typed text is `pos` printable characters |
| ConsoleMenus.Put | ConsoleMenu.cpp:469-478 | a printable character is appended while there is room for it and the terminator; anything else changes nothing; this is the corrected guard of the Findings row for ConsoleMenu.cpp:469-478 |
| ConsoleMenus.PutAsWrittenAgreesBelowLastSlot | ConsoleMenu.cpp:469-478 | below the last slot the code as written does what `Put` does |
| ConsoleMenus.PutAsWrittenOverrunsAtLastSlot | ConsoleMenu.cpp:469-478 | at position 512 the code as written writes the terminator past the 513-byte buffer |
| ConsoleMenus.Backspace | ConsoleMenu.cpp:480-488 | the last typed character goes, if there is one |
| ConsoleMenus.Clear | ConsoleMenu.cpp:490-498 | nothing is left typed and only the first slot is rewritten |
| ConsoleMenus.ConvertMode | ConsoleMenu.cpp:442-458 | the mode changes and the line holds just the mode's letter for a number mode, nothing otherwise |
| ConsoleMenus.DigitBelowBase | ConsoleMenu.cpp:385-406 | a digit the mode accepts is below the mode's base |
| ConsoleMenus.DigitRun | ConsoleMenu.cpp:379 | the run of the mode's digits from a position is maximal |
| ConsoleMenus.DigitsValueBound | ConsoleMenu.cpp:379 | n digits are worth less than the base to the n |
| ConsoleMenus.ParsedNumber | ConsoleMenu.cpp:379-380 | the parsed value fits 64 bits |
| ConsoleMenus.ParsedIsTypedNumber | ConsoleMenu.cpp:379-406 | what `strtoull` reads after the mode letter is the value of the typed digits, saturated at the 64-bit maximum |
| ConsoleMenus.FirstExact | ConsoleMenu.cpp:322-349 | the first command the typed text names in full, or the count when none does |
| ConsoleMenus.Lowercase | ConsoleMenu.cpp:207-211 | capitals move up 32 to the lower-case letter and other characters stay |
| ConsoleMenus.StartParamOk | ConsoleMenu.cpp:460-467 | starting a parameter keeps the menu state well formed |
| ConsoleMenus.CommitOk | ConsoleMenu.cpp:410-440 | committing a parameter keeps the menu state well formed |
| ConsoleMenus.EvaluateOk | ConsoleMenu.cpp:319-360 | evaluating the typed command keeps the menu state well formed |
| ConsoleMenus.EscapeOk | ConsoleMenu.cpp:217-244 | escape keeps the menu state well formed |
| ConsoleMenus.CommandKeyOk | ConsoleMenu.cpp:245-254 | a key in command mode keeps the menu state well formed |
| ConsoleMenus.ParamKeyOk | ConsoleMenu.cpp:255-274 | a key at a parameter prompt keeps the menu state well formed |
| ConsoleMenus.ReceiveKeepsMenuOk | ConsoleMenu.cpp:196-282 | every key keeps the menu state well formed, a key handed to a sub-menu included |
| ConsoleMenus.ReceiveKeepsNumberBuffer | ConsoleMenu.cpp:196-282 | every key also keeps a number prompt's buffer starting with its mode letter |
| ConsoleMenus.ConvertModeKeepsNumberBuffer | ConsoleMenu.cpp:442-458 | changing mode leaves the mode letter first |
| ConsoleMenus.StartParamKeepsNumberBuffer | ConsoleMenu.cpp:460-467 | a new parameter prompt starts with its mode letter |
| ConsoleMenus.CommitKeepsNumberBuffer | ConsoleMenu.cpp:410-440 | committing leaves the mode letter first |
| ConsoleMenus.EvaluateKeepsNumberBuffer | ConsoleMenu.cpp:319-360 | evaluating a command leaves the mode letter first |
| ConsoleMenus.NumberKeyKeepsNumberBuffer | ConsoleMenu.cpp:385-406 | typing a digit keeps the mode letter first |
| ConsoleMenus.BackspaceKeepsNumberBuffer | ConsoleMenu.cpp:480-488 | a backspace keeps the mode letter first or empties the line |
| ConsoleMenus.EscapeKeepsNumberBuffer | ConsoleMenu.cpp:217-244 | escape, corrected, keeps the mode letter first |
| ConsoleMenus.EscapeBacksOut | ConsoleMenu.cpp:217-244 | from every parameter prompt, at most two escapes bring the menu back to command mode, and it keeps running meanwhile |
| ConsoleMenus.CommandKeyKeepsNumberBuffer | ConsoleMenu.cpp:245-254 | a command key keeps the mode letter first |
| ConsoleMenus.ParamKeyKeepsNumberBuffer | ConsoleMenu.cpp:255-274 | a parameter key keeps the mode letter first |
| ConsoleMenus.DecimalFiveTyped | ConsoleMenu.cpp:226-230 | a decimal prompt with `d5` typed |
| ConsoleMenus.EscapeAsWrittenDropsFirstDigit | ConsoleMenu.cpp:226-230 | as written, escape at `d5` and then `7` leaves `7` in the buffer, which parses as 0 |
| ConsoleMenus.EscapeDecimalKeepsFirstDigit | ConsoleMenu.cpp:226-230 | with the letter put back, escape and then `7` parse as 7 |
| ConsoleMenus.ConsoleMenu.constructor | ConsoleMenu.h:189-193 | command mode, an empty buffer, no commands, no current command |
| ConsoleMenus.ConsoleMenu.AddCommand | ConsoleMenu.cpp:284-287 | the command is appended to the list |
| ConsoleMenus.ConsoleMenu.PutInput | ConsoleMenu.cpp:469-478 | the buffer changes as `Put` says, terminator included, with the corrected guard of the Findings row for ConsoleMenu.cpp:469-478 |
| ConsoleMenus.ConsoleMenu.BackspaceLastInput | ConsoleMenu.cpp:480-488 | the buffer changes as `Backspace` says |
| ConsoleMenus.ConsoleMenu.ClearInput | ConsoleMenu.cpp:490-498 | the buffer changes as `Clear` says |
| ConsoleMenus.ConsoleMenu.StartNewInputOnNewLine | ConsoleMenu.cpp:500-505 | the line is emptied as by `Clear` |
| ConsoleMenus.ConsoleMenu.ConvertModeTo | ConsoleMenu.cpp:442-458 | the state changes as `ConvertMode` says |
| ConsoleMenus.ConsoleMenu.StartParamInput | ConsoleMenu.cpp:460-467 | the parameter counter goes up and the prompt takes the input's mode, decimal for an invalid one |
| ConsoleMenus.ConsoleMenu.ResetMenu | ConsoleMenu.cpp:160-183 | empty line, command mode, exit flag cleared |
| ConsoleMenus.ConsoleMenu.ExecuteCurrentCommand | ConsoleMenu.cpp:507-521 | after the command runs, force exit when the exit flag is set, otherwise reset |
| ConsoleMenus.ConsoleMenu.CommitCurrentCommandParam | ConsoleMenu.cpp:410-440 | the next parameter's prompt while parameters remain; then run, prompt again from the first parameter, or force exit, as validation answers |
| ConsoleMenus.ConsoleMenu.FinishCommand | ConsoleMenu.cpp:417-439 | the branch after the last parameter follows the validation answer |
| ConsoleMenus.ConsoleMenu.SetArg | ConsoleMenu.cpp:366-380 | the current command's argument at the previous parameter is set, when the command takes that kind |
| ConsoleMenus.ConsoleMenu.ReceiveNumberInput | ConsoleMenu.cpp:375-408 | a separator stores the parsed number and commits it; a digit of the mode is put; anything else is ignored |
| ConsoleMenus.ConsoleMenu.ReceiveTextInput | ConsoleMenu.cpp:362-373 | a newline stores the typed text and commits it; any other key is put |
| ConsoleMenus.ConsoleMenu.SelectCommand | ConsoleMenu.cpp:326-348 | the found command becomes current: a sub-menu is entered, a command with parameters prompts for the first, any other runs |
| ConsoleMenus.ConsoleMenu.EvaluateCommandInput | ConsoleMenu.cpp:319-360 | the first command typed in full is selected; with none and no partial match the line is cleared |
| ConsoleMenus.ConsoleMenu.MatchCommands | ConsoleMenu.cpp:321-354 | the loop finds `FirstExact`, and when it finds none it counts a partial match exactly when some command extends the typed text |
| ConsoleMenus.ConsoleMenu.ReceiveCommandInput | ConsoleMenu.cpp:313-317 | the key is put, then the line is evaluated |
| ConsoleMenus.ConsoleMenu.ReceiveCommandKey | ConsoleMenu.cpp:245-254 | `x` on an empty line leaves the menu; any other key is received as command input |
| ConsoleMenus.ConsoleMenu.ReceiveEscape | ConsoleMenu.cpp:217-244 | escape turns hex or binary into decimal, clears typed text, backs out of a parameter or leaves the menu from an empty command line; in decimal mode it clears typed digits back to the mode letter, and a prompt holding only the letter backs out, the corrected escape of the Findings row for ConsoleMenu.cpp:226-230 |
| ConsoleMenus.ConsoleMenu.ReceiveParamInput | ConsoleMenu.cpp:255-274 | a mode letter at a decimal prompt switches the mode; other keys go to text or number input |
| ConsoleMenus.ConsoleMenu.ReceiveInput | ConsoleMenu.cpp:196-282 | in a sub-menu the key goes to the sub-menu and a stopping sub-menu resets this menu, which keeps running; otherwise the menu's new state and whether it keeps running are what `Receive` gives for the lowered key, with the corrected escape and input guard of the Findings rows for ConsoleMenu.cpp:226-230 and ConsoleMenu.cpp:469-478 |
| SquareContainmentData.RoundToDouble | SquareContainmentMenu.cpp:802-803 | a 64-bit value at or above 2^63 becomes the nearest multiple of 2048, at most 1024 away, still between 2^63 and 2^64 |
| SquareContainmentData.SettedCoordinate | SquareContainmentGlobalData.cpp:281-296 | a non-negative coordinate is kept; a negative one wraps to 2^64 + x and is then rounded to a double's multiple of 2048 |
| SquareContainmentData.NegativeCoordinateIsHuge | SquareContainmentGlobalData.cpp:296 | every negative coordinate from the file lands above 2^64 - 2^32 |
| SquareContainmentData.FindText | SquareContainmentMenu.cpp:809 | a found index is at or after the start and the needle is there |
| SquareContainmentData.FindLetter | SquareContainmentMenu.cpp:809 | a one-letter needle is found exactly when the letter occurs from the start on |
| SquareContainmentData.OccursLetter | SquareContainmentGlobalData.cpp:11-25 | a set name occurs exactly when its one letter does |
| SquareContainmentData.NamedSetsAre | SquareContainmentMenu.cpp:806-818 | the sets of a point are exactly those whose name occurs, each once, in increasing enum order |
| SquareContainmentData.DigitsOf | SquareContainmentMenu.cpp:820-827 | only digits are kept |
| SquareContainmentData.DigitIndexIsDecimal | SquareContainmentMenu.cpp:820-827 | the index is the decimal number that all the digits of the set names form, in order |
| SquareContainmentData.DigitIndexExample | SquareContainmentMenu.cpp:820-827 | "PV1_4" gives index 14; one concrete instance of `DigitIndexIsDecimal`, not a general property |
| SquareContainmentData.SettedPointSets | SquareContainmentMenu.cpp:802-833 | a new point is part of exactly the sets whose letter occurs in its names, and is in section 0 exactly when it is part of C |
| SquareContainmentData.ReadSets | SquareContainmentMenu.cpp:805-818 | the loop reads `NamedSets`; the section is 0 when C occurs and 1 otherwise |
| SquareContainmentData.ReadIndex | SquareContainmentMenu.cpp:820-827 | the loop reads `DigitIndex` |
| SquareContainmentData.NewSettedPoint | SquareContainmentMenu.cpp:802-828 | the constructor builds `SettedPointOf` the coordinates and names |
| SquareContainmentData.ResectionedKeepsSets | SquareContainmentMenu.cpp:835-841 | the copy belongs to the same sets with the same point and index, and is in section 0 exactly when the original was or the new section is 0 |
| SquareContainmentData.ParamsKeepFunc | SquareContainmentGlobalData.cpp:61-96 | the parameters never change the function |
| SquareContainmentData.ParamsKeepSetsKnown | SquareContainmentGlobalData.cpp:81-88 | only known set types are added |
| SquareContainmentData.ParamsThrowOnEmpty | SquareContainmentGlobalData.cpp:61-96 | the loop throws exactly when some parameter after the first is empty |
| SquareContainmentData.ParamsKeepNames | SquareContainmentGlobalData.cpp:80-93 | parameters after the first add no point names |
| SquareContainmentData.UnknownFunctionParsesNothing | SquareContainmentGlobalData.cpp:51-55 | without a `:`, or with an unknown function before it, the assertion stays the default one with the count function |
| SquareContainmentData.ParseAssertionShape | SquareContainmentGlobalData.cpp:45-99 | the function is the count member exactly for a missing or unknown name; it throws exactly when the name is known and a later parameter is empty; otherwise the point names are the comma pieces of the first parameter; every set type is known |
| SquareContainmentData.ParseAssertionExample | SquareContainmentGlobalData.cpp:49 | `MaxCountOfSet:C,O,O_2;@P;0` gives names C, O and O_2, set P and count 0 |
| SquareContainmentData.ExampleParamSteps | SquareContainmentGlobalData.cpp:61-96 | the example's three parameters read names C, O and O_2, set P and count 0; a proof step of `ParseAssertionExample` on one concrete line, not a general property |
| SquareContainmentData.ExampleLine | SquareContainmentGlobalData.cpp:51-60 | the example line names `MaxCountOfSet` and leaves three parameters; a proof step of `ParseAssertionExample` on one concrete line, not a general property |
| SquareContainmentData.ExampleFirstParam | SquareContainmentGlobalData.cpp:67-79 | the first parameter names C, O and O_2; a proof step of `ParseAssertionExample` on one concrete line, not a general property |
| SquareContainmentData.ExampleSetParam | SquareContainmentGlobalData.cpp:81-88 | `@P` adds set P; a proof step of `ParseAssertionExample` on one concrete line, not a general property |
| SquareContainmentData.ExampleCountParam | SquareContainmentGlobalData.cpp:90-93 | `0` adds count 0; a proof step of `ParseAssertionExample` on one concrete line, not a general property |
| SquareContainmentData.ExampleParams | SquareContainmentGlobalData.cpp:63-64 | the parameters split at `;`; a proof step of `ParseAssertionExample` on one concrete line, not a general property |
| SquareContainmentData.ExampleLaterParams | SquareContainmentGlobalData.cpp:63-64 | the last two parameters split at `;`; a proof step of `ParseAssertionExample` on one concrete line, not a general property |
| SquareContainmentData.ExampleNames | SquareContainmentGlobalData.cpp:72-78 | the point names split at `,`; a proof step of `ParseAssertionExample` on one concrete line, not a general property |
| SquareContainmentData.ExampleLaterNames | SquareContainmentGlobalData.cpp:72-78 | the last two point names split at `,`; a proof step of `ParseAssertionExample` on one concrete line, not a general property |
| SquareContainmentData.ParseAssertionThrowsOnEmptyParam | SquareContainmentGlobalData.cpp:81 | `Fail:A;;` throws at `param.at(0)` |
| SquareContainmentData.SplitPointNames | SquareContainmentGlobalData.cpp:70-78 | the inner loop reads the comma pieces of the parameter |
| SquareContainmentData.ReadParam | SquareContainmentGlobalData.cpp:63-93 | one parameter is read as `ParamStep` says, the throw included |
| SquareContainmentData.ParamsFromStep | SquareContainmentGlobalData.cpp:61-96 | a throw stops the loop; otherwise the loop goes on with the next parameter |
| SquareContainmentData.PiecesFromStep | SquareContainmentGlobalData.cpp:63-64 | the piece read at a start and the pieces after it |
| SquareContainmentData.SetFromLine | SquareContainmentGlobalData.cpp:45-99 | the method computes `ParseAssertion`, the throw included |
| SquareContainmentData.ReadParams | SquareContainmentGlobalData.cpp:57-96 | the do-while loop reads the parameters as `ParamsFrom` says, stopping at the first throw |
| SquareContainmentData.ReadParamAt | SquareContainmentGlobalData.cpp:63-94 | one pass reads the parameter up to the next `;` and reports where that `;` is; the rest of the parse continues after it unless this pass threw or was the last |
| SquareContainmentData.TokenNameShape | SquareContainmentGlobalData.cpp:218-231 | a kept name has no space and no lower-case letter and is no longer than the text |
| SquareContainmentData.TokenNameOfKept | SquareContainmentGlobalData.cpp:218-231 | text of characters kept as they are is its own name |
| SquareContainmentData.TokenNameIdempotent | SquareContainmentGlobalData.cpp:218-231 | keeping a kept name again changes nothing |
| SquareContainmentData.NamePieces | SquareContainmentGlobalData.cpp:215-236 | there is always at least one piece |
| SquareContainmentData.TokenNames | SquareContainmentGlobalData.cpp:218-233 | one name per piece, each the piece as kept |
| SquareContainmentData.SplitEndingInSeparator | SquareContainmentGlobalData.cpp:235-236 | a string ending in its separator splits into a last empty piece after the others |
| SquareContainmentData.TokensFromPieces | SquareContainmentGlobalData.cpp:215-236 | the loop from any position reads one name per comma piece and none after a final comma |
| SquareContainmentData.TokenizedNames | SquareContainmentGlobalData.cpp:210-236 | the names are the comma pieces with spaces dropped and a-z uppercased; an empty string gives one empty name |
| SquareContainmentData.TokenizedNamesExample | SquareContainmentGlobalData.cpp:210-236 | "a, b,c," names A, B and C |
| SquareContainmentData.KeepChar | SquareContainmentGlobalData.cpp:220-230 | a space adds nothing, a–z adds its upper-case letter, and any other character is appended unchanged |
| SquareContainmentData.ReadName | SquareContainmentGlobalData.cpp:217-231 | the inner loop stops at the next comma or the end and keeps the name of the text before it |
| SquareContainmentData.TokenizeNames | SquareContainmentGlobalData.cpp:212-236 | the outer loop reads the names `TokensFrom` describes, which are the kept comma pieces |
| SquareContainmentGlobal.FoundInWellFormed | SquareContainmentGlobalData.cpp:296-297 | in well-formed points the point found under a key is named by that key and has known sets only |
| SquareContainmentGlobal.EmplaceWellFormed | SquareContainmentGlobalData.cpp:296 | `emplace` keeps the map in key order, leaves every other entry as it was, and reports the old value under the key if there was one, else the new value |
| SquareContainmentGlobal.SetValueWellFormed | SquareContainmentGlobalData.cpp:297 | naming the reported entry by its key makes the points well formed again |
| SquareContainmentGlobal.ConfigEntrySplits | SquareContainmentGlobalData.cpp:241-248 | a line without `:` is ignored; otherwise key, `:` and value make up the line, and the key holds no `:` |
| SquareContainmentGlobal.ConfigEntryOfJoined | SquareContainmentGlobalData.cpp:241-248 | a key without `:` joined to any value by `:` splits back into the two |
| SquareContainmentGlobal.NameBeforePlusIs | SquareContainmentGlobalData.cpp:285-295 | the name is a prefix of the set names with no `+`, and is all of them exactly when they hold no `+` |
| SquareContainmentGlobal.AddSettedPointWellFormed | SquareContainmentGlobalData.cpp:273-300 | reading a setted point line keeps the points well formed |
| SquareContainmentGlobal.FindAfterSettedPointLine | SquareContainmentGlobalData.cpp:273-300 | after the line, its name finds the point already loaded under it if any, else the line's point; every other name finds what it found before; a line that does not parse changes nothing |
| SquareContainmentGlobal.SettedPointLineKeepsFirst | SquareContainmentGlobalData.cpp:296 | a later line for a loaded name changes nothing |
| SquareContainmentGlobal.SettedPointLineOfWritten | SquareContainmentGlobalData.cpp:273-296 | a line written as `sets:x,y` names the point before `+` at (x, y) |
| SquareContainmentGlobal.OpensSetHasName | SquareContainmentGlobalData.cpp:324-328 | an opening line is at least two characters long |
| SquareContainmentGlobal.BracketedNameOpensSet | SquareContainmentGlobalData.cpp:324-328 | `[name]` opens the set `name` |
| SquareContainmentGlobal.WithPoint | SquareContainmentGlobalData.cpp:337 | only the indexed set changes, by one more point at its end |
| SquareContainmentGlobal.FoundPoints | SquareContainmentGlobalData.cpp:198-208 | at most one point per name |
| SquareContainmentGlobal.FoundPointsAppend | SquareContainmentGlobalData.cpp:200-207 | filling two lists is filling the first, then the second |
| SquareContainmentGlobal.FoundPointsSkipsAbsent | SquareContainmentGlobalData.cpp:202-206 | a name that is not loaded is skipped |
| SquareContainmentGlobal.FoundPointsAllLoaded | SquareContainmentGlobalData.cpp:198-208 | when every name is loaded, one point per name, at its setted point and carrying the name asked for |
| SquareContainmentGlobal.FoundPointsSound | SquareContainmentGlobalData.cpp:198-208 | every added point carries a listed, loaded name and stands where that setted point does |
| SquareContainmentGlobal.FoundPointIsSettedPoint | SquareContainmentGlobalData.cpp:205 | in well-formed points the added point is the setted point itself |
| SquareContainmentGlobal.VerticalName | SquareContainmentGlobalData.cpp:353-364 | same length, each `H` turned into `V`, every other character kept |
| SquareContainmentGlobal.VerticalNameShape | SquareContainmentGlobalData.cpp:353-364 | a vertical name has no `H`, a name without `H` is unchanged, and the renaming is idempotent |
| SquareContainmentGlobal.ReplaceSetType | SquareContainmentGlobalData.cpp:367 | the replacement keeps the length |
| SquareContainmentGlobal.ReplaceHorizontal | SquareContainmentGlobalData.cpp:367 | replacing H by V keeps the sets known, leaves no H, puts V in where H was, and touches no other set |
| SquareContainmentGlobal.FindAfterVerticalStep | SquareContainmentGlobalData.cpp:350-372 | a point outside H changes nothing; for one in H only its vertical name finds something new: the vertical copy of what was loaded under that name, or of the point moved to section 1 |
| SquareContainmentGlobal.VerticalStepWellFormed | SquareContainmentGlobalData.cpp:350-372 | one pass keeps the points well formed |
| SquareContainmentGlobal.VerticalFromWellFormed | SquareContainmentGlobalData.cpp:344-373 | the whole pass keeps the points well formed |
| SquareContainmentGlobal.VerticalFromKeepsNames | SquareContainmentGlobalData.cpp:344-373 | every name loaded before the pass is loaded after it |
| SquareContainmentGlobal.VerticalFromNames | SquareContainmentGlobalData.cpp:344-373 | after the pass a name is loaded exactly when it was before or is the vertical name of a point of H |
| SquareContainmentGlobal.VerticalTwin | SquareContainmentGlobalData.cpp:366-371 | the twin of a point of H under a new vertical name has x and y swapped, V for H, the same index, and section 1 unless the point was in section 0 |
| SquareContainmentGlobal.VerticalStepOnOwnName | SquareContainmentGlobalData.cpp:350-372 | a point of H whose name has no `H` is rewritten in place: coordinates swapped and moved from set H to set V |
| SquareContainmentGlobal.GlobalData.constructor | SquareContainmentGlobalData.h:119-124 | all lists and the setted-point map start empty |
| SquareContainmentGlobal.GlobalData.ReadConfigLine | SquareContainmentGlobalData.cpp:241-248 | a line with a `:` appends its key and value to the settings; nothing else changes |
| SquareContainmentGlobal.GlobalData.ReadSettedPointLine | SquareContainmentGlobalData.cpp:273-300 | the setted points become `AddSettedPoint` of the old ones and stay well formed; nothing else changes |
| SquareContainmentGlobal.GlobalData.ReadAssertionLine | SquareContainmentGlobalData.cpp:307-315 | the parsed assertion is appended when its function is known, or left in place when parsing throws; without a throw the list grows exactly when the line names a known function |
| SquareContainmentGlobal.GlobalData.ReadPredefinedSetsLine | SquareContainmentGlobalData.cpp:322-340 | an empty line throws; `[name]` appends an empty set and makes it active; any other line adds its pair to the active set when there is one and it parses |
| SquareContainmentGlobal.GlobalData.AddActivePoint | SquareContainmentGlobalData.cpp:150-154 | an unnamed point is appended and the set name cleared |
| SquareContainmentGlobal.GlobalData.AddNamedActivePoint | SquareContainmentGlobalData.cpp:156-160 | a named point is appended and the set name cleared |
| SquareContainmentGlobal.GlobalData.FillListWithSettedPoints | SquareContainmentGlobalData.cpp:198-208 | the points of the loaded names are appended in the order of the names |
| SquareContainmentGlobal.GlobalData.FillListWithTokenizedNames | SquareContainmentGlobalData.cpp:210-239 | the points of the tokenised names are appended in order |
| SquareContainmentGlobal.GlobalData.AddActivePointsByNames | SquareContainmentGlobalData.cpp:162-166 | the active points gain the points of the loaded names and the set name is cleared |
| SquareContainmentGlobal.GlobalData.AddActivePointsByTokenizedNames | SquareContainmentGlobalData.cpp:168-172 | the active points gain the points of the tokenised names and the set name is cleared |
| SquareContainmentGlobal.GlobalData.RemovePointByIndex | SquareContainmentGlobalData.cpp:174-181 | an index in range removes exactly that point and clears the set name; any other index changes nothing |
| SquareContainmentGlobal.GlobalData.ClearAllPoints | SquareContainmentGlobalData.cpp:183-187 | no active points and no set name |
| SquareContainmentGlobal.GlobalData.SetActivePointsToPredefinedSet | SquareContainmentGlobalData.cpp:189-196 | an index in range copies that set's points and name; any other changes nothing |
| SquareContainmentGlobal.GlobalData.AddVerticalPoints | SquareContainmentGlobalData.cpp:344-373 | over a copy of the map in key order, each point of H gets its vertical twin, and the points stay well formed |
| SquareContainmentMenus.SetMembers | SquareContainmentMenu.cpp:213-226 | at most one point per setted point |
| SquareContainmentMenus.SetMembersAre | SquareContainmentMenu.cpp:213-226 | a point is added exactly when some setted point of the set, in a section up to `numSections`, holds it |
| SquareContainmentMenus.SetMembersInKeyOrder | SquareContainmentMenu.cpp:215 | with well-formed setted points the added points come in strictly increasing name order, the map's key order |
| SquareContainmentMenus.AddPointsFromSettedPoints | SquareContainmentMenu.cpp:213-226 | the loop appends `SetMembers`; nothing else changes |
| SquareContainmentMenus.AddPointsFromSettedPointsByName | SquareContainmentMenu.cpp:228-238 | the points of the loaded names are appended in the order of the names, each under the name asked for |
| SquareContainmentMenus.LabelColon | SquareContainmentMenu.cpp:354-358 | the scan back stops at or before the `{`, on a `}` or `:` unless it reached the start, and skips no `}` or `:` |
| SquareContainmentMenus.LabelStart | SquareContainmentMenu.cpp:362-366 | the scan back stops just after a space, `}` or `,`, or at the start, and skips none of them |
| SquareContainmentMenus.LabelStartIs | SquareContainmentMenu.cpp:362-366 | the scan stops at the first boundary to the left |
| SquareContainmentMenus.UpperName | SquareContainmentMenu.cpp:369-381 | same length, each a-z in upper case, every other character kept |
| SquareContainmentMenus.UpperNameShape | SquareContainmentMenu.cpp:369-381 | the label has no a-z afterwards and upper-casing it again changes nothing |
| SquareContainmentMenus.UpperNameIsTokenName | SquareContainmentMenu.cpp:369-381 | without spaces the label reads as the name tokeniser of the global data reads it |
| SquareContainmentMenus.BracePoint | SquareContainmentMenu.cpp:349-389 | at most one point per `{` |
| SquareContainmentMenus.PairPoint | SquareContainmentMenu.cpp:352-388 | one point at the read pair when the read succeeds, none otherwise |
| SquareContainmentMenus.PointLabelUpper | SquareContainmentMenu.cpp:360-383 | a label has no a-z |
| SquareContainmentMenus.BracePointUpper | SquareContainmentMenu.cpp:349-389 | the point read after a `{` has no a-z in its name |
| SquareContainmentMenus.UpperLabelsAppend | SquareContainmentMenu.cpp:347-390 | two lists without a-z in their names make one |
| SquareContainmentMenus.LinePointsUpper | SquareContainmentMenu.cpp:341-392 | no point read from a line has a-z in its name |
| SquareContainmentMenus.LabelledPointLabel | SquareContainmentMenu.cpp:343 | in `NAME: {x,y}` the first `{` follows the label, which reads as `NAME` in upper case |
| SquareContainmentMenus.LabelBeforeBrace | SquareContainmentMenu.cpp:354-368 | the same for `NAME: {` followed by anything |
| SquareContainmentMenus.LabelHead | SquareContainmentMenu.cpp:343 | the characters of `NAME: {` at the head of a line |
| SquareContainmentMenus.LabelledPointPair | SquareContainmentMenu.cpp:349-352 | after the `{` the pair is read and no further `{` follows |
| SquareContainmentMenus.NoBraceAfter | SquareContainmentMenu.cpp:347 | no `{` is found in a tail that has none |
| SquareContainmentMenus.LineOfLabelledPoint | SquareContainmentMenu.cpp:341-392 | a line of one labelled point adds exactly that point, its label in upper case |
| SquareContainmentMenus.FindLabelColon | SquareContainmentMenu.cpp:354-358 | the loop computes `LabelColon` |
| SquareContainmentMenus.FindLabelStart | SquareContainmentMenu.cpp:362-366 | the loop computes `LabelStart` |
| SquareContainmentMenus.UppercaseName | SquareContainmentMenu.cpp:369-381 | the loop computes `UpperName` |
| SquareContainmentMenus.AddBracePoint | SquareContainmentMenu.cpp:349-389 | one pass adds the point after the `{`, named when a label precedes it, and clears the set name only when it adds |
| SquareContainmentMenus.AddLineOfPoints | SquareContainmentMenu.cpp:341-392 | every `{x,y}` of the line is appended in order, under the label before it when there is one; the set name is cleared only when a point is added |
| SquareContainmentMenus.ClearAllPoints | SquareContainmentMenu.cpp:332-339 | only the confirmation 101 clears the active points and the set name |
| SquareContainmentMenus.ClearAndAddLineOfPoints | SquareContainmentMenu.cpp:394-398 | the active points become exactly the points of the line |
| SquareContainmentMenus.ClearAndAddNamedLineOfPoints | SquareContainmentMenu.cpp:400-406 | the active points become exactly the loaded points of the tokenised names |
| TransformerDocs.Wrap64 | SetRandomizerMenu.cpp:239 | the result is the argument modulo 2^64, and an argument already below 2^64 is kept unchanged |
| TransformerDocs.DivTree | SetRandomizerMenu.cpp:210-226 | dividing keeps the number the tree stands for, and either leaves the tree unchanged or adds exactly one split to its quotient chain |
| TransformerDocs.CombineTree | SetRandomizerMenu.cpp:228-248 | the divisor handed back is the innermost split's (0 for a leaf); a leaf stays; a split loses one level; without 64-bit overflow the number the tree stands for is kept |
| TransformerDocs.DivThenCombine | SetRandomizerMenu.cpp:210-248 | a combine right after a div that changed the tree gives back the original tree and the divisor |
| TransformerDocs.Swap | SetRandomizerMenu.cpp:250-270 | a becomes b, b (when it differs from a) becomes a, and every other value stays |
| TransformerDocs.MapQuotientTree | SetRandomizerMenu.cpp:250-270 | the tree's shape and innermost divisor are kept, and a leaf is left unchanged |
| TransformerDocs.MapRemainderTree | SetRandomizerMenu.cpp:272-292 | the tree's shape and innermost divisor are kept, and a leaf is left unchanged |
| TransformerDocs.MapsAreInvolutions | SetRandomizerMenu.cpp:250-292 | applying the same quotient map or remainder map twice gives the tree back |
| TransformerDocs.ShiftValue | SetRandomizerMenu.cpp:294-298 | the shifted value lies below the node count, including when the subtraction wraps around 64 bits |
| TransformerDocs.ShiftTree | SetRandomizerMenu.cpp:294-298 | a shift keeps the tree's depth and moves a leaf's value by ShiftValue |
| TransformerDocs.ShiftWithoutWrap | SetRandomizer.cpp:434-438 | with fewer than 2^63 nodes and an amount of at most n, the shift is "v - amount, rolling over past 0 to n - 1" |
| TransformerDocs.ShiftIsBijective | SetRandomizer.cpp:434-438 | shifting back by n - amount undoes a shift, and distinct values stay distinct, so a shift permutes 0 .. n - 1 |
| TransformerDocs.ShiftExample | SetRandomizer.cpp:434-438 | the documented "1 shift 4" over 16 nodes gives 13, and 13 shifted by 12 gives 1 |
| TransformerDocs.RemainderSwapPassOnLeaf | SetRandomizerMenu.cpp:345-348 | div, rmap and combine on a leaf exchange a and b in its last digit base d when the leaf is below the limit, in 64-bit arithmetic |
| TransformerDocs.QuotientSwapPassOnLeaf | SetRandomizerMenu.cpp:370-373 | div, qmap and combine on a leaf exchange a and b in its quotient by d when the leaf is below the limit, in 64-bit arithmetic |
| TransformerDocs.NestedRemainderSwapPassOnLeaf | SetRandomizerMenu.cpp:351-356 | two divs, rmap and two combines on a leaf apply the remainder swap to the first quotient and put the first remainder back |
| TransformerDocs.RemainderDigitSwapBelow | SetRandomizer.cpp:422-432 | the remainder swap moves a number by less than its divisor, so the value stays non-negative and below v + d |
| TransformerDocs.StandardStepOnLeaf | SetRandomizerMenu.cpp:340-405 | every pass of the standard script on a leaf below 16 equals its closed form, and no 64-bit arithmetic wraps |
| TransformerDocs.DocumentedRowFollows | SetRandomizer.cpp:448-489 | each row of the documented full example is the row before it after that pass, and every entry lies below 16 |
| TransformerDocs.StandardTransformOnLeaf | SetRandomizer.cpp:448-489 | passes k to 8 carry a node's documented row-k value to its documented final value |
| TransformerDocs.StandardTransformDocumented | SetRandomizer.cpp:491-492 | the standard transform on 16 nodes sends 0 .. 15 to 5, 0, 6, 2, 4, 10, 13, 1, 3, 12, 11, 14, 7, 15, 9, 8 |
| TransformerHeap.TNode.constructor | SetRandomizerMenu.cpp:205-208 | a fresh node owning only itself, modelling the leaf holding v |
| TransformerHeap.TNode.Div | SetRandomizerMenu.cpp:210-226 | the linked nodes now model DivTree of the old tree; newly allocated children are fresh, and the footprint stays valid |
| TransformerHeap.TNode.Combine | SetRandomizerMenu.cpp:228-248 | the linked nodes model CombineTree of the old tree, the footprint only shrinks, and the returned divisor is the innermost one |
| TransformerHeap.TNode.MapQuotient | SetRandomizerMenu.cpp:250-270 | the linked nodes model MapQuotientTree of the old tree, on the same footprint |
| TransformerHeap.TNode.MapRemainder | SetRandomizerMenu.cpp:272-292 | the linked nodes model MapRemainderTree of the old tree, on the same footprint |
| TransformerHeap.TNode.Shift | SetRandomizerMenu.cpp:294-298 | the node's own value shifts as in ShiftTree and its children stay |
| TransformerHeap.Transformer.Clear | SetRandomizerMenu.cpp:407-414 | the row is empty, owns no nodes, and the limit is kept |
| TransformerHeap.Transformer.Reset | SetRandomizerMenu.cpp:416-427 | the row holds setSize fresh leaves, node i holding i, and the limit is kept |
| TransformerHeap.Transformer.Limit | SetRandomizerMenu.cpp:429-432 | only the limit changes, to the new value |
| TransformerHeap.Transformer.Combine | SetRandomizerMenu.cpp:434-443 | every node combines, and the divisor returned is the largest innermost divisor in the row (0 when no node was split) |
| TransformerHeap.Transformer.Div | SetRandomizerMenu.cpp:445-453 | every node's tree becomes DivTree under the current limit; the row and the limit are kept |
| TransformerHeap.Transformer.MapQuotient | SetRandomizerMenu.cpp:455-463 | every node's tree becomes MapQuotientTree of its old tree |
| TransformerHeap.Transformer.MapRemainder | SetRandomizerMenu.cpp:465-473 | every node's tree becomes MapRemainderTree of its old tree |
| TransformerHeap.Transformer.Shift | SetRandomizerMenu.cpp:475-483 | every node shifts by the amount over the row's length |
| TransformerHeap.Transformer.RowValues | SetRandomizerMenu.cpp:485-500 | one value per node, and a leaf node's entry is its value |
| TransformerHeap.Transformer.StandardPassOnRow | SetRandomizerMenu.cpp:345-398 | each scripted pass takes the documented row k to row k + 1 on the heap nodes |
| TransformerHeap.Transformer.StandardScript | SetRandomizerMenu.cpp:343-398 | the nine passes take the documented row 0 to the documented final row, with the limit left at 12 |
| TransformerHeap.Transformer.StandardTransform | SetRandomizerMenu.cpp:340-405 | the row shown at the end is the documented result 5, 0, 6, 2, 4, 10, 13, 1, 3, 12, 11, 14, 7, 15, 9, 8, after which the row is empty |
| FixedWidth.TruncDiv | WPChallenge.cpp:110 | C++ `int32_t` division by a positive divisor rounds toward zero: the remainder has the dividend's sign and is smaller than the divisor |
| StringSearch.FindFrom | ConsoleMenu.cpp:92-102 | the result is -1 or an index at or after the start holding the character searched for |
| StringSearch.FindFromFirst | ConsoleMenu.cpp:92-102 | a found index is the first occurrence from the start, and -1 (`npos`) comes back exactly when the character does not occur |
| StringSearch.SplitOnJoins | SquareContainmentGlobalData.cpp:60-80 | joining the pieces cut at a separator with that separator gives the string back |
| StringSearch.SplitOnPiecesClean | SquareContainmentGlobalData.cpp:60-80 | no piece contains the separator |
| StringSearch.LastPieceEmpty | ConsoleMenu.cpp:90-110 | the last piece is empty exactly when the string is empty or ends in the separator |
| StringSearch.PiecesFromSplits | SquareContainmentGlobalData.cpp:60-80 | cutting a string from a start position gives the pieces of its suffix |
| IntStreams.SkipSpaces | SquareContainmentGlobalData.cpp:283 | the position reached skips only whitespace and stops at a non-space or the end |
| IntStreams.DigitEnd | SquareContainmentGlobalData.cpp:283 | the position reached covers only digits and stops at a non-digit or the end |
| IntStreams.ExtractInt32 | SquareContainmentGlobalData.cpp:283 | a successful `>>` into an `int32_t` consumes at least one character and stays inside the string |
| IntStreams.ExtractChar | SquareContainmentGlobalData.cpp:283 | a successful `>>` into a `char` consumes at least one character and yields a non-space character |
| IntStreams.DecimalValueOfDecimal | SquareContainmentGlobalData.cpp:283 | the decimal text of a number reads back as that number |
| IntStreams.ExtractInt32OfDecimal | SquareContainmentGlobalData.cpp:283 | reading an `int32_t` at the start of its own decimal text, followed by a non-digit or the end, yields that number and stops right after it |
| IntStreams.ExtractPairOfWritten | SquareContainmentGlobalData.cpp:283 | "x,y" followed by a non-digit or the end reads back as the pair (x, y) |
| IntStreams.AtoiOfDecimal | SquareContainmentGlobalData.cpp:92 | `atoi` of a number's decimal text is that number |
| IntStreams.AtoiIs | SquareContainmentGlobalData.cpp:92 | `atoi` is the signed value of the digit run after the optional spaces and sign |
| OrderedMaps.StrLessIrreflexive | SquareContainmentGlobalData.h:123 | the string order of `std::map<std::string, …>` is irreflexive |
| OrderedMaps.StrLessTransitive | SquareContainmentGlobalData.h:123 | the string order is transitive |
| OrderedMaps.StrLessTotal | SquareContainmentGlobalData.h:123 | any two different strings are ordered one way or the other |
| OrderedMaps.Find | SquareContainmentGlobalData.cpp:202-203 | `find` succeeds exactly when some entry has the key, and the value found belongs to such an entry |
| OrderedMaps.OrderedKeyUnique | SquareContainmentGlobalData.h:123 | in an ordered map each key occurs at most once |
| OrderedMaps.Emplace | SquareContainmentGlobalData.cpp:296 | `emplace` returns the position of an entry holding the key |
| OrderedMaps.EmplaceContents | SquareContainmentGlobalData.cpp:296 | when the key is present nothing changes and the old entry is returned; otherwise the new entry is inserted at the returned position and the others keep their order |
| OrderedMaps.EmplaceOrdered | SquareContainmentGlobalData.cpp:296 | emplacing keeps the entries in strictly increasing key order |
| OrderedMaps.SetValue | SquareContainmentGlobalData.cpp:296-298 | writing through the returned reference changes that entry's value and nothing else |
| OrderedMaps.FindIsEntry | SquareContainmentGlobalData.h:123 | in an ordered map `find` yields a value exactly when that key-value pair is an entry |
| OrderedMaps.FindAfterEmplace | SquareContainmentGlobalData.cpp:296 | after `emplace`, other keys find what they found before, and the key finds its old value if it had one, otherwise the new value |
| OrderedMaps.FindAfterSetValue | SquareContainmentGlobalData.cpp:296-298 | after writing a value, its key finds the new value and every other key finds what it found before |

## Left out

- Floating-point geometry: `SquareContainment.*`, `SmallestSquare.*`, `Math.*` and `NamedVector2.*` are not part of this model. Neither are the double-based seeking tests and `MaxInclusions` in `SquareContainmentMenu.cpp`, or the rotation and slide pass of `PostProcessPredefinedSets` (SquareContainmentGlobalData.cpp:375-420). Points keep their integer coordinates, and the `uint64_t` to `double` conversion is modelled only as rounding of those coordinates.
- `GlobalData::LoadData` (SquareContainmentGlobalData.cpp:102-148): file input. Each line it reads is handed to the line readers, and those are modelled.
- `PostProcessConfig_Late` and `DefaultSet` (SquareContainmentGlobalData.cpp:254-271): configuration glue with output. It builds no data that the modelled readers use.
- `AddPointsFromSettedPointsSpcIndex` (SquareContainmentMenu.cpp:198-211): a menu variant that only prints.
- Randomness: `RNG.*`, `std::mt19937` and `Reseed` become caller-supplied draw streams (`randomFunc`, `randomNumber`) with a draw counter. Uniformity of the draws is not modelled, and neither is the modulo bias left by the missing rejection sampling.
- `Randomize<Large>`: its block-index estimate is a double polynomial. The model and the facade use the `Small` path only.
- `std::log2` in the shuffle count of `ShuffleContinuousBatch` is replaced by integer floor-log2.
- Printing and the console loop: `PrintRandomizer`, `MathPrint`, `Stats::PrintIntDistribution`, `RunMenu`, `RunMenuDirectlyAtCommand`, `_getch`, the printing in `ResetMenu`, `PrintHorizontalBreak`, `ConsoleInfo` and every `printf`/`putchar`.
- Command execution through function pointers and the macro-generated command classes (ConsoleMenu.h:98-184). Commands are modelled by their names, descriptions and inputs; what they run is not.
- Game glue and heuristics: `WPScenario.cpp`, `MathExperimentation.cpp`, `WPWorker::DetermineCommand`, `PlayCards`, `EvaluateCardStrategy`, `EvaluateDiceStrategy`, `GetTotalAverageRollValue` and the `MultiExecute` percentages. These are strategy and float scoring. The dice strategies enter `PullDice` only as the two picked indices.
- `ExecuteSingleCard`: only the heal branch is modelled.
- `GetNHighestCardLevels` (WPExecutionResources.cpp:309-312) uses element values as indices inside its own sort comparator. Because of that, the card phase of `WPChallenge::Execute` (WPChallenge.cpp:67-103) is not modelled either.
- The `SetRandomizer.h` facade has drifted from `SetRandomizer.cpp`. Its semantics follow `SetRandomizer.cpp` and its state follows LazyElementShuffler.h:269-311.
- `atoi` on a number outside `int32_t`, and the `int32_t` `mIndex` accumulation on long digit runs, are undefined or wrap in C++. `IntStreams.Atoi` and the setted-point index return the mathematical value.
- StatsCounters.Stats.AddToIntDistribution: requires that the new count, and the amount maximum, fit in `int32_t`. Signed overflow there is undefined behaviour in C++.
- WPResources.WPExecutionResources.GetDieRoll: requires a non-negative index. `at()` would throw on a negative one, and exceptions are not modelled.
- WPResources.WPExecutionResources.GetCard: requires a non-negative index, for the same reason.
- WPResources.WPExecutionResources.RerollDie: requires an in-range index. The source indexes with an unchecked `operator[]`.
- WPResources.WPExecutionResources.ReplaceDie: requires an in-range index, for the same reason.
- WPResources.WPExecutionResources.GetSortedDieRollIndexes: leaves the order among equal ranks open. `std::sort` is not stable.
- WPChallenges.WPChallenge.SetupChallengeToRoundDefaults: requires a round number above `INT32_MIN`, so that `roundNumber - 1` (WPChallenge.cpp:110) does not overflow, which is undefined behaviour in C++.
- WPWorkers.FullRollResult.SwapDice: requires that the new total fits in `int32_t`.
- WPWorkers.WPWorker.MoveToNextRound: requires that the round counter is below `INT32_MAX`.
- WPWorkers.WPWorker.ExecuteHealEffect: requires that health plus magnitude fits in `int32_t`.
- WPWorkers.WPWorker.PullDice: takes the strategies' two picks as parameters. It requires face-valued dice, so that the roll arithmetic stays inside `int32_t`.
- WPChallenges.WPChallenge.Execute: models the cardless matching phase only. That phase covers the win count and the consumption of worker entries.
- WPChallenges.WPChallenge.TryUpgradeNWorkers: the source's single loop is modelled as an outer method (`UpgradeCrew`) and its loop (`UpgradePass`).
- FactoradicBuilder.PermutationBuilder.FillBlock: computes the corrected single-label entry of the Findings row for SetRandomizer.cpp:198-204. A block b > 0 entered with only its first label puts it at slot 0, where the source writes slot -1; the source's own slots are stated by `FillBlockSlotsAsWritten`.
- SetRandomizerEngine.SetRandomizerInternal.MakeRandom: fixes the order of the two `mRandomFunc()` calls, first call high. C++ does not specify the order in which the operands of `|` are evaluated, so a compiler may draw the low half first.
- Shuffling.ShuffleStage: divides the `uint32_t` index as an unsigned value. That is what `std::ldiv` computes where `long` is 64 bits. Where `long` is 32 bits (the Windows target that the `_getch` console implies), it agrees only for indexes below 2^31; above that the index arrives negative.
- TransformerDocs.DivTree: requires a nonzero divisor. The `d` command passes any `uint64_t`, and division by zero at SetRandomizerMenu.cpp:222 is undefined behaviour in C++.
- TransformerHeap.TNode.Div: requires a nonzero divisor, for the same reason.
- TransformerHeap.Transformer.Div: requires a nonzero divisor, for the same reason.
- ConsoleMenus.ConsoleMenu.ReceiveInput: takes the sub-menu's answer for a key as a parameter (`subMenuKeeps`). The sub-menu's own state is not modelled, and neither is the `mCurrentSubMenu` pointer.
- SetRandomizerFacade.SetRandomizer: stands for `SetRandomizer<N>` with N in 1..28 over `Randomize<Small>`.

## Findings

| source | as written | input that shows it | evidently intended | confidence | as-written member | corrected member |
|---|---|---|---|---|---|---|
| SetRandomizer.cpp:198-204 | a block b > 0 entered with only its first label live writes `permutationIndexes[mNextEntry - MinSetPosition]` after the decrement, which is index -1 of the block's `std::array`: an out-of-bounds write, undefined behaviour | set size 21 using two blocks: block 1 receives a single label, writes its slot 0 and then its index -1. If the blocks lie back to back, that is block 0's slot 19. Block 0 is then entered with 19 labels and writes only slots 0 .. 18, so no label is lost and the result is still a permutation. The defect is the write outside the array, not a lost label | the block takes one label and the write stays inside it | not executed | FactoradicBuilder.FillBlockSlotBeforeBlock | FactoradicBuilder.PermutationBuilder.FillBlock |
| SetRandomizer.cpp:166-168 | the builder takes its set size as `int32_t` | if `SetSize` (defined outside the modelled files) is signed or narrower than `int`, a set of 2^31 labels starts with -2^31 live labels; with an unsigned 32-bit or 64-bit `SetSize` there is no wrap | the count is capped at the block's MaxFactorial (20) | not executed, and conditional on the type of `SetSize` | FactoradicBuilder.InitialEntryAsWrittenWraps | FactoradicBuilder.InitialEntry |
| SetRandomizer.cpp:584 | the pass-through test is `index > mSetSize` | index 20 of a 20-label set reads slot 20, past block 0; a one-label set answers 0 and 1 with 0 | `index >= mSetSize` passes the first index outside the set through | not executed | SetRandomizerEngine.WheeledIndexAsWrittenAtSetSize | SetRandomizerEngine.WheeledIndexPermutes |
| SetRandomizer.cpp:513 | the stage multiplies the block's label into `quot * 20` | with 21 .. 39 labels every index below 20 goes to 0 | the label is added, giving a permutation of the stage | not executed | Shuffling.RepeatedShufflingAsWrittenCollapses | Shuffling.RepeatedShufflingPermutes |
| SetRandomizer.cpp:575 | the half-turn `(index + (setSize >> 1)) % setSize` is summed in 32 bits | set size 2^32 - 1 sends both 2^31 and 2^31 + 1 to 0 | the sum is taken without wrapping | not executed; `ShuffleContinuousBatch` is not called from `GetWheeledIndex` (SetRandomizer.cpp:629-637), so no query reaches this code | Shuffling.RotateAsWrittenCollides | Shuffling.RotateInjective |
| ConsoleMenu.cpp:469-478 | the terminator is written at `mCurrentPos` after the increment | a printable character at position 512 writes index 513 of the 513-byte buffer | the last character is accepted only when there is room for its terminator | not executed | ConsoleMenus.PutAsWrittenOverrunsAtLastSlot | ConsoleMenus.ConsoleMenu.PutInput |
| ConsoleMenu.cpp:226-230 | escape in decimal mode clears the buffer and only prints `d` | `d5`, escape, then `7` leaves `7` in the buffer, and number parsing from index 1 gives 0 | the mode letter is kept, so `7` parses as 7; a prompt holding only the letter backs out on the next escape, as the cleared line does as written | not executed | ConsoleMenus.EscapeAsWrittenDropsFirstDigit | ConsoleMenus.EscapeDecimalKeepsFirstDigit |
