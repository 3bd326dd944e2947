/**
 * A worker in a worker-placement combat: its stat rows, its deck and
 * hand of card indices, the two dice it pulls each round and the
 * statistics it keeps across executions.
 *
 * The dice strategies that pick the tens and ones dice are not part of
 * this model: `PullDice` takes their picks as parameters, and only the
 * random fallback, the ordering, the removal and the bookkeeping that
 * follow are modelled.
 */
module WPWorkers {
  import opened FixedWidth
  import opened WPCards
  import opened WPResources
  import opened StatsCounters

  datatype WorkerType = Basic | Trained | Warrior | Rogue | Count

  /** The identifier of the roll-value histogram (`WPStatsIds::RollValues`). */
  const RollValuesId: int32 := 0

  /** The value of a roll read as two decimal digits, tens first. */
  function DieOnlyValue(tens: DieRoll, ones: DieRoll): (v: int)
    ensures 0 <= tens.value <= 9 && 0 <= ones.value <= 9 ==>
              0 <= v <= 99 && v / 10 == tens.value && v % 10 == ones.value
  {
    tens.value * 10 + ones.value
  }

  /** The total after exchanging the two dice: it moves by nine times the difference of their values. */
  function SwappedTotal(tens: DieRoll, ones: DieRoll, totalValue: int): (v: int)
    ensures v - totalValue == 9 * (ones.value - tens.value)
    ensures v - totalValue == DieOnlyValue(ones, tens) - DieOnlyValue(tens, ones)
  {
    totalValue + (DieOnlyValue(ones, tens) - DieOnlyValue(tens, ones))
  }

  /** Exchanging the dice twice gives back the total. */
  lemma SwapTwiceRestores(tens: DieRoll, ones: DieRoll, totalValue: int)
    ensures SwappedTotal(ones, tens, SwappedTotal(tens, ones, totalValue)) == totalValue
  {
  }

  /** Putting the higher die in the tens place gives the larger of the two readings. */
  lemma HigherFirstIsLarger(high: DieRoll, low: DieRoll)
    ensures DieOnlyValue(high, low) >= DieOnlyValue(low, high) <==> high.value >= low.value
  {
  }

  /** The tens die, the ones die and the running total of one pull. */
  class FullRollResult {
    var tens: DieRoll
    var ones: DieRoll
    var totalValue: int32

    /** Both dice default to the invalid die; the total is left indeterminate. */
    constructor ()
      ensures tens == InvalidDie && ones == InvalidDie
    {
      tens := InvalidDie;
      ones := InvalidDie;
      totalValue := 0;
    }

    /** `GetDieRollOnlyValue`: the two dice read as a two-digit number. */
    function GetDieRollOnlyValue(): (v: int)
      reads this
      ensures 0 <= tens.value <= 9 && 0 <= ones.value <= 9 ==>
                0 <= v <= 99 && v / 10 == tens.value && v % 10 == ones.value
    {
      DieOnlyValue(tens, ones)
    }

    /** `CountEffects`: how many of the two dice carry the effect. */
    function CountEffects(diceEffect: DiceEffect): (count: int)
      reads this
      ensures 0 <= count <= 2
      ensures count == 0 <==> tens.diceEffect != diceEffect && ones.diceEffect != diceEffect
      ensures count == 2 <==> tens.diceEffect == diceEffect && ones.diceEffect == diceEffect
    {
      (if tens.diceEffect == diceEffect then 1 else 0) + (if ones.diceEffect == diceEffect then 1 else 0)
    }

    /** `GetTotalValueIfDiceSwapped`: the total `SwapDice` would leave. */
    function GetTotalValueIfDiceSwapped(): (v: int)
      reads this
      ensures v - totalValue == 9 * (ones.value - tens.value)
    {
      SwappedTotal(tens, ones, totalValue)
    }

    /** The int32 arithmetic of `SwapDice` does not overflow. */
    predicate SwapFits()
      reads this
    {
      InInt32(DieOnlyValue(tens, ones)) && InInt32(DieOnlyValue(ones, tens))
      && InInt32(SwappedTotal(tens, ones, totalValue))
    }

    /**
     * `SwapDice`: the dice change places and the total moves by exactly
     * the change in the die-only value, landing where
     * `GetTotalValueIfDiceSwapped` predicted.
     */
    method SwapDice()
      requires SwapFits()
      modifies this
      ensures tens == old(ones) && ones == old(tens)
      ensures totalValue - old(totalValue) == GetDieRollOnlyValue() - old(GetDieRollOnlyValue())
      ensures totalValue == old(GetTotalValueIfDiceSwapped())
    {
      var oldDieOnlyValue := GetDieRollOnlyValue();
      var oldOnesDieRoll := ones;
      ones := tens;
      tens := oldOnesDieRoll;
      totalValue := totalValue + (GetDieRollOnlyValue() - oldDieOnlyValue);
    }
  }

  /** The worker's combat stats (`mHealth_Current` to `mStartingHandSize`). */
  datatype CombatStats = CombatStats(
    healthCurrent: int32,
    healthMax: int32,
    skill: int32,
    damage: int32,
    hold: int32,
    flee: int32,
    fleeCurrent: int32,
    startingHandSize: int32)

  /** The per-round stats, with the extra evaluations already earned for the next round. */
  datatype RoundStats = RoundStats(
    currentRound: int32,
    cardsPlayedAsIs: seq<int32>,
    skill: int32,
    bonusResult: int32,
    extraEvaluate: int32,
    swapDice: bool,
    nextRoundExtraEvaluate: int32)

  /**
   * The deck and the hand after drawing up to `numCards` cards, draw `k`
   * choosing position `randomNumber(start + k) % |deck|` of the deck left
   * at that point.
   */
  function DrawnPiles(deck: seq<int32>, hand: seq<int32>, numCards: int, randomNumber: nat -> uint32, start: nat)
    : (piles: (seq<int32>, seq<int32>))
    decreases |deck|
  {
    if numCards <= 0 || |deck| == 0 then (deck, hand)
    else
      var k := randomNumber(start) % |deck|;
      DrawnPiles(deck[..k] + deck[k + 1..], hand + [deck[k]], numCards - 1, randomNumber, start + 1)
  }

  /**
   * Drawing moves `min(numCards, |deck|)` cards onto the end of the hand
   * and loses or invents none: deck and hand together hold the same cards.
   */
  lemma {:induction false} DrawnPilesMoves(deck: seq<int32>, hand: seq<int32>, numCards: int, randomNumber: nat -> uint32, start: nat)
    ensures var piles := DrawnPiles(deck, hand, numCards, randomNumber, start);
            var drawn := DrawsTaken(|deck|, numCards);
            |piles.1| == |hand| + drawn && |piles.0| == |deck| - drawn
            && piles.1[..|hand|] == hand
            && multiset(piles.0) + multiset(piles.1) == multiset(deck) + multiset(hand)
    decreases |deck|
  {
    if numCards > 0 && |deck| > 0 {
      var k := randomNumber(start) % |deck|;
      DrawPilesStep(deck, k);
      DrawnPilesMoves(deck[..k] + deck[k + 1..], hand + [deck[k]], numCards - 1, randomNumber, start + 1);
      var piles := DrawnPiles(deck[..k] + deck[k + 1..], hand + [deck[k]], numCards - 1, randomNumber, start + 1);
      assert piles.1[..|hand|] == (piles.1[..|hand| + 1])[..|hand|];
    }
  }

  /** The number of cards a draw of `numCards` takes from a deck of `deckSize`: `min(numCards, deckSize)`, none for `numCards <= 0`. */
  function DrawsTaken(deckSize: nat, numCards: int): (drawn: nat)
    ensures drawn <= deckSize
    ensures numCards <= 0 ==> drawn == 0
    ensures 0 < numCards <= deckSize ==> drawn == numCards
    ensures deckSize < numCards ==> drawn == deckSize
  {
    if numCards <= 0 then 0 else if numCards < deckSize then numCards else deckSize
  }

  /** One draw: the card at the drawn position moves to the hand, and the draws that follow start one later. */
  lemma DrawnPilesUnfold(deck: seq<int32>, hand: seq<int32>, numCards: int, randomNumber: nat -> uint32, start: nat)
    requires 0 < numCards && 0 < |deck|
    ensures var k := randomNumber(start) % |deck|;
            DrawnPiles(deck, hand, numCards, randomNumber, start)
            == DrawnPiles(deck[..k] + deck[k + 1..], hand + [deck[k]], numCards - 1, randomNumber, start + 1)
    ensures DrawsTaken(|deck|, numCards) == 1 + DrawsTaken(|deck| - 1, numCards - 1)
  {
  }

  /** With nothing left to draw, or nothing left to draw from, the piles stay as they are. */
  lemma DrawnPilesDone(deck: seq<int32>, hand: seq<int32>, numCards: int, randomNumber: nat -> uint32, start: nat)
    requires numCards <= 0 || |deck| == 0
    ensures DrawnPiles(deck, hand, numCards, randomNumber, start) == (deck, hand)
    ensures DrawsTaken(|deck|, numCards) == 0
  {
  }

  /** Taking position `k` out of the deck moves exactly that card. */
  lemma DrawPilesStep(deck: seq<int32>, k: nat)
    requires k < |deck|
    ensures multiset(deck[..k] + deck[k + 1..]) + multiset{deck[k]} == multiset(deck)
  {
    assert deck == deck[..k] + [deck[k]] + deck[k + 1..];
  }

  class WPWorker {
    const rng: RNG
    const executionResources: WPExecutionResources
    const stats: Stats?

    var arbitraryCardVariation: int32
    var workerType: WorkerType

    var currentDeckIndices: seq<int32>
    var currentHandIndices: seq<int32>

    var vp: int32
    var totalRolls: int32
    var totalRollValues: int32

    var combat: CombatStats
    var round: RoundStats

    var opponent: WPWorker?

    /** The constructor keeps the references and the in-class defaults: a Basic worker with 100 VP and zeroed stats. */
    constructor (rng: RNG, executionResources: WPExecutionResources, stats: Stats?)
      ensures this.rng == rng && this.executionResources == executionResources && this.stats == stats
      ensures arbitraryCardVariation == 0 && workerType == Basic
      ensures currentDeckIndices == [] && currentHandIndices == []
      ensures vp == 100 && totalRolls == 0 && totalRollValues == 0
      ensures combat == CombatStats(0, 0, 0, 0, 0, 0, 0, 0)
      ensures round == RoundStats(0, [], 0, 0, 0, false, 0)
      ensures opponent == null
    {
      this.rng := rng;
      this.executionResources := executionResources;
      this.stats := stats;
      arbitraryCardVariation := 0;
      workerType := Basic;
      currentDeckIndices := [];
      currentHandIndices := [];
      vp := 100;
      totalRolls := 0;
      totalRollValues := 0;
      combat := CombatStats(0, 0, 0, 0, 0, 0, 0, 0);
      round := RoundStats(0, [], 0, 0, 0, false, 0);
      opponent := null;
    }

    /** `SetWorkerType`: only the type changes. */
    method SetWorkerType(t: WorkerType)
      modifies `workerType
      ensures workerType == t
    {
      workerType := t;
    }

    /**
     * `SetupStatsFromWorkerType`: each of the four worker types gets its
     * fixed row of skill, damage, maximum health, hold, flee and starting
     * hand size; any other value leaves the stats alone, and current
     * health and flee are never touched.
     */
    method SetupStatsFromWorkerType()
      modifies `combat
      ensures workerType == Basic ==> combat == old(combat).(skill := 0, damage := 1, healthMax := 4, hold := 3, flee := 1, startingHandSize := 1)
      ensures workerType == Trained ==> combat == old(combat).(skill := 10, damage := 2, healthMax := 6, hold := 4, flee := 1, startingHandSize := 1)
      ensures workerType == Warrior ==> combat == old(combat).(skill := 20, damage := 3, healthMax := 8, hold := 6, flee := 1, startingHandSize := 1)
      ensures workerType == Rogue ==> combat == old(combat).(skill := 30, damage := 2, healthMax := 6, hold := 4, flee := 2, startingHandSize := 2)
      ensures workerType == Count ==> combat == old(combat)
      ensures combat == StatRow(workerType, old(combat))
    {
      match workerType {
        case Basic =>
          combat := combat.(skill := 0, damage := 1, healthMax := 4, hold := 3, flee := 1, startingHandSize := 1);
        case Trained =>
          combat := combat.(skill := 10, damage := 2, healthMax := 6, hold := 4, flee := 1, startingHandSize := 1);
        case Warrior =>
          combat := combat.(skill := 20, damage := 3, healthMax := 8, hold := 6, flee := 1, startingHandSize := 1);
        case Rogue =>
          combat := combat.(skill := 30, damage := 2, healthMax := 6, hold := 4, flee := 2, startingHandSize := 2);
        case Count =>
      }
    }

    /** `ClearThisRoundStats`: the round's played cards, skill, bonus, extra evaluations and swap flag are reset; the round number and next round's evaluations stay. */
    method ClearThisRoundStats()
      modifies this
      ensures round == old(round).(cardsPlayedAsIs := [], skill := 0, bonusResult := 0, extraEvaluate := 0, swapDice := false)
      ensures combat == old(combat) && workerType == old(workerType)
      ensures currentDeckIndices == old(currentDeckIndices) && currentHandIndices == old(currentHandIndices)
      ensures totalRolls == old(totalRolls) && totalRollValues == old(totalRollValues) && vp == old(vp)
      ensures arbitraryCardVariation == old(arbitraryCardVariation) && opponent == old(opponent)
    {
      round := round.(cardsPlayedAsIs := [], skill := 0, bonusResult := 0, extraEvaluate := 0, swapDice := false);
    }

    /** `MoveToNextRound`: the round number rises by one and the extra evaluations earned for it become this round's. */
    method MoveToNextRound()
      requires round.currentRound < Int32Max
      modifies this
      ensures round.currentRound == old(round.currentRound) + 1
      ensures round.extraEvaluate == old(round.nextRoundExtraEvaluate) && round.nextRoundExtraEvaluate == 0
      ensures round.cardsPlayedAsIs == old(round.cardsPlayedAsIs) && round.skill == old(round.skill)
      ensures round.bonusResult == old(round.bonusResult) && round.swapDice == old(round.swapDice)
      ensures combat == old(combat) && workerType == old(workerType)
      ensures currentDeckIndices == old(currentDeckIndices) && currentHandIndices == old(currentHandIndices)
      ensures totalRolls == old(totalRolls) && totalRollValues == old(totalRollValues) && vp == old(vp)
      ensures arbitraryCardVariation == old(arbitraryCardVariation) && opponent == old(opponent)
    {
      round := round.(currentRound := round.currentRound + 1,
                      extraEvaluate := round.nextRoundExtraEvaluate,
                      nextRoundExtraEvaluate := 0);
    }

    /** `SetOpponent`: only the opponent reference changes. */
    method SetOpponent(opponent: WPWorker)
      modifies this
      ensures this.opponent == opponent
      ensures combat == old(combat) && round == old(round) && workerType == old(workerType)
      ensures currentDeckIndices == old(currentDeckIndices) && currentHandIndices == old(currentHandIndices)
      ensures totalRolls == old(totalRolls) && totalRollValues == old(totalRollValues) && vp == old(vp)
      ensures arbitraryCardVariation == old(arbitraryCardVariation)
    {
      this.opponent := opponent;
    }

    /** `IsAlive`: current health is positive. */
    predicate IsAlive()
      reads this
    {
      combat.healthCurrent > 0
    }

    /**
     * `GetTotalEvaluatesThisRound`: the one evaluation every round has,
     * plus the extra ones this worker and, when there is one, its
     * opponent earned for this round.
     */
    function GetTotalEvaluatesThisRound(): (total: int)
      reads this, opponent
      ensures opponent == null ==> total - 1 == round.extraEvaluate
      ensures opponent != null ==> total - 1 == round.extraEvaluate + opponent.round.extraEvaluate
    {
      1 + round.extraEvaluate + (if opponent != null then opponent.round.extraEvaluate else 0)
    }

    /**
     * `DrawCards(numCards)`: up to `numCards` cards, each at a random
     * position of what is left of the deck, move to the end of the hand,
     * one draw each, stopping early when the deck runs out.
     */
    method DrawCards(numCards: int32)
      modifies this, rng
      ensures (currentDeckIndices, currentHandIndices)
              == DrawnPiles(old(currentDeckIndices), old(currentHandIndices), numCards, rng.randomNumber, old(rng.drawCount))
      ensures rng.drawCount == old(rng.drawCount) + DrawsTaken(|old(currentDeckIndices)|, numCards)
      ensures |currentHandIndices| == |old(currentHandIndices)| + DrawsTaken(|old(currentDeckIndices)|, numCards)
      ensures currentHandIndices[..|old(currentHandIndices)|] == old(currentHandIndices)
      ensures multiset(currentDeckIndices) + multiset(currentHandIndices)
              == multiset(old(currentDeckIndices)) + multiset(old(currentHandIndices))
      ensures combat == old(combat) && round == old(round) && workerType == old(workerType)
      ensures totalRolls == old(totalRolls) && totalRollValues == old(totalRollValues) && vp == old(vp)
      ensures arbitraryCardVariation == old(arbitraryCardVariation) && opponent == old(opponent)
    {
      DrawnPilesMoves(currentDeckIndices, currentHandIndices, numCards, rng.randomNumber, rng.drawCount);
      var deck, hand := DrawFromDeck(currentDeckIndices, currentHandIndices, numCards);
      currentDeckIndices, currentHandIndices := deck, hand;
    }

    /** The loop of `DrawCards`, on the two piles it rearranges. */
    method DrawFromDeck(deck0: seq<int32>, hand0: seq<int32>, numCards: int32) returns (deck: seq<int32>, hand: seq<int32>)
      modifies rng
      ensures (deck, hand) == DrawnPiles(deck0, hand0, numCards, rng.randomNumber, old(rng.drawCount))
      ensures rng.drawCount == old(rng.drawCount) + DrawsTaken(|deck0|, numCards)
    {
      var remaining: int := numCards;
      deck, hand := deck0, hand0;
      ghost var goal := DrawnPiles(deck, hand, numCards, rng.randomNumber, rng.drawCount);
      ghost var start := rng.drawCount;
      while remaining > 0 && |deck| > 0
        invariant DrawnPiles(deck, hand, remaining, rng.randomNumber, rng.drawCount) == goal
        invariant rng.drawCount - start + DrawsTaken(|deck|, remaining) == DrawsTaken(|deck0|, numCards)
        decreases |deck|
      {
        DrawnPilesUnfold(deck, hand, remaining, rng.randomNumber, rng.drawCount);
        var drawnIndex := rng.RandomIndex(|deck|);
        hand := hand + [deck[drawnIndex]];
        deck := deck[..drawnIndex] + deck[drawnIndex + 1..];
        remaining := remaining - 1;
      }
      DrawnPilesDone(deck, hand, remaining, rng.randomNumber, rng.drawCount);
    }

    /** `GetRandomIndexFromList`: -1 for an empty list, otherwise the entry the next draw picks. */
    method GetRandomIndexFromList(list: seq<nat>) returns (index: int)
      modifies rng
      ensures |list| == 0 ==> index == -1 && rng.drawCount == old(rng.drawCount)
      ensures |list| > 0 ==> index == list[rng.randomNumber(old(rng.drawCount)) % |list|]
                               && index in list && rng.drawCount == old(rng.drawCount) + 1
    {
      if |list| < 1 {
        return -1;
      }
      var k := rng.RandomIndex(|list|);
      index := list[k];
    }

    /** A strategy's pick is either no die (-1) or the index of a remaining die. */
    predicate IsPick(pick: int)
      reads executionResources
    {
      pick == -1 || 0 <= pick < |executionResources.remainingDice|
    }

    /** What `PullDice` needs of the statistics: when there are statistics, the roll-value histogram can take one more roll. */
    ghost predicate StatsCanRecordRoll()
      reads stats
    {
      stats != null ==> stats.Valid() && CountsBelowMax(DistributionAt(stats.intDistributions, RollValuesId))
    }

    /**
     * `PullDice`, after the strategies have picked `pickedTens` and
     * `pickedOnes` (each -1 or a remaining die, never the same one): with
     * fewer than one combat round of dice left it returns the default
     * result and changes nothing. Otherwise any missing pick is drawn at
     * random among the other dice, the higher die goes to the tens place,
     * exactly those two dice are removed, and the two-digit value is the
     * result's total, recorded in the statistics and the running totals.
     */
    method PullDice(pickedTens: int32, pickedOnes: int32)
      returns (rollResult: FullRollResult, ghost tensIndex: int32, ghost onesIndex: int32)
      requires IsPick(pickedTens) && IsPick(pickedOnes)
      requires pickedTens != -1 ==> pickedTens != pickedOnes
      requires FaceValued(executionResources.remainingDice)
      requires StatsCanRecordRoll()
      requires |executionResources.remainingDice| <= Int32Max
      requires totalRolls < Int32Max && totalRollValues + 99 <= Int32Max
      modifies this, rng, executionResources, stats
      ensures fresh(rollResult)
      ensures old(executionResources.GetNumRemainingCombatRounds()) < 1 ==>
                rollResult.tens == InvalidDie && rollResult.ones == InvalidDie
                && executionResources.remainingDice == old(executionResources.remainingDice)
                && totalRolls == old(totalRolls) && totalRollValues == old(totalRollValues)
                && (stats != null ==> stats.intDistributions == old(stats.intDistributions))
      ensures old(executionResources.GetNumRemainingCombatRounds()) >= 1 ==>
                PulledDice(old(executionResources.remainingDice), pickedTens, pickedOnes, tensIndex, onesIndex)
                && rollResult.tens == old(executionResources.remainingDice)[tensIndex]
                && rollResult.ones == old(executionResources.remainingDice)[onesIndex]
                && executionResources.remainingDice
                   == KeptDice(old(executionResources.remainingDice), [onesIndex, tensIndex], |old(executionResources.remainingDice)|)
      ensures old(executionResources.GetNumRemainingCombatRounds()) >= 1 ==>
                rollResult.tens.value >= rollResult.ones.value
                && |executionResources.remainingDice| == |old(executionResources.remainingDice)| - 2
                && rollResult.totalValue == DieOnlyValue(rollResult.tens, rollResult.ones)
                && 0 <= rollResult.totalValue <= 99
                && totalRolls == old(totalRolls) + 1
                && totalRollValues == old(totalRollValues) + rollResult.totalValue
                && (stats != null ==>
                      (stats.Valid() && stats.intDistributions
                       == old(stats.intDistributions)[RollValuesId := Added(DistributionAt(old(stats.intDistributions), RollValuesId), rollResult.totalValue, 1)]))
      ensures executionResources.allAvailableCards == old(executionResources.allAvailableCards)
      ensures combat == old(combat) && round == old(round) && workerType == old(workerType)
      ensures currentDeckIndices == old(currentDeckIndices) && currentHandIndices == old(currentHandIndices)
      ensures vp == old(vp) && arbitraryCardVariation == old(arbitraryCardVariation) && opponent == old(opponent)
    {
      rollResult := new FullRollResult();
      tensIndex, onesIndex := -1, -1;
      if executionResources.GetNumRemainingCombatRounds() < 1 {
        return;
      }
      ghost var dice := executionResources.remainingDice;
      var selectedTens, selectedOnes := SelectDice(pickedTens, pickedOnes);
      tensIndex, onesIndex := selectedTens, selectedOnes;
      rollResult.tens := executionResources.GetDieRoll(selectedTens);
      rollResult.ones := executionResources.GetDieRoll(selectedOnes);
      executionResources.RemoveDice([selectedOnes, selectedTens]);
      KeptDiceAfterRemovingTwo(dice, selectedOnes, selectedTens);

      var total := rollResult.GetDieRollOnlyValue();
      rollResult.totalValue := total;
      RecordRoll(total);
    }

    /** The bookkeeping of `PullDice`: the total goes into the roll-value histogram, when there is one, and the running totals. */
    method RecordRoll(total: int32)
      requires StatsCanRecordRoll()
      requires 0 <= total <= 99
      requires totalRolls < Int32Max && totalRollValues + 99 <= Int32Max
      modifies this, stats
      ensures totalRolls == old(totalRolls) + 1 && totalRollValues == old(totalRollValues) + total
      ensures stats != null ==>
                (stats.Valid() && stats.intDistributions
                 == old(stats.intDistributions)[RollValuesId := Added(DistributionAt(old(stats.intDistributions), RollValuesId), total, 1)])
      ensures combat == old(combat) && round == old(round) && workerType == old(workerType)
      ensures currentDeckIndices == old(currentDeckIndices) && currentHandIndices == old(currentHandIndices)
      ensures vp == old(vp) && arbitraryCardVariation == old(arbitraryCardVariation) && opponent == old(opponent)
    {
      if stats != null {
        CountsBelowMaxCanAddOne(DistributionAt(stats.intDistributions, RollValuesId), total);
        stats.AddToIntDistribution(RollValuesId, total);
      }
      totalRolls := totalRolls + 1;
      totalRollValues := totalRollValues + total;
    }

    /**
     * The die choice of `PullDice`: a missing tens pick is drawn among
     * the dice other than the ones pick, then a missing ones pick among
     * the dice other than the tens die, and the two are exchanged when
     * the ones die shows the higher value.
     */
    method SelectDice(pickedTens: int32, pickedOnes: int32) returns (tensIndex: int32, onesIndex: int32)
      requires IsPick(pickedTens) && IsPick(pickedOnes)
      requires pickedTens != -1 ==> pickedTens != pickedOnes
      requires 2 <= |executionResources.remainingDice| <= Int32Max
      modifies rng
      ensures PulledDice(executionResources.remainingDice, pickedTens, pickedOnes, tensIndex, onesIndex)
    {
      var selectedTens: int32 := pickedTens;
      var selectedOnes: int32 := pickedOnes;
      if selectedTens == -1 {
        var possible := executionResources.GetPossibleDieRollIndexes(selectedOnes);
        var index := GetRandomIndexFromList(possible);
        selectedTens := index;
      }
      if selectedOnes == -1 {
        var possible := executionResources.GetPossibleDieRollIndexes(selectedTens);
        var index := GetRandomIndexFromList(possible);
        selectedOnes := index;
      }
      assert PickedPair(executionResources.remainingDice, pickedTens, pickedOnes, selectedTens, selectedOnes);
      if executionResources.GetDieRoll(selectedOnes).value > executionResources.GetDieRoll(selectedTens).value {
        selectedTens, selectedOnes := selectedOnes, selectedTens;
      }
      return selectedTens, selectedOnes;
    }

    /**
     * The heal branch of `ExecuteSingleCard`: a card with a heal effect
     * adds the first heal magnitude to current health and then lowers it
     * to the maximum if it went over; any other card leaves health alone.
     */
    method ExecuteHealEffect(card: WPCard, magnitude: int32)
      requires HealFits(card, combat.healthCurrent)
      modifies this
      ensures HasEffect(card, Heal) ==> combat.healthCurrent == Clamped(old(combat.healthCurrent) + HealMagnitude(card), combat.healthMax)
      ensures HasEffect(card, Heal) ==> combat.healthCurrent <= combat.healthMax
      ensures !HasEffect(card, Heal) ==> combat.healthCurrent == old(combat.healthCurrent)
      ensures combat == old(combat).(healthCurrent := combat.healthCurrent)
      ensures round == old(round) && workerType == old(workerType)
      ensures currentDeckIndices == old(currentDeckIndices) && currentHandIndices == old(currentHandIndices)
      ensures totalRolls == old(totalRolls) && totalRollValues == old(totalRollValues) && vp == old(vp)
      ensures arbitraryCardVariation == old(arbitraryCardVariation) && opponent == old(opponent)
    {
      var found, healMagnitude := GetCardEffect(card, Heal, magnitude);
      if found {
        var health := combat.healthCurrent + healMagnitude;
        if health > combat.healthMax {
          health := combat.healthMax;
        }
        combat := combat.(healthCurrent := health);
      }
    }

    /**
     * `PrepForCombat`: the stat row for the worker's type, full health,
     * no flee built, round 1 with a clean slate, a deck of every card
     * index from which the starting hand is drawn onto whatever the hand
     * already held, and two fresh dice of each combat type.
     */
    method PrepForCombat()
      requires |executionResources.allAvailableCards| <= Int32Max
      modifies this, rng, executionResources, executionResources.rng
      ensures executionResources.allAvailableCards == old(executionResources.allAvailableCards)
      ensures workerType != Count ==> IsAlive() && combat.healthCurrent == combat.healthMax
      ensures combat.fleeCurrent == 0 && round.currentRound == 1
      ensures combat == StatRow(workerType, old(combat)).(healthCurrent := combat.healthMax, fleeCurrent := 0)
      ensures round.cardsPlayedAsIs == [] && round.extraEvaluate == 0 && round.nextRoundExtraEvaluate == 0
      ensures multiset(currentDeckIndices) + multiset(currentHandIndices)
              == multiset(AllCardIndices(|executionResources.allAvailableCards|)) + multiset(old(currentHandIndices))
      ensures |currentHandIndices|
              == |old(currentHandIndices)| + DrawsTaken(|executionResources.allAvailableCards|, combat.startingHandSize)
      ensures executionResources.rng.drawCount >= 8
      ensures executionResources.remainingDice
              == RolledDice(2, executionResources.rng.randomNumber, executionResources.rng.drawCount - 8)
      ensures workerType == old(workerType) && opponent == old(opponent)
    {
      PrepStats();
      FillDeck();
      DrawCards(combat.startingHandSize);
      executionResources.RollNOfEachDie(2);
    }

    /** The stat part of `PrepForCombat`: the type's stat row at full health with no flee, and the first round with nothing earned yet. */
    method PrepStats()
      modifies this
      ensures workerType != Count ==> combat.healthMax > 0
      ensures combat.healthCurrent == combat.healthMax && combat.fleeCurrent == 0
      ensures combat == StatRow(workerType, old(combat)).(healthCurrent := combat.healthMax, fleeCurrent := 0)
      ensures round == RoundStats(1, [], 0, 0, 0, false, 0)
      ensures currentDeckIndices == old(currentDeckIndices) && currentHandIndices == old(currentHandIndices)
      ensures totalRolls == old(totalRolls) && totalRollValues == old(totalRollValues) && vp == old(vp)
      ensures workerType == old(workerType) && arbitraryCardVariation == old(arbitraryCardVariation) && opponent == old(opponent)
    {
      SetupStatsFromWorkerType();
      combat := combat.(healthCurrent := combat.healthMax, fleeCurrent := 0);
      round := round.(currentRound := 0);
      MoveToNextRound();
      ClearThisRoundStats();
    }

    /** The deck of `PrepForCombat`: cleared, then every card index pushed in order. */
    method FillDeck()
      requires |executionResources.allAvailableCards| <= Int32Max
      modifies this
      ensures currentDeckIndices == AllCardIndices(|executionResources.allAvailableCards|)
      ensures combat == old(combat) && round == old(round) && workerType == old(workerType)
      ensures currentHandIndices == old(currentHandIndices)
      ensures totalRolls == old(totalRolls) && totalRollValues == old(totalRollValues) && vp == old(vp)
      ensures arbitraryCardVariation == old(arbitraryCardVariation) && opponent == old(opponent)
    {
      var numCards := executionResources.GetNumAllCards();
      var deck: seq<int32> := [];
      var i := 0;
      while i < numCards
        invariant 0 <= i <= numCards
        invariant deck == AllCardIndices(i)
      {
        deck := deck + [i];
        i := i + 1;
      }
      currentDeckIndices := deck;
    }
  }

  /** The stats row `SetupStatsFromWorkerType` gives a worker of type `t` whose stats were `c`. */
  function StatRow(t: WorkerType, c: CombatStats): CombatStats
  {
    match t
    case Basic => c.(skill := 0, damage := 1, healthMax := 4, hold := 3, flee := 1, startingHandSize := 1)
    case Trained => c.(skill := 10, damage := 2, healthMax := 6, hold := 4, flee := 1, startingHandSize := 1)
    case Warrior => c.(skill := 20, damage := 3, healthMax := 8, hold := 6, flee := 1, startingHandSize := 1)
    case Rogue => c.(skill := 30, damage := 2, healthMax := 6, hold := 4, flee := 2, startingHandSize := 2)
    case Count => c
  }

  /**
   * Setting up the stats is idempotent, never touches the current health
   * or flee, and ranks the four real types by skill: each one is a step of
   * 10 above the one before it.
   */
  lemma StatRowProperties(t: WorkerType, c: CombatStats)
    ensures StatRow(t, StatRow(t, c)) == StatRow(t, c)
    ensures StatRow(t, c).healthCurrent == c.healthCurrent && StatRow(t, c).fleeCurrent == c.fleeCurrent
    ensures StatRow(Trained, c).skill == StatRow(Basic, c).skill + 10
    ensures StatRow(Warrior, c).skill == StatRow(Trained, c).skill + 10
    ensures StatRow(Rogue, c).skill == StatRow(Warrior, c).skill + 10
    ensures t != Count ==> StatRow(t, c).healthMax > 0 && StatRow(t, c).startingHandSize > 0
  {
  }

  /** The deck `PrepForCombat` starts from: every card index in order. */
  function AllCardIndices(n: nat): (indices: seq<int32>)
    requires n <= Int32Max + 1
    ensures |indices| == n && forall i :: 0 <= i < n ==> indices[i] == i
  {
    seq(n, i => i)
  }

  /** Whether the card has some pair with the effect. */
  predicate HasEffect(card: WPCard, effect: CardEffect)
  {
    FirstWithEffect(card.cardEffectsAndMagnitude, effect, 0) < |card.cardEffectsAndMagnitude|
  }

  /** The magnitude of the card's first heal pair, or 0 when it has none. */
  function HealMagnitude(card: WPCard): (magnitude: int)
    ensures HasEffect(card, Heal) ==> magnitude == card.cardEffectsAndMagnitude[FirstWithEffect(card.cardEffectsAndMagnitude, Heal, 0)].magnitude
  {
    var i := FirstWithEffect(card.cardEffectsAndMagnitude, Heal, 0);
    if i < |card.cardEffectsAndMagnitude| then card.cardEffectsAndMagnitude[i].magnitude else 0
  }

  /** Healing by the card's magnitude does not overflow `int32_t`. */
  predicate HealFits(card: WPCard, healthCurrent: int32)
  {
    InInt32(healthCurrent + HealMagnitude(card))
  }

  /** The clamp the heal applies: values above the maximum become the maximum. */
  function Clamped(health: int, healthMax: int): (r: int)
    ensures r <= healthMax && (r == health || r == healthMax)
    ensures health <= healthMax ==> r == health
  {
    if health > healthMax then healthMax else health
  }

  /** After the fallback: both picks are distinct remaining dice, and a die a strategy picked is kept in its place. */
  ghost predicate PickedPair(dice: seq<DieRoll>, pickedTens: int, pickedOnes: int, tensIndex: int, onesIndex: int)
  {
    0 <= tensIndex < |dice| && 0 <= onesIndex < |dice| && tensIndex != onesIndex
    && (pickedTens != -1 ==> tensIndex == pickedTens)
    && (pickedOnes != -1 ==> onesIndex == pickedOnes)
  }

  /** The two dice pulled: the picked pair, possibly exchanged so that the higher value is in the tens place. */
  ghost predicate PulledDice(dice: seq<DieRoll>, pickedTens: int, pickedOnes: int, tensIndex: int, onesIndex: int)
  {
    (PickedPair(dice, pickedTens, pickedOnes, tensIndex, onesIndex)
     || PickedPair(dice, pickedTens, pickedOnes, onesIndex, tensIndex))
    && 0 <= tensIndex < |dice| && 0 <= onesIndex < |dice|
    && dice[tensIndex].value >= dice[onesIndex].value
  }
}
