/**
 * The worker-placement execution resources: the dice still to be played
 * in a combat and the cards available to it, with the side tables the
 * dice are rolled from and the index queries the workers' strategies use.
 *
 * The shared random number generator is a stream of caller-supplied
 * 32-bit draws; `RandomIndex(size)` reduces the next draw modulo `size`.
 */
module WPResources {
  import opened FixedWidth
  import opened WPCards

  /** The random source: draw number `k` is `randomNumber(k)`, and `drawCount` draws are used up. */
  class RNG {
    const randomNumber: nat -> uint32
    var drawCount: nat

    constructor (randomNumber: nat -> uint32)
      ensures this.randomNumber == randomNumber && drawCount == 0
    {
      this.randomNumber := randomNumber;
      drawCount := 0;
    }

    /** `RandomIndex(size)`: the next draw modulo `size` (a size of 0 would divide by zero). */
    method RandomIndex(size: nat) returns (index: nat)
      requires 0 < size
      modifies this
      ensures index == randomNumber(old(drawCount)) % size && index < size
      ensures drawCount == old(drawCount) + 1
    {
      index := randomNumber(drawCount) % size;
      drawCount := drawCount + 1;
    }
  }

  datatype DiceType = Heavy | Swing | Bonus | Card | RandomEffect

  /** The four types a combat rolls: those below `CountCombatSetupDice`, which `RandomEffect` equals. */
  predicate IsCombatSetupDie(diceType: DiceType)
  {
    diceType != RandomEffect
  }

  /** The combat setup types in enum order. */
  function SetupType(i: nat): (diceType: DiceType)
    requires i < 4
    ensures IsCombatSetupDie(diceType)
  {
    [Heavy, Swing, Bonus, Card][i]
  }

  datatype DiceEffect = None | ResultBonus | PlayCard

  datatype PrintColor = DarkRed | Brown | Purple | Blue | Orange | Red

  /** `DiceFace`: Worst (0) to Best (5). */
  type DiceFace = f: nat | f < 6

  const BestFace: DiceFace := 5

  datatype DieRoll = DieRoll(
    diceType: DiceType,
    value: int32,
    diceEffect: DiceEffect,
    diceColor: PrintColor,
    missingPotential: int32)

  /** The default-constructed die handed out for an index past the end. */
  const InvalidDie: DieRoll := DieRoll(Swing, -10, None, Red, 0)

  /** `GetSimplePredictedValue`: the face value, plus one for a die that plays a card. */
  function GetSimplePredictedValue(roll: DieRoll): (predicted: int)
    ensures roll.value <= predicted <= roll.value + 1
    ensures predicted == roll.value + 1 <==> roll.diceEffect == PlayCard
  {
    roll.value + if roll.diceEffect == PlayCard then 1 else 0
  }

  /** The side values of each die, Worst face first. */
  function Sides(diceType: DiceType): (row: seq<int32>)
    ensures |row| == 6
  {
    match diceType
    case Heavy => [6, 7, 7, 8, 8, 9]
    case Swing => [1, 2, 3, 4, 5, 6]
    case Bonus => [3, 3, 4, 4, 5, 6]
    case Card => [0, 1, 1, 2, 2, 2]
    case RandomEffect => [2, 2, 6, 6, 9, 9]
  }

  /** `MakeDiceEffectList`: the same effect on every face. */
  function MakeDiceEffectList(diceEffect: DiceEffect): (row: seq<DiceEffect>)
    ensures |row| == 6 && forall face: DiceFace :: row[face] == diceEffect
  {
    seq(6, _ => diceEffect)
  }

  /** The face effects of each die. */
  function Effects(diceType: DiceType): (row: seq<DiceEffect>)
    ensures |row| == 6
  {
    match diceType
    case Heavy => MakeDiceEffectList(None)
    case Swing => MakeDiceEffectList(None)
    case Bonus => MakeDiceEffectList(ResultBonus)
    case Card => MakeDiceEffectList(PlayCard)
    case RandomEffect => [PlayCard, PlayCard, ResultBonus, ResultBonus, None, None]
  }

  function DieColor(diceType: DiceType): PrintColor
  {
    match diceType
    case Heavy => DarkRed
    case Swing => Brown
    case Bonus => Purple
    case Card => Blue
    case RandomEffect => Orange
  }

  /**
   * `MakeDieRoll`: the table entries for the type and face. A setup die
   * misses what its best face would add, which is never negative; the
   * random-effect die is given no missing potential.
   */
  function MakeDieRoll(diceType: DiceType, face: DiceFace): (roll: DieRoll)
    ensures roll.diceType == diceType && roll.value == Sides(diceType)[face]
    ensures roll.diceEffect == Effects(diceType)[face] && roll.diceColor == DieColor(diceType)
    ensures IsCombatSetupDie(diceType) ==> roll.value + roll.missingPotential == Sides(diceType)[BestFace]
    ensures !IsCombatSetupDie(diceType) ==> roll.missingPotential == 0
    ensures 0 <= roll.missingPotential
  {
    SidesNonDecreasing(diceType, face, BestFace);
    var row := Sides(diceType);
    var missingPotential := if IsCombatSetupDie(diceType) then row[BestFace] - row[face] else 0;
    DieRoll(diceType, row[face], Effects(diceType)[face], DieColor(diceType), missingPotential)
  }

  /** Every side row is sorted from the worst face to the best. */
  lemma SidesNonDecreasing(diceType: DiceType, lower: DiceFace, upper: DiceFace)
    requires lower <= upper
    ensures Sides(diceType)[lower] <= Sides(diceType)[upper]
  {
  }

  /** The effect each die shows, face by face. */
  lemma DieEffects(face: DiceFace)
    ensures MakeDieRoll(Heavy, face).diceEffect == None && MakeDieRoll(Swing, face).diceEffect == None
    ensures MakeDieRoll(Bonus, face).diceEffect == ResultBonus && MakeDieRoll(Card, face).diceEffect == PlayCard
    ensures MakeDieRoll(RandomEffect, face).diceEffect == (if face < 2 then PlayCard else if face < 4 then ResultBonus else None)
  {
  }

  /** Every side value is a single decimal digit, so a rolled die reads as one digit of a roll. */
  lemma SideValuesAreDigits(diceType: DiceType, face: DiceFace)
    ensures 0 <= MakeDieRoll(diceType, face).value <= 9
  {
  }

  /** All dice show a side value, as every die the resources hold was rolled from the tables. */
  predicate FaceValued(dice: seq<DieRoll>)
  {
    forall i :: 0 <= i < |dice| ==> 0 <= dice[i].value <= 9
  }

  /** Die `k` of `RollNOfEachDie(n)`: the `k / n`-th setup type, rolled with the `k`-th draw. */
  function RolledDie(numOfEach: nat, randomNumber: nat -> uint32, start: nat, k: nat): (roll: DieRoll)
    requires k < 4 * numOfEach
    ensures roll.diceType == SetupType(k / numOfEach)
  {
    MakeDieRoll(SetupType(k / numOfEach), randomNumber(start + k) % 6)
  }

  /** The dice `RollNOfEachDie(n)` leaves, rolled from the draws numbered from `start`. */
  function RolledDice(numOfEach: nat, randomNumber: nat -> uint32, start: nat): (dice: seq<DieRoll>)
    ensures |dice| == 4 * numOfEach
  {
    seq(4 * numOfEach, k requires 0 <= k < 4 * numOfEach => RolledDie(numOfEach, randomNumber, start, k))
  }

  /** The roll holds `n` dice of each setup type, in enum order. */
  lemma RolledDiceTypes(numOfEach: nat, randomNumber: nat -> uint32, start: nat, t: nat, c: nat)
    requires t < 4 && c < numOfEach
    ensures RolledDice(numOfEach, randomNumber, start)[t * numOfEach + c].diceType == SetupType(t)
  {
    BlockQuotient(t, numOfEach, c);
  }

  lemma BlockQuotient(t: nat, n: nat, c: nat)
    requires c < n
    ensures (t * n + c) / n == t && t * n + c < (t + 1) * n
  {
    var x := t * n + c;
    var k := x / n - t;
    assert k * n == c - x % n by {
      assert x == (x / n) * n + x % n;
      assert (x / n) * n == k * n + t * n;
    }
    if k >= 1 {
      MulAtLeast(k, n);
    } else if k <= -1 {
      MulAtLeast(-k, n);
    }
    assert (t + 1) * n == t * n + n;
  }

  lemma MulAtLeast(k: int, n: nat)
    requires k >= 1
    ensures k * n >= n
  {
    assert k * n == (k - 1) * n + n;
  }

  /** The indexes `RemoveDice` keeps among `0..n-1`. */
  function KeptIndexes(indexes: seq<int32>, n: nat): (kept: seq<nat>)
  {
    if n == 0 then []
    else KeptIndexes(indexes, n - 1) + (if (n - 1) in indexes then [] else [n - 1])
  }

  /** The kept indexes are exactly the unlisted ones below `n`, in ascending order. */
  lemma {:induction false} KeptIndexesAre(indexes: seq<int32>, n: nat)
    ensures var kept := KeptIndexes(indexes, n);
            (forall x :: x in kept <==> 0 <= x < n && x !in indexes)
            && (forall i :: 0 <= i < |kept| ==> kept[i] < n)
            && (forall i, j :: 0 <= i < j < |kept| ==> kept[i] < kept[j])
            && |kept| <= n
  {
    if n > 0 {
      KeptIndexesAre(indexes, n - 1);
    }
  }

  /** The dice `RemoveDice` keeps from the first `n`. */
  function KeptDice(dice: seq<DieRoll>, indexes: seq<int32>, n: nat): (kept: seq<DieRoll>)
    requires n <= |dice|
  {
    if n == 0 then []
    else KeptDice(dice, indexes, n - 1) + (if (n - 1) in indexes then [] else [dice[n - 1]])
  }

  /** The kept dice are the dice at the kept indexes, in the same order. */
  lemma {:induction false} KeptDiceAre(dice: seq<DieRoll>, indexes: seq<int32>, n: nat)
    requires n <= |dice|
    ensures |KeptDice(dice, indexes, n)| == |KeptIndexes(indexes, n)|
    ensures forall j :: 0 <= j < |KeptDice(dice, indexes, n)| ==>
              KeptIndexes(indexes, n)[j] < n && KeptDice(dice, indexes, n)[j] == dice[KeptIndexes(indexes, n)[j]]
  {
    if n > 0 {
      KeptDiceAre(dice, indexes, n - 1);
      KeptIndexesAre(indexes, n);
    }
  }

  /** Dropping two distinct in-range dice leaves exactly two fewer. */
  lemma {:induction false} KeptAfterRemovingTwo(a: int32, b: int32, n: nat)
    requires 0 <= a && 0 <= b && a != b
    ensures |KeptIndexes([a, b], n)| == n - (if a < n then 1 else 0) - (if b < n then 1 else 0)
  {
    if n > 0 {
      KeptAfterRemovingTwo(a, b, n - 1);
      var last: seq<nat> := if (n - 1) in [a, b] then [] else [n - 1];
      assert KeptIndexes([a, b], n) == KeptIndexes([a, b], n - 1) + last;
      assert (n - 1) in [a, b] <==> n - 1 == a || n - 1 == b;
    }
  }

  /** Removing two distinct remaining dice leaves two dice fewer. */
  lemma KeptDiceAfterRemovingTwo(dice: seq<DieRoll>, a: int32, b: int32)
    requires 0 <= a < |dice| && 0 <= b < |dice| && a != b
    ensures |KeptDice(dice, [a, b], |dice|)| == |dice| - 2
  {
    KeptDiceAre(dice, [a, b], |dice|);
    KeptAfterRemovingTwo(a, b, |dice|);
  }

  /** The ordering keys of the three sorted queries: a lower rank sorts first. */
  datatype SortCriterion = PredictedAscending | PredictedDescending | MissingPotentialDescending

  /** `GetDieRoll` on a die sequence: the die at the index, or the invalid die past the end. */
  function DieAt(dice: seq<DieRoll>, index: nat): (roll: DieRoll)
    ensures index < |dice| ==> roll == dice[index]
    ensures |dice| <= index ==> roll == InvalidDie
  {
    if index < |dice| then dice[index] else InvalidDie
  }

  /** The comparator of each sorted query holds of `a, b` exactly when `a`'s rank is below `b`'s. */
  function Rank(criterion: SortCriterion, dice: seq<DieRoll>, index: nat): int
  {
    match criterion
    case PredictedAscending => GetSimplePredictedValue(DieAt(dice, index))
    case PredictedDescending => -GetSimplePredictedValue(DieAt(dice, index))
    case MissingPotentialDescending => -(DieAt(dice, index).missingPotential as int)
  }

  /** The comparator the source hands to `std::sort`. */
  predicate SortsBefore(criterion: SortCriterion, dice: seq<DieRoll>, a: nat, b: nat)
  {
    match criterion
    case PredictedAscending => GetSimplePredictedValue(DieAt(dice, a)) < GetSimplePredictedValue(DieAt(dice, b))
    case PredictedDescending => GetSimplePredictedValue(DieAt(dice, a)) > GetSimplePredictedValue(DieAt(dice, b))
    case MissingPotentialDescending => DieAt(dice, a).missingPotential > DieAt(dice, b).missingPotential
  }

  lemma SortsBeforeIsRank(criterion: SortCriterion, dice: seq<DieRoll>, a: nat, b: nat)
    ensures SortsBefore(criterion, dice, a, b) <==> Rank(criterion, dice, a) < Rank(criterion, dice, b)
  {
  }

  /** A sequence `std::sort` could leave behind: no later element sorts before an earlier one. */
  predicate SortedBy(criterion: SortCriterion, dice: seq<DieRoll>, s: seq<nat>)
  {
    forall i, j :: 0 <= i < j < |s| ==> Rank(criterion, dice, s[i]) <= Rank(criterion, dice, s[j])
  }

  predicate Distinct(s: seq<nat>)
  {
    forall i, j :: 0 <= i < j < |s| ==> s[i] != s[j]
  }

  /** Inserts `x` after every element that does not rank above it. */
  method InsertByRank(criterion: SortCriterion, dice: seq<DieRoll>, sorted: seq<nat>, x: nat) returns (r: seq<nat>)
    requires SortedBy(criterion, dice, sorted)
    ensures SortedBy(criterion, dice, r)
    ensures multiset(r) == multiset(sorted) + multiset{x}
  {
    var p := 0;
    while p < |sorted| && Rank(criterion, dice, sorted[p]) <= Rank(criterion, dice, x)
      invariant 0 <= p <= |sorted|
      invariant forall k :: 0 <= k < p ==> Rank(criterion, dice, sorted[k]) <= Rank(criterion, dice, x)
    {
      p := p + 1;
    }
    r := sorted[..p] + [x] + sorted[p..];
    assert sorted == sorted[..p] + sorted[p..];
    InsertionKeepsSorted(criterion, dice, sorted, x, p);
  }

  /** Placing `x` after the elements that do not rank above it, and before the rest, keeps the order. */
  lemma InsertionKeepsSorted(criterion: SortCriterion, dice: seq<DieRoll>, sorted: seq<nat>, x: nat, p: nat)
    requires SortedBy(criterion, dice, sorted) && p <= |sorted|
    requires forall k :: 0 <= k < p ==> Rank(criterion, dice, sorted[k]) <= Rank(criterion, dice, x)
    requires p < |sorted| ==> Rank(criterion, dice, x) < Rank(criterion, dice, sorted[p])
    ensures SortedBy(criterion, dice, sorted[..p] + [x] + sorted[p..])
  {
    var r := sorted[..p] + [x] + sorted[p..];
    forall i, j | 0 <= i < j < |r|
      ensures Rank(criterion, dice, r[i]) <= Rank(criterion, dice, r[j])
    {
      if j < p {
        assert r[i] == sorted[i] && r[j] == sorted[j];
      } else if j == p {
        assert r[i] == sorted[i] && r[j] == x;
      } else if i < p {
        assert r[i] == sorted[i] && r[j] == sorted[j - 1];
      } else if i == p {
        assert r[i] == x && r[j] == sorted[j - 1];
        assert Rank(criterion, dice, sorted[p]) <= Rank(criterion, dice, sorted[j - 1]);
      } else {
        assert r[i] == sorted[i - 1] && r[j] == sorted[j - 1];
      }
    }
  }

  /** The sort `std::sort` performs with the query's comparator, as an insertion sort. */
  method SortByRank(criterion: SortCriterion, dice: seq<DieRoll>, xs: seq<nat>) returns (sorted: seq<nat>)
    ensures SortedBy(criterion, dice, sorted)
    ensures multiset(sorted) == multiset(xs)
  {
    sorted := [];
    var i := 0;
    while i < |xs|
      invariant 0 <= i <= |xs|
      invariant SortedBy(criterion, dice, sorted)
      invariant multiset(sorted) == multiset(xs[..i])
    {
      sorted := InsertByRank(criterion, dice, sorted, xs[i]);
      assert xs[..i + 1] == xs[..i] + [xs[i]];
      i := i + 1;
    }
    assert xs[..i] == xs;
  }

  /** A permutation of a sequence without repeats has none either. */
  lemma PermutationKeepsDistinct(s: seq<nat>, t: seq<nat>)
    requires Distinct(t) && multiset(s) == multiset(t)
    ensures Distinct(s)
  {
    forall i, j | 0 <= i < j < |s|
      ensures s[i] != s[j]
    {
      RepeatCountsTwice(s, i, j);
      DistinctCountsOnce(t, s[i]);
    }
  }

  lemma RepeatCountsTwice(s: seq<nat>, i: nat, j: nat)
    requires i < j < |s|
    ensures s[i] == s[j] ==> multiset(s)[s[i]] >= 2
  {
    if s[i] == s[j] {
      assert s == s[..i] + [s[i]] + s[i + 1..j] + [s[j]] + s[j + 1..];
    }
  }

  lemma {:induction false} DistinctCountsOnce(t: seq<nat>, a: nat)
    requires Distinct(t)
    ensures multiset(t)[a] <= 1
  {
    if |t| > 0 {
      var rest := t[1..];
      assert t == [t[0]] + rest;
      forall k | 0 <= k < |rest|
        ensures rest[k] == t[k + 1]
      {
      }
      assert Distinct(rest);
      DistinctCountsOnce(rest, a);
      assert t[0] !in rest;
    }
  }

  /**
   * A prefix of a sorted arrangement holds the extreme elements: nothing
   * left out ranks strictly below anything kept.
   */
  lemma SortedPrefixIsExtreme(criterion: SortCriterion, dice: seq<DieRoll>, s: seq<nat>, m: nat, x: nat, y: nat)
    requires SortedBy(criterion, dice, s) && m <= |s|
    requires x in s[..m] && y in s && y !in s[..m]
    ensures Rank(criterion, dice, x) <= Rank(criterion, dice, y)
  {
    assert forall k :: 0 <= k < m ==> s[..m][k] == s[k];
    var i :| 0 <= i < m && s[i] == x;
    var j :| 0 <= j < |s| && s[j] == y;
    assert m <= j;
  }

  /** The four level-1 cards every setup starts with. */
  const DefaultCards: seq<WPCard> := [
    MakeCard(1, "Reroll 2 Dice", [CardEffectAndMagnitude(RerollDice, 2)]),
    MakeCard(1, "Extra Eval Next Turn", [CardEffectAndMagnitude(ExtraEvaluate, 1)]),
    MakeCard(1, "+50 skill", [CardEffectAndMagnitude(TempSkill, 50)]),
    MakeCard(1, "Heal 1", [CardEffectAndMagnitude(Heal, 1)])
  ]

  /** The level-2 card each variation id from 1 to 9 adds. */
  function VariationCard(variationId: int32): (card: WPCard)
    requires 1 <= variationId <= 9
    ensures card.cardLevel == 2
  {
    match variationId
    case 1 => MakeCard(2, "Draw a Card, +1 Temp Bonus Result",
                       [CardEffectAndMagnitude(DrawCard, 1), CardEffectAndMagnitude(TempBonusResult, 1)])
    case 2 => MakeCard(2, "Swap Opponent Dice", [CardEffectAndMagnitude(SwapOpponentDice, 1)])
    case 3 => MakeCard(2, "Force 1 Damage", [CardEffectAndMagnitude(ForceDamage, 1)])
    case 4 => MakeCard(2, "+1 Permanent Damage", [CardEffectAndMagnitude(PermanentDamage, 1)])
    case 5 => MakeCard(2, "+2x Eval Next Turn", [CardEffectAndMagnitude(ExtraEvaluate, 2)])
    case 6 => MakeCard(2, "Heal 3", [CardEffectAndMagnitude(Heal, 3)])
    case 7 => MakeCard(2, "Reroll 4 Dice", [CardEffectAndMagnitude(RerollDice, 4)])
    case 8 => MakeCard(2, "+20 ONLY PERMANENT BONUS", [])
    case 9 => MakeCard(2, "Exchange Dice for Super Dice", [CardEffectAndMagnitude(ReplaceWithRandomEffectDice, 1)])
  }

  predicate IsVariationId(variationId: int32)
  {
    1 <= variationId <= 9
  }

  /** `AddCardVariation` on a card list: a known id drops the last card and puts its card first. */
  function WithVariation(cards: seq<WPCard>, variationId: int32): (r: seq<WPCard>)
    requires IsVariationId(variationId) ==> 0 < |cards|
    ensures !IsVariationId(variationId) ==> r == cards
    ensures IsVariationId(variationId) ==> |r| == |cards| && r[0] == VariationCard(variationId)
                                            && r[1..] == cards[..|cards| - 1]
  {
    if IsVariationId(variationId) then [VariationCard(variationId)] + cards[..|cards| - 1] else cards
  }

  /** A variation on the default cards keeps four, with its level-2 card first and the first three defaults after it. */
  lemma VariationOnDefaults(variationId: int32)
    ensures |WithVariation(DefaultCards, variationId)| == 4
    ensures IsVariationId(variationId) ==>
              WithVariation(DefaultCards, variationId)[0].cardLevel == 2
              && WithVariation(DefaultCards, variationId)[1..] == DefaultCards[..3]
    ensures !IsVariationId(variationId) ==> WithVariation(DefaultCards, variationId) == DefaultCards
    ensures forall i :: 0 <= i < 4 ==> DefaultCards[i].cardLevel == 1
  {
  }

  class WPExecutionResources {
    const rng: RNG
    var remainingDice: seq<DieRoll>
    var allAvailableCards: seq<WPCard>

    constructor (rng: RNG)
      ensures this.rng == rng && remainingDice == [] && allAvailableCards == []
    {
      this.rng := rng;
      remainingDice := [];
      allAvailableCards := [];
    }

    /** `RandomDieFace`: the next draw modulo the six faces. */
    method RandomDieFace() returns (face: DiceFace)
      modifies rng
      ensures face == rng.randomNumber(old(rng.drawCount)) % 6
      ensures rng.drawCount == old(rng.drawCount) + 1
    {
      face := rng.RandomIndex(6);
    }

    /** Appends `numOfEach` fresh dice of one type, one draw each. */
    method RollDiceOfType(diceType: DiceType, numOfEach: nat)
      modifies this, rng
      ensures |remainingDice| == |old(remainingDice)| + numOfEach
      ensures remainingDice[..|old(remainingDice)|] == old(remainingDice)
      ensures forall k :: |old(remainingDice)| <= k < |remainingDice| ==>
                remainingDice[k] == MakeDieRoll(diceType, rng.randomNumber(old(rng.drawCount) + (k - |old(remainingDice)|)) % 6)
      ensures rng.drawCount == old(rng.drawCount) + numOfEach
      ensures allAvailableCards == old(allAvailableCards)
    {
      var dieCount := 0;
      while dieCount < numOfEach
        invariant 0 <= dieCount <= numOfEach
        invariant |remainingDice| == |old(remainingDice)| + dieCount
        invariant remainingDice[..|old(remainingDice)|] == old(remainingDice)
        invariant forall k :: |old(remainingDice)| <= k < |remainingDice| ==>
                    remainingDice[k] == MakeDieRoll(diceType, rng.randomNumber(old(rng.drawCount) + (k - |old(remainingDice)|)) % 6)
        invariant rng.drawCount == old(rng.drawCount) + dieCount
        invariant allAvailableCards == old(allAvailableCards)
      {
        var face := RandomDieFace();
        remainingDice := remainingDice + [MakeDieRoll(diceType, face)];
        dieCount := dieCount + 1;
      }
    }

    /** `RollNOfEachDie`: the dice become `n` of each setup type in enum order, one draw per die. */
    method RollNOfEachDie(numOfEach: int32)
      modifies this, rng
      ensures remainingDice == RolledDice(if numOfEach < 0 then 0 else numOfEach, rng.randomNumber, old(rng.drawCount))
      ensures rng.drawCount == old(rng.drawCount) + 4 * (if numOfEach < 0 then 0 else numOfEach)
      ensures allAvailableCards == old(allAvailableCards)
    {
      var n: nat := if numOfEach < 0 then 0 else numOfEach;
      ghost var start := rng.drawCount;
      remainingDice := [];
      var t := 0;
      while t < 4
        invariant 0 <= t <= 4
        invariant |remainingDice| == t * n && rng.drawCount == start + t * n
        invariant forall k :: 0 <= k < t * n ==> remainingDice[k] == RolledDie(n, rng.randomNumber, start, k)
        invariant allAvailableCards == old(allAvailableCards)
      {
        ghost var before := remainingDice;
        RollDiceOfType(SetupType(t), n);
        forall k | 0 <= k < (t + 1) * n
          ensures remainingDice[k] == RolledDie(n, rng.randomNumber, start, k)
        {
          if k < t * n {
            assert remainingDice[k] == remainingDice[..|before|][k];
          } else {
            var c := k - t * n;
            BlockQuotient(t, n, c);
          }
        }
        t := t + 1;
      }
    }

    /** `RerollDie`: the die at the index is rolled again as the same type. */
    method RerollDie(index: int32)
      requires 0 <= index < |remainingDice|
      modifies this, rng
      ensures remainingDice == old(remainingDice)[index := MakeDieRoll(old(remainingDice[index]).diceType,
                                                                       rng.randomNumber(old(rng.drawCount)) % 6)]
      ensures rng.drawCount == old(rng.drawCount) + 1
      ensures allAvailableCards == old(allAvailableCards)
    {
      var face := RandomDieFace();
      remainingDice := remainingDice[index := MakeDieRoll(remainingDice[index].diceType, face)];
    }

    /** `ReplaceDie`: the die at the index is rolled afresh as the given type. */
    method ReplaceDie(index: int32, diceType: DiceType)
      requires 0 <= index < |remainingDice|
      modifies this, rng
      ensures remainingDice == old(remainingDice)[index := MakeDieRoll(diceType, rng.randomNumber(old(rng.drawCount)) % 6)]
      ensures rng.drawCount == old(rng.drawCount) + 1
      ensures allAvailableCards == old(allAvailableCards)
    {
      var face := RandomDieFace();
      remainingDice := remainingDice[index := MakeDieRoll(diceType, face)];
    }

    /** `RemoveDice`: the unlisted dice stay, in their order; the listed ones go. */
    method RemoveDice(indexes: seq<int32>)
      modifies this
      ensures remainingDice == KeptDice(old(remainingDice), indexes, |old(remainingDice)|)
      ensures allAvailableCards == old(allAvailableCards)
    {
      var swappedInRolls: seq<DieRoll> := [];
      var i := 0;
      while i < |remainingDice|
        invariant 0 <= i <= |remainingDice|
        invariant swappedInRolls == KeptDice(remainingDice, indexes, i)
      {
        assert KeptDice(remainingDice, indexes, i + 1)
               == KeptDice(remainingDice, indexes, i) + (if i in indexes then [] else [remainingDice[i]]);
        if i !in indexes {
          swappedInRolls := swappedInRolls + [remainingDice[i]];
        }
        i := i + 1;
      }
      remainingDice := swappedInRolls;
    }

    function GetNumRemainingDice(): (count: nat)
      reads this
      ensures count == |remainingDice|
    {
      |remainingDice|
    }

    /** `GetNumRemainingCombatRounds`: two dice are played per round. */
    function GetNumRemainingCombatRounds(): (rounds: nat)
      reads this
      ensures 2 * rounds <= |remainingDice| < 2 * rounds + 2
    {
      |remainingDice| / 2
    }

    /** `GetDieRoll`: the die at a non-negative index, or the invalid die (value -10) past the end. */
    function GetDieRoll(index: int32): (roll: DieRoll)
      requires 0 <= index
      reads this
      ensures index < |remainingDice| ==> roll == remainingDice[index]
      ensures |remainingDice| <= index ==> roll == InvalidDie && roll.value == -10
    {
      DieAt(remainingDice, index)
    }

    /** `GetPossibleDieRollIndexes`: every die index except `skipIndex`, ascending. */
    method GetPossibleDieRollIndexes(skipIndex: int32) returns (result: seq<nat>)
      ensures forall x :: x in result <==> 0 <= x < |remainingDice| && x != skipIndex
      ensures forall i, j :: 0 <= i < j < |result| ==> result[i] < result[j]
      ensures |result| == |remainingDice| - (if 0 <= skipIndex < |remainingDice| then 1 else 0)
    {
      result := [];
      var i := 0;
      while i < |remainingDice|
        invariant 0 <= i <= |remainingDice|
        invariant forall x :: x in result <==> 0 <= x < i && x != skipIndex
        invariant forall a, b :: 0 <= a < b < |result| ==> result[a] < result[b]
        invariant forall a :: 0 <= a < |result| ==> result[a] < i
        invariant |result| == i - (if 0 <= skipIndex < i then 1 else 0)
      {
        if i != skipIndex {
          result := result + [i];
        }
        i := i + 1;
      }
    }

    /**
     * The three sorted queries: the possible indexes sorted with the
     * query's comparator, cut to the first `min(n, count)`. The order of
     * dice that compare equal is left open, as `std::sort` leaves it.
     */
    method GetSortedDieRollIndexes(criterion: SortCriterion, n: nat, skipIndex: int32) returns (result: seq<nat>)
      ensures |result| == if n < |remainingDice| - (if 0 <= skipIndex < |remainingDice| then 1 else 0) then n
                           else |remainingDice| - (if 0 <= skipIndex < |remainingDice| then 1 else 0)
      ensures forall x :: x in result ==> x < |remainingDice| && x != skipIndex
      ensures Distinct(result)
      ensures SortedBy(criterion, remainingDice, result)
      ensures forall x, y: nat :: x in result && y < |remainingDice| && y != skipIndex && y !in result
                               ==> Rank(criterion, remainingDice, x) <= Rank(criterion, remainingDice, y)
    {
      var possible := GetPossibleDieRollIndexes(skipIndex);
      var sorted := SortByRank(criterion, remainingDice, possible);
      assert Distinct(possible);
      PermutationKeepsDistinct(sorted, possible);
      var m := if n < |sorted| then n else |sorted|;
      assert |sorted| == |possible| by {
        assert |multiset(sorted)| == |sorted|;
        assert |multiset(possible)| == |possible|;
      }
      result := sorted[..m];
      forall x | x in result
        ensures x < |remainingDice| && x != skipIndex
      {
        var k :| 0 <= k < |result| && result[k] == x;
        assert sorted[k] == x;
        assert x in multiset(possible);
        assert x in possible;
      }
      forall x, y: nat | x in result && y < |remainingDice| && y != skipIndex && y !in result
        ensures Rank(criterion, remainingDice, x) <= Rank(criterion, remainingDice, y)
      {
        assert y in possible;
        assert y in multiset(sorted);
        SortedPrefixIsExtreme(criterion, remainingDice, sorted, m, x, y);
      }
    }

    /** `GetNWorstDieRollIndexes`: sorted by predicted value, lowest first. */
    method GetNWorstDieRollIndexes(n: nat, skipIndex: int32) returns (result: seq<nat>)
      ensures forall x :: x in result ==> x < |remainingDice| && x != skipIndex
      ensures |result| == if n < |remainingDice| - (if 0 <= skipIndex < |remainingDice| then 1 else 0) then n
                           else |remainingDice| - (if 0 <= skipIndex < |remainingDice| then 1 else 0)
      ensures Distinct(result)
      ensures forall i, j :: 0 <= i < j < |result| ==>
                GetSimplePredictedValue(DieAt(remainingDice, result[i])) <= GetSimplePredictedValue(DieAt(remainingDice, result[j]))
      ensures forall x, y: nat :: x in result && y < |remainingDice| && y != skipIndex && y !in result
                               ==> GetSimplePredictedValue(DieAt(remainingDice, x)) <= GetSimplePredictedValue(DieAt(remainingDice, y))
    {
      result := GetSortedDieRollIndexes(PredictedAscending, n, skipIndex);
    }

    /** `GetNBestDieRollIndexes`: sorted by predicted value, highest first. */
    method GetNBestDieRollIndexes(n: nat, skipIndex: int32) returns (result: seq<nat>)
      ensures forall x :: x in result ==> x < |remainingDice| && x != skipIndex
      ensures |result| == if n < |remainingDice| - (if 0 <= skipIndex < |remainingDice| then 1 else 0) then n
                           else |remainingDice| - (if 0 <= skipIndex < |remainingDice| then 1 else 0)
      ensures Distinct(result)
      ensures forall i, j :: 0 <= i < j < |result| ==>
                GetSimplePredictedValue(DieAt(remainingDice, result[i])) >= GetSimplePredictedValue(DieAt(remainingDice, result[j]))
      ensures forall x, y: nat :: x in result && y < |remainingDice| && y != skipIndex && y !in result
                               ==> GetSimplePredictedValue(DieAt(remainingDice, x)) >= GetSimplePredictedValue(DieAt(remainingDice, y))
    {
      result := GetSortedDieRollIndexes(PredictedDescending, n, skipIndex);
    }

    /** `GetNHighestMissingPotentialDieRollIndexes`: sorted by missing potential, highest first. */
    method GetNHighestMissingPotentialDieRollIndexes(n: nat, skipIndex: int32) returns (result: seq<nat>)
      ensures forall x :: x in result ==> x < |remainingDice| && x != skipIndex
      ensures |result| == if n < |remainingDice| - (if 0 <= skipIndex < |remainingDice| then 1 else 0) then n
                           else |remainingDice| - (if 0 <= skipIndex < |remainingDice| then 1 else 0)
      ensures Distinct(result)
      ensures forall i, j :: 0 <= i < j < |result| ==>
                DieAt(remainingDice, result[i]).missingPotential >= DieAt(remainingDice, result[j]).missingPotential
      ensures forall x, y: nat :: x in result && y < |remainingDice| && y != skipIndex && y !in result
                               ==> DieAt(remainingDice, x).missingPotential >= DieAt(remainingDice, y).missingPotential
    {
      result := GetSortedDieRollIndexes(MissingPotentialDescending, n, skipIndex);
    }

    /** `GetFirstRemainingDiceIndexWithEffect`: the smallest unskipped index showing the effect, else -1. */
    method GetFirstRemainingDiceIndexWithEffect(diceEffect: DiceEffect, skipIndex: int32) returns (index: int)
      ensures index == -1 <==> forall i :: 0 <= i < |remainingDice| && i != skipIndex ==> remainingDice[i].diceEffect != diceEffect
      ensures index != -1 ==> (0 <= index < |remainingDice| && index != skipIndex
                               && remainingDice[index].diceEffect == diceEffect)
      ensures index != -1 ==> forall i :: 0 <= i < index && i != skipIndex ==> remainingDice[i].diceEffect != diceEffect
    {
      var i := 0;
      while i < |remainingDice|
        invariant 0 <= i <= |remainingDice|
        invariant forall j :: 0 <= j < i && j != skipIndex ==> remainingDice[j].diceEffect != diceEffect
      {
        if i != skipIndex && remainingDice[i].diceEffect == diceEffect {
          return i;
        }
        i := i + 1;
      }
      return -1;
    }

    /** `ResetCardsToDefault`: the four default cards, nothing else. */
    method ResetCardsToDefault()
      modifies this
      ensures allAvailableCards == DefaultCards
      ensures remainingDice == old(remainingDice)
    {
      allAvailableCards := DefaultCards;
    }

    /** `AddCardVariation`: ids 1 to 9 swap the last card for a level-2 card at the front; others change nothing. */
    method AddCardVariation(variationId: int32)
      requires IsVariationId(variationId) ==> 0 < |allAvailableCards|
      modifies this
      ensures allAvailableCards == WithVariation(old(allAvailableCards), variationId)
      ensures remainingDice == old(remainingDice)
    {
      if IsVariationId(variationId) {
        allAvailableCards := allAvailableCards[..|allAvailableCards| - 1];
        allAvailableCards := [VariationCard(variationId)] + allAvailableCards;
      }
    }

    function GetNumAllCards(): (count: nat)
      reads this
      ensures count == |allAvailableCards|
    {
      |allAvailableCards|
    }

    /** `GetCard`: the card at a non-negative index, or the invalid card past the end. */
    function GetCard(index: int32): (card: WPCard)
      requires 0 <= index
      reads this
      ensures index < |allAvailableCards| ==> card == allAvailableCards[index]
      ensures |allAvailableCards| <= index ==> card == InvalidCard && card.cardLevel == 0
    {
      if index < |allAvailableCards| then allAvailableCards[index] else InvalidCard
    }
  }
}
