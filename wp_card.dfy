/**
 * Worker-placement cards: a level, a name and a list of effects with
 * their magnitudes, looked up by effect.
 */
module WPCards {
  import opened FixedWidth

  datatype CardEffect =
    | PermanentDamage
    | PermanentHold
    | PermanentFlee
    | ForceDamage
    | TempSkill
    | TempBonusResult
    | RerollDice
    | ReplaceWithRandomEffectDice
    | ExtraEvaluate
    | Heal
    | SwapOpponentDice
    | StealVP
    | DrawCard

  datatype CardEffectAndMagnitude = CardEffectAndMagnitude(cardEffect: CardEffect, magnitude: int32)

  datatype WPCard = WPCard(cardLevel: int32, cardName: string, cardEffectsAndMagnitude: seq<CardEffectAndMagnitude>)

  /** The constructor stores the level, the name and the effect list as given. */
  function MakeCard(cardLevel: int32, cardName: string, effects: seq<CardEffectAndMagnitude>): (card: WPCard)
    ensures card.cardLevel == cardLevel && card.cardName == cardName && card.cardEffectsAndMagnitude == effects
  {
    WPCard(cardLevel, cardName, effects)
  }

  /** The card handed out for an index past the end of the card list. */
  const InvalidCard: WPCard := MakeCard(0, "Invalid", [])

  /** Position of the first pair carrying `effect` at or after `from`, or the list length if none does. */
  function FirstWithEffect(effects: seq<CardEffectAndMagnitude>, effect: CardEffect, from: nat): (i: nat)
    requires from <= |effects|
    ensures from <= i <= |effects|
    ensures i < |effects| ==> effects[i].cardEffect == effect
    ensures forall j :: from <= j < i ==> effects[j].cardEffect != effect
    decreases |effects| - from
  {
    if from == |effects| then |effects|
    else if effects[from].cardEffect == effect then from
    else FirstWithEffect(effects, effect, from + 1)
  }

  /**
   * `GetCardEffect`: true exactly when some pair carries the effect; then
   * the out-parameter is the first such pair's magnitude, otherwise it
   * keeps the value the caller passed in.
   */
  method GetCardEffect(card: WPCard, cardEffect: CardEffect, inMagnitude: int32)
    returns (found: bool, outMagnitude: int32)
    ensures found <==> exists j :: 0 <= j < |card.cardEffectsAndMagnitude|
                                   && card.cardEffectsAndMagnitude[j].cardEffect == cardEffect
    ensures found ==> outMagnitude == card.cardEffectsAndMagnitude[FirstWithEffect(card.cardEffectsAndMagnitude, cardEffect, 0)].magnitude
    ensures !found ==> outMagnitude == inMagnitude
  {
    var effects := card.cardEffectsAndMagnitude;
    var i := 0;
    while i < |effects|
      invariant 0 <= i <= |effects|
      invariant forall j :: 0 <= j < i ==> effects[j].cardEffect != cardEffect
    {
      if effects[i].cardEffect == cardEffect {
        assert FirstWithEffect(effects, cardEffect, 0) == i by {
          FirstWithEffectSkips(effects, cardEffect, 0, i);
        }
        return true, effects[i].magnitude;
      }
      i := i + 1;
    }
    return false, inMagnitude;
  }

  /** The search lands on the first match: a match at `i` with none before it is what it returns. */
  lemma {:induction false} FirstWithEffectSkips(effects: seq<CardEffectAndMagnitude>, effect: CardEffect, from: nat, i: nat)
    requires from <= i < |effects| && effects[i].cardEffect == effect
    requires forall j :: from <= j < i ==> effects[j].cardEffect != effect
    ensures FirstWithEffect(effects, effect, from) == i
    decreases i - from
  {
    if from < i {
      FirstWithEffectSkips(effects, effect, from + 1, i);
    }
  }

  /** The invalid card has level 0 and no effect, so every lookup on it fails. */
  lemma InvalidCardHasNoEffect(effect: CardEffect)
    ensures InvalidCard.cardLevel == 0
    ensures FirstWithEffect(InvalidCard.cardEffectsAndMagnitude, effect, 0) == |InvalidCard.cardEffectsAndMagnitude|
  {
  }
}
