/**
 * A worker-placement challenge: a difficulty, a worker crew and the
 * execution resources they roll dice from. Executing it pairs the rolled
 * dice with the workers greedily, first without spending any card.
 */
module WPChallenges {
  import opened FixedWidth
  import opened WPResources
  import opened WPWorkers
  import opened StatsCounters

  datatype ChallengeResult = ChallengeResult(wins: int32, winningHold: int32, winningDamage: int32, winningFlee: int32)

  /** The combat stats a freshly constructed worker starts from. */
  const ZeroCombat: CombatStats := CombatStats(0, 0, 0, 0, 0, 0, 0, 0)

  // ---------------------------------------------------------------
  // Upgrading workers: which ones `TryUpgradeNWorkers` reaches
  // ---------------------------------------------------------------

  /** How many of the first `n` workers have type `t`. */
  function CountBefore(types: seq<WorkerType>, t: WorkerType, n: nat): nat
    requires n <= |types|
  {
    if n == 0 then 0 else CountBefore(types, t, n - 1) + (if types[n - 1] == t then 1 else 0)
  }

  /**
   * Worker `i` is upgraded when it has the source type and fewer than
   * `numWorkers` workers of that type come before it; with `numWorkers`
   * at most 0 the count never equals it, so every such worker is.
   */
  predicate Upgraded(types: seq<WorkerType>, i: nat, numWorkers: int, fromType: WorkerType)
    requires i < |types|
  {
    types[i] == fromType && (numWorkers <= 0 || CountBefore(types, fromType, i) < numWorkers)
  }

  /** How many of the first `n` workers are upgraded. */
  function CountUpgraded(types: seq<WorkerType>, numWorkers: int, fromType: WorkerType, n: nat): nat
    requires n <= |types|
  {
    if n == 0 then 0
    else CountUpgraded(types, numWorkers, fromType, n - 1) + (if Upgraded(types, n - 1, numWorkers, fromType) then 1 else 0)
  }

  lemma {:induction false} CountBeforeMonotone(types: seq<WorkerType>, t: WorkerType, a: nat, b: nat)
    requires a <= b <= |types|
    ensures CountBefore(types, t, a) <= CountBefore(types, t, b)
    decreases b
  {
    if a < b {
      CountBeforeMonotone(types, t, a, b - 1);
    }
  }

  /** Exactly `min(numWorkers, count)` workers are upgraded, or all of them when `numWorkers` is at most 0. */
  lemma {:induction false} UpgradeCount(types: seq<WorkerType>, numWorkers: int, fromType: WorkerType, n: nat)
    requires n <= |types|
    ensures var c := CountBefore(types, fromType, n);
            CountUpgraded(types, numWorkers, fromType, n) == if numWorkers <= 0 || c <= numWorkers then c else numWorkers
  {
    if n > 0 {
      UpgradeCount(types, numWorkers, fromType, n - 1);
    }
  }

  /** The upgraded workers are the first ones of the source type: none of that type before an upgraded one is skipped. */
  lemma UpgradedAreFirst(types: seq<WorkerType>, numWorkers: int, fromType: WorkerType, i: nat, j: nat)
    requires j < i < |types|
    requires Upgraded(types, i, numWorkers, fromType) && types[j] == fromType
    ensures Upgraded(types, j, numWorkers, fromType)
  {
    CountBeforeMonotone(types, fromType, j, i);
  }

  // ---------------------------------------------------------------
  // The cardless matching of `Execute`
  // ---------------------------------------------------------------

  /**
   * The position of the last worker skill below `j` that reaches the
   * difficulty together with `value`, or -1 when none does: the search
   * runs from the back, the worst workers first.
   */
  function LastFit(skills: seq<int>, value: int, difficulty: int, j: nat): (k: int)
    requires j <= |skills|
    ensures -1 <= k < j
    ensures 0 <= k ==> skills[k] + value >= difficulty
    ensures forall i :: k < i < j ==> skills[i] + value < difficulty
  {
    if j == 0 then -1
    else if skills[j - 1] + value >= difficulty then j - 1
    else LastFit(skills, value, difficulty, j - 1)
  }

  /** A die wins without cards when it reaches the difficulty alone or with some remaining worker. */
  predicate Matched(value: int, skills: seq<int>, difficulty: int)
  {
    value >= difficulty || LastFit(skills, value, difficulty, |skills|) >= 0
  }

  /** The worker skills left after one die: a die that wins alone takes the last entry, otherwise the last one that fits goes. */
  function Remaining(value: int, skills: seq<int>, difficulty: int): (r: seq<int>)
    requires |skills| > 0
    ensures |r| == |skills| - (if Matched(value, skills, difficulty) then 1 else 0)
    ensures multiset(r) <= multiset(skills)
  {
    if value >= difficulty then
      assert skills == skills[..|skills| - 1] + [skills[|skills| - 1]];
      skills[..|skills| - 1]
    else
      var k := LastFit(skills, value, difficulty, |skills|);
      if k >= 0 then
        assert skills == skills[..k] + [skills[k]] + skills[k + 1..];
        skills[..k] + skills[k + 1..]
      else skills
  }

  datatype Matching = Matching(wins: nat, unmatched: seq<int>, skillsLeft: seq<int>)

  /** The dice taken in order against a crew with at least as many skill entries as dice. */
  function Cardless(values: seq<int>, skills: seq<int>, difficulty: int): Matching
    requires |values| <= |skills|
    decreases |values|
  {
    if |values| == 0 then Matching(0, [], skills)
    else
      var v := values[0];
      var rest := Cardless(values[1..], Remaining(v, skills, difficulty), difficulty);
      if Matched(v, skills, difficulty) then Matching(rest.wins + 1, rest.unmatched, rest.skillsLeft)
      else Matching(rest.wins, [v] + rest.unmatched, rest.skillsLeft)
  }

  /** How many of the values reach the difficulty on their own. */
  function CountAtLeast(values: seq<int>, difficulty: int): nat
  {
    if |values| == 0 then 0 else (if values[0] >= difficulty then 1 else 0) + CountAtLeast(values[1..], difficulty)
  }

  /**
   * Every die either wins or is left unmatched, each win erases exactly
   * one skill entry, so the wins never exceed the dice (nor the workers),
   * and every die that reaches the difficulty alone wins.
   */
  lemma {:induction false} CardlessCounts(values: seq<int>, skills: seq<int>, difficulty: int)
    requires |values| <= |skills|
    ensures var m := Cardless(values, skills, difficulty);
            && m.wins + |m.unmatched| == |values|
            && m.wins + |m.skillsLeft| == |skills|
            && m.wins <= |values|
            && CountAtLeast(values, difficulty) <= m.wins
    decreases |values|
  {
    if |values| > 0 {
      CardlessCounts(values[1..], Remaining(values[0], skills, difficulty), difficulty);
    }
  }

  /** The leftover skill entries come from the crew's. */
  lemma {:induction false} CardlessSkillsLeft(values: seq<int>, skills: seq<int>, difficulty: int)
    requires |values| <= |skills|
    ensures multiset(Cardless(values, skills, difficulty).skillsLeft) <= multiset(skills)
    decreases |values|
  {
    if |values| > 0 {
      var s := Remaining(values[0], skills, difficulty);
      CardlessSkillsLeft(values[1..], s, difficulty);
      assert Cardless(values, skills, difficulty).skillsLeft == Cardless(values[1..], s, difficulty).skillsLeft;
    }
  }

  /** The unmatched dice come from the dice rolled. */
  lemma {:induction false} CardlessUnmatched(values: seq<int>, skills: seq<int>, difficulty: int)
    requires |values| <= |skills|
    ensures multiset(Cardless(values, skills, difficulty).unmatched) <= multiset(values)
    decreases |values|
  {
    if |values| > 0 {
      var v, s := values[0], Remaining(values[0], skills, difficulty);
      CardlessUnmatched(values[1..], s, difficulty);
      var rest := Cardless(values[1..], s, difficulty).unmatched;
      var m := Cardless(values, skills, difficulty).unmatched;
      assert multiset(values) == multiset{v} + multiset(values[1..]) by {
        assert values == [v] + values[1..];
      }
      if Matched(v, skills, difficulty) {
        assert m == rest;
      } else {
        assert m == [v] + rest;
        assert multiset(m) == multiset{v} + multiset(rest);
      }
    }
  }

  /**
   * Every unmatched die is below the difficulty, and none of them could
   * still be paired with a leftover worker without a card: the greedy pass
   * leaves no cardless match behind.
   */
  lemma {:induction false} CardlessMissesNothing(values: seq<int>, skills: seq<int>, difficulty: int)
    requires |values| <= |skills|
    ensures var m := Cardless(values, skills, difficulty);
            && (forall j :: 0 <= j < |m.unmatched| ==> m.unmatched[j] < difficulty)
            && (forall j, k :: 0 <= j < |m.unmatched| && 0 <= k < |m.skillsLeft| ==> m.unmatched[j] + m.skillsLeft[k] < difficulty)
    decreases |values|
  {
    if |values| > 0 {
      var v := values[0];
      CardlessMissesNothing(values[1..], Remaining(v, skills, difficulty), difficulty);
      var s := Remaining(v, skills, difficulty);
      var m := Cardless(values, skills, difficulty);
      var rest := Cardless(values[1..], s, difficulty);
      if Matched(v, skills, difficulty) {
        assert m.unmatched == rest.unmatched && m.skillsLeft == rest.skillsLeft;
      } else {
        assert s == skills;
        assert m.unmatched == [v] + rest.unmatched && m.skillsLeft == rest.skillsLeft;
        CardlessSkillsLeft(values[1..], skills, difficulty);
        NoFitInLeftovers(v, skills, m.skillsLeft, difficulty);
        forall j, k | 0 <= j < |m.unmatched| && 0 <= k < |m.skillsLeft|
          ensures m.unmatched[j] + m.skillsLeft[k] < difficulty
        {
          if j > 0 {
            assert m.unmatched[j] == rest.unmatched[j - 1];
          }
        }
      }
    }
  }

  /** A die no worker fits still fits none of any sub-crew. */
  lemma NoFitInLeftovers(value: int, skills: seq<int>, left: seq<int>, difficulty: int)
    requires LastFit(skills, value, difficulty, |skills|) == -1
    requires multiset(left) <= multiset(skills)
    ensures forall k :: 0 <= k < |left| ==> value + left[k] < difficulty
  {
    forall k | 0 <= k < |left|
      ensures value + left[k] < difficulty
    {
      assert left[k] in multiset(skills);
      var i :| 0 <= i < |skills| && skills[i] == left[k];
    }
  }

  /** The first `n` skill entries, each cut to tenths with C++'s truncating division. */
  ghost predicate SkillTenths(workers: seq<WPWorker>, skills: seq<int>)
    reads set w | w in workers
  {
    |skills| <= |workers| && forall i :: 0 <= i < |skills| ==> skills[i] == TruncDiv(workers[i].combat.skill, 10)
  }

  /** A worker as `ResetWorkers` makes it: the in-class defaults with the Basic stats row. */
  ghost predicate IsDefaultBasic(w: WPWorker)
    reads w
  {
    && w.workerType == Basic && w.combat == StatRow(Basic, ZeroCombat)
    && w.arbitraryCardVariation == 0 && w.vp == 100 && w.totalRolls == 0 && w.totalRollValues == 0
    && w.currentDeckIndices == [] && w.currentHandIndices == []
    && w.round == RoundStats(0, [], 0, 0, 0, false, 0) && w.opponent == null
  }

  /**
   * A worker after the upgrade pass: an upgraded one has the new type and
   * that type's stats row, any other keeps both.
   */
  twostate predicate UpgradedTo(w: WPWorker, upgraded: bool, toType: WorkerType)
    reads w
  {
    UpgradedFrom(w, upgraded, toType, old(w.workerType), old(w.combat))
  }

  /** The inner search of the cardless phase: from the back, the last skill entry that reaches the difficulty with `value`. */
  method FindLastFit(skills: seq<int>, value: int, difficulty: int) returns (k: int)
    ensures k == LastFit(skills, value, difficulty, |skills|)
  {
    var workerIt := |skills|;
    while workerIt > 0
      invariant 0 <= workerIt <= |skills|
      invariant LastFit(skills, value, difficulty, |skills|) == LastFit(skills, value, difficulty, workerIt)
    {
      if skills[workerIt - 1] + value >= difficulty {
        return workerIt - 1;
      }
      workerIt := workerIt - 1;
    }
    return -1;
  }

  /** One die of the cardless phase: whether it wins, and the skill entries left after it. */
  method MatchOne(dieRollValue: int, skills: seq<int>, difficulty: int) returns (won: bool, skillsLeft: seq<int>)
    requires |skills| > 0
    ensures won == Matched(dieRollValue, skills, difficulty)
    ensures skillsLeft == Remaining(dieRollValue, skills, difficulty)
  {
    if dieRollValue >= difficulty {
      return true, skills[..|skills| - 1];
    }
    var k := FindLastFit(skills, dieRollValue, difficulty);
    if k >= 0 {
      return true, skills[..k] + skills[k + 1..];
    }
    return false, skills;
  }

  /** The cardless phase of `Execute` on the die values and worker skills it collected. */
  method MatchWithoutCards(dieValues: seq<int>, workerSkill: seq<int>, difficulty: int)
    returns (wins: nat, unmatched: seq<int>, skillsLeft: seq<int>)
    requires |dieValues| <= |workerSkill|
    ensures Matching(wins, unmatched, skillsLeft) == Cardless(dieValues, workerSkill, difficulty)
  {
    ghost var goal := Cardless(dieValues, workerSkill, difficulty);
    wins, unmatched, skillsLeft := 0, [], workerSkill;
    var i := 0;
    while i < |dieValues|
      invariant 0 <= i <= |dieValues|
      invariant |dieValues| - i <= |skillsLeft|
      invariant var rest := Cardless(dieValues[i..], skillsLeft, difficulty);
                goal == Matching(wins + rest.wins, unmatched + rest.unmatched, rest.skillsLeft)
    {
      var dieRollValue := dieValues[i];
      ghost var rest := Cardless(dieValues[i..], skillsLeft, difficulty);
      var won, left := MatchOne(dieRollValue, skillsLeft, difficulty);
      assert dieValues[i..][1..] == dieValues[i + 1..];
      ghost var next := Cardless(dieValues[i + 1..], left, difficulty);
      if won {
        assert rest == Matching(next.wins + 1, next.unmatched, next.skillsLeft);
        wins := wins + 1;
      } else {
        assert rest == Matching(next.wins, [dieRollValue] + next.unmatched, next.skillsLeft);
        assert unmatched + ([dieRollValue] + next.unmatched) == (unmatched + [dieRollValue]) + next.unmatched;
        unmatched := unmatched + [dieRollValue];
      }
      skillsLeft := left;
      i := i + 1;
    }
  }

  /** The values shown by the first `n` dice, in die order. */
  method FirstDieValues(dice: seq<DieRoll>, n: nat) returns (values: seq<int>)
    requires n <= |dice|
    ensures |values| == n && forall i :: 0 <= i < n ==> values[i] == dice[i].value
  {
    values := [];
    var dieIndex := 0;
    while dieIndex < n
      invariant 0 <= dieIndex <= n
      invariant |values| == dieIndex && forall i :: 0 <= i < dieIndex ==> values[i] == dice[i].value
    {
      values := values + [DieAt(dice, dieIndex).value];
      dieIndex := dieIndex + 1;
    }
  }

  class WPChallenge {
    const executionResources: WPExecutionResources
    const rng: RNG
    const stats: Stats?
    var workers: seq<WPWorker>
    var challengeDifficulty: int32

    /** The crew is a vector of workers, so no worker appears twice. */
    ghost predicate Valid()
      reads this
    {
      && executionResources.rng == rng
      && forall i, j :: 0 <= i < j < |workers| ==> workers[i] != workers[j]
    }

    /** The constructor builds its own execution resources on the shared generator; the crew is empty and the difficulty 0. */
    constructor (rng: RNG, stats: Stats?)
      ensures Valid()
      ensures this.rng == rng && this.stats == stats
      ensures fresh(executionResources) && executionResources.rng == rng
      ensures executionResources.remainingDice == [] && executionResources.allAvailableCards == []
      ensures workers == [] && challengeDifficulty == 0
    {
      executionResources := new WPExecutionResources(rng);
      this.rng := rng;
      this.stats := stats;
      workers := [];
      challengeDifficulty := 0;
    }

    /**
     * The cardless phase of `Execute`: one die of each type is rolled, the
     * first `min(dice, workers)` die values (in die order, not the order
     * of the best-die query) meet the skills of as many workers, and the
     * greedy matching decides the wins, never more than that minimum.
     */
    method Execute() returns (result: ChallengeResult, ghost dieValues: seq<int>, ghost workerSkill: seq<int>)
      requires Valid()
      modifies executionResources, rng
      ensures executionResources.remainingDice == RolledDice(1, rng.randomNumber, old(rng.drawCount))
      ensures rng.drawCount == old(rng.drawCount) + 4
      ensures executionResources.allAvailableCards == old(executionResources.allAvailableCards)
      ensures |dieValues| == (if |workers| < 4 then |workers| else 4) == |workerSkill|
      ensures forall i :: 0 <= i < |dieValues| ==> dieValues[i] == executionResources.remainingDice[i].value
      ensures SkillTenths(workers, workerSkill)
      ensures result.wins == Cardless(dieValues, workerSkill, challengeDifficulty).wins <= |dieValues|
      ensures result.winningHold == 0 && result.winningDamage == 0 && result.winningFlee == 0
    {
      executionResources.RollNOfEachDie(1);
      var numDice := executionResources.GetNumRemainingDice();
      var maxWins := if numDice < |workers| then numDice else |workers|;
      var bestDieRollIndexes := executionResources.GetNBestDieRollIndexes(maxWins, -1);
      var values := FirstDieValues(executionResources.remainingDice, maxWins);
      var skills := WorkerSkillTenths(maxWins);
      var wins, unmatched, skillsLeft := MatchWithoutCards(values, skills, challengeDifficulty);
      CardlessCounts(values, skills, challengeDifficulty);
      result := ChallengeResult(wins, 0, 0, 0);
      dieValues, workerSkill := values, skills;
    }

    /** Each of the first `n` workers' skill, in tenths. */
    method WorkerSkillTenths(n: nat) returns (skills: seq<int>)
      requires n <= |workers|
      ensures |skills| == n && SkillTenths(workers, skills)
    {
      skills := [];
      var workerIndex := 0;
      while workerIndex < n
        invariant 0 <= workerIndex <= n
        invariant |skills| == workerIndex && SkillTenths(workers, skills)
      {
        skills := skills + [TruncDiv(workers[workerIndex].combat.skill, 10)];
        workerIndex := workerIndex + 1;
      }
    }

    /** `SetupChallengeToRoundDefaults`: difficulty 6 plus half the rounds before this one, three workers of which the first is Trained, and the default cards. */
    method SetupChallengeToRoundDefaults(roundNumber: int32)
      requires Int32Min < roundNumber
      requires Valid()
      modifies this, executionResources
      ensures Valid()
      ensures challengeDifficulty == 6 + TruncDiv(roundNumber - 1, 2)
      ensures |workers| == 3
      ensures workers[0].workerType == Trained && workers[0].combat == StatRow(Trained, ZeroCombat)
      ensures IsDefaultBasic(workers[1]) && IsDefaultBasic(workers[2])
      ensures executionResources.allAvailableCards == DefaultCards
      ensures executionResources.remainingDice == old(executionResources.remainingDice)
    {
      challengeDifficulty := 6 + TruncDiv(roundNumber - 1, 2);
      ResetWorkers(3);
      ghost var types, flags := TryUpgradeNWorkers(1, Basic, Trained);
      assert types == [Basic, Basic, Basic];
      assert CountBefore(types, Basic, 1) == 1;
      assert CountBefore(types, Basic, 2) == 2;
      executionResources.ResetCardsToDefault();
    }

    /** `ResetWorkers`: the crew becomes `numWorkers` new Basic workers on the challenge's generator, resources and statistics. */
    method ResetWorkers(numWorkers: int32)
      requires Valid()
      modifies this
      ensures Valid()
      ensures |workers| == if numWorkers < 0 then 0 else numWorkers
      ensures forall i :: 0 <= i < |workers| ==> fresh(workers[i]) && IsDefaultBasic(workers[i])
      ensures forall i :: 0 <= i < |workers| ==>
                workers[i].rng == rng && workers[i].executionResources == executionResources && workers[i].stats == stats
      ensures challengeDifficulty == old(challengeDifficulty)
    {
      workers := [];
      var workerIndex := 0;
      while workerIndex < numWorkers
        invariant 0 <= workerIndex <= (if numWorkers < 0 then 0 else numWorkers) && |workers| == workerIndex
        invariant Valid()
        invariant forall i :: 0 <= i < |workers| ==> fresh(workers[i]) && IsDefaultBasic(workers[i])
        invariant forall i :: 0 <= i < |workers| ==>
                    workers[i].rng == rng && workers[i].executionResources == executionResources && workers[i].stats == stats
        invariant challengeDifficulty == old(challengeDifficulty)
      {
        var worker := new WPWorker(rng, executionResources, stats);
        worker.SetupStatsFromWorkerType();
        workers := workers + [worker];
        workerIndex := workerIndex + 1;
      }
    }

    /**
     * `TryUpgradeNWorkers`: in crew order, workers of `fromType` become
     * `toType` with that type's stats until `numWorkers` have been
     * upgraded. Only types and combat stats may change.
     */
    method TryUpgradeNWorkers(numWorkers: int32, fromType: WorkerType, toType: WorkerType) returns (ghost types: seq<WorkerType>, ghost flags: seq<bool>)
      requires Valid()
      modifies workers`workerType, workers`combat
      ensures workers == old(workers) && Valid()
      ensures |types| == |workers| && forall i :: 0 <= i < |workers| ==> types[i] == old(workers[i].workerType)
      ensures |flags| == |workers| && forall i :: 0 <= i < |workers| ==> flags[i] == Upgraded(types, i, numWorkers, fromType)
      ensures forall i :: 0 <= i < |workers| ==> UpgradedTo(workers[i], flags[i], toType)
    {
      types := CrewTypes(workers);
      flags := UpgradeFlags(types, numWorkers, fromType);
      UpgradeCrew(workers, types, flags, numWorkers, fromType, toType);
    }
  }

  /** `TryUpgradeNWorkers` over a crew in which no worker appears twice. */
  method UpgradeCrew(crew: seq<WPWorker>, ghost types: seq<WorkerType>, ghost flags: seq<bool>,
                     numWorkers: int32, fromType: WorkerType, toType: WorkerType)
    requires forall i, j :: 0 <= i < j < |crew| ==> crew[i] != crew[j]
    requires |types| == |crew| && forall i :: 0 <= i < |crew| ==> types[i] == crew[i].workerType
    requires flags == UpgradeFlags(types, numWorkers, fromType)
    modifies crew`workerType, crew`combat
    ensures forall i :: 0 <= i < |crew| ==> UpgradedTo(crew[i], flags[i], toType)
  {
    ghost var combats := CrewCombats(crew);
    UpgradePass(crew, types, combats, flags, numWorkers, fromType, toType);
    forall j | 0 <= j < |crew| ensures UpgradedTo(crew[j], flags[j], toType) {
      assert UpgradedFrom(crew[j], flags[j], toType, types[j], combats[j]);
      assert types[j] == old(crew[j].workerType) && combats[j] == old(crew[j].combat);
    }
  }

  /** The loop of `TryUpgradeNWorkers`, against the types and combat stats the crew starts with. */
  method UpgradePass(crew: seq<WPWorker>, ghost types: seq<WorkerType>, ghost combats: seq<CombatStats>,
                     ghost flags: seq<bool>, numWorkers: int32, fromType: WorkerType, toType: WorkerType)
    requires forall i, j :: 0 <= i < j < |crew| ==> crew[i] != crew[j]
    requires |types| == |crew| && forall i :: 0 <= i < |crew| ==> types[i] == crew[i].workerType
    requires |combats| == |crew| && forall i :: 0 <= i < |crew| ==> combats[i] == crew[i].combat
    requires flags == UpgradeFlags(types, numWorkers, fromType)
    modifies crew`workerType, crew`combat
    ensures forall j {:trigger UpgradedFrom(crew[j], flags[j], toType, types[j], combats[j])} ::
              0 <= j < |crew| ==> UpgradedFrom(crew[j], flags[j], toType, types[j], combats[j])
  {
    var workersUpgraded := 0;
    var i := 0;
    while i < |crew|
      invariant 0 <= i <= |crew|
      invariant workersUpgraded == CountBefore(types, fromType, i)
      invariant numWorkers > 0 ==> workersUpgraded < numWorkers
      invariant forall j :: i <= j < |crew| ==> crew[j].workerType == types[j] && crew[j].combat == combats[j]
      invariant forall j {:trigger UpgradedFrom(crew[j], flags[j], toType, types[j], combats[j])} ::
                  0 <= j < i ==> UpgradedFrom(crew[j], flags[j], toType, types[j], combats[j])
    {
      if crew[i].workerType == fromType {
        assert flags[i];
        UpgradeAt(crew, i, toType);
        workersUpgraded := workersUpgraded + 1;
        if workersUpgraded == numWorkers {
          StoppedAfter(crew, flags, toType, types, combats, numWorkers as int, fromType, i);
          return;
        }
      }
      i := i + 1;
    }
  }

  /** The pass stopped at worker `i`, the last one it upgraded: no later worker is reached. */
  lemma StoppedAfter(crew: seq<WPWorker>, flags: seq<bool>, toType: WorkerType,
                     types: seq<WorkerType>, combats: seq<CombatStats>,
                     numWorkers: int, fromType: WorkerType, i: nat)
    requires |types| == |crew| && |combats| == |crew| && i < |crew|
    requires flags == UpgradeFlags(types, numWorkers, fromType)
    requires numWorkers > 0 && CountBefore(types, fromType, i + 1) == numWorkers
    requires forall j {:trigger UpgradedFrom(crew[j], flags[j], toType, types[j], combats[j])} ::
               0 <= j <= i ==> UpgradedFrom(crew[j], flags[j], toType, types[j], combats[j])
    requires forall j :: i < j < |crew| ==> crew[j].workerType == types[j] && crew[j].combat == combats[j]
    ensures forall j {:trigger UpgradedFrom(crew[j], flags[j], toType, types[j], combats[j])} ::
              0 <= j < |crew| ==> UpgradedFrom(crew[j], flags[j], toType, types[j], combats[j])
  {
    forall j | i < j < |crew| ensures UpgradedFrom(crew[j], flags[j], toType, types[j], combats[j]) {
      CountBeforeMonotone(types, fromType, i + 1, j);
    }
  }

  /** `UpgradeWorker` on the crew's worker `i`; every other worker keeps its type and stats. */
  method UpgradeAt(crew: seq<WPWorker>, i: nat, toType: WorkerType)
    requires i < |crew| && forall a, b :: 0 <= a < b < |crew| ==> crew[a] != crew[b]
    modifies {crew[i]}`workerType, {crew[i]}`combat
    ensures crew[i].workerType == toType && crew[i].combat == StatRow(toType, old(crew[i].combat))
    ensures forall j :: 0 <= j < |crew| && j != i ==> crew[j].workerType == old(crew[j].workerType) && crew[j].combat == old(crew[j].combat)
  {
    var worker := crew[i];
    assert forall j :: 0 <= j < |crew| && j != i ==> crew[j] != worker;
    UpgradeWorker(worker, toType);
  }

  /** The combat stats of each worker of the crew, in crew order. */
  ghost function CrewCombats(crew: seq<WPWorker>): (combats: seq<CombatStats>)
    reads crew
    ensures |combats| == |crew| && forall j :: 0 <= j < |crew| ==> combats[j] == crew[j].combat
  {
    if |crew| == 0 then [] else CrewCombats(crew[..|crew| - 1]) + [crew[|crew| - 1].combat]
  }

  /** `UpgradedTo`, against the type and the stats the worker had before. */
  ghost predicate UpgradedFrom(w: WPWorker, upgraded: bool, toType: WorkerType, oldType: WorkerType, oldCombat: CombatStats)
    reads w
  {
    if upgraded then w.workerType == toType && w.combat == StatRow(toType, oldCombat)
    else w.workerType == oldType && w.combat == oldCombat
  }

  /** One upgrade: the new type, then that type's stats row. */
  method UpgradeWorker(worker: WPWorker, toType: WorkerType)
    modifies worker`workerType, worker`combat
    ensures UpgradedTo(worker, true, toType)
  {
    worker.SetWorkerType(toType);
    worker.SetupStatsFromWorkerType();
  }

  /** The type of each worker of the crew, in crew order. */
  ghost method CrewTypes(crew: seq<WPWorker>) returns (types: seq<WorkerType>)
    ensures |types| == |crew| && forall j :: 0 <= j < |crew| ==> types[j] == crew[j].workerType
  {
    types := [];
    var i := 0;
    while i < |crew|
      invariant 0 <= i <= |crew|
      invariant |types| == i && forall j :: 0 <= j < i ==> types[j] == crew[j].workerType
    {
      types := types + [crew[i].workerType];
      i := i + 1;
    }
  }

  /** For each worker, whether the upgrade pass reaches it. */
  function UpgradeFlags(types: seq<WorkerType>, numWorkers: int, fromType: WorkerType): (flags: seq<bool>)
    ensures |flags| == |types| && forall j :: 0 <= j < |types| ==> flags[j] == Upgraded(types, j, numWorkers, fromType)
  {
    seq(|types|, j requires 0 <= j < |types| => Upgraded(types, j, numWorkers, fromType))
  }
}
