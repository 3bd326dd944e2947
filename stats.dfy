/**
 * The statistics collector: integer histograms keyed by a distribution id,
 * each remembering its smallest and largest value, its largest count and
 * the names of its two axes, beside a legacy single histogram that only
 * the clear operation touches.
 */
module StatsCounters {
  import opened FixedWidth

  datatype IntDistribution = IntDistribution(
    valueToAmount: map<int32, int32>,
    valueMin: int32,
    valueMax: int32,
    amountMax: int32,
    xName: string,
    yName: string)

  /** A distribution as `operator[]` default-constructs it: empty, minimum at `INT_MAX`, maximum and top count at 0. */
  const EmptyDistribution: IntDistribution := IntDistribution(map[], Int32Max, 0, 0, "", "")

  /** `distributions[id]`: the stored distribution, or a fresh empty one. */
  function DistributionAt(distributions: map<int32, IntDistribution>, id: int32): (d: IntDistribution)
    ensures id in distributions ==> d == distributions[id]
    ensures id !in distributions ==> d == EmptyDistribution
  {
    if id in distributions then distributions[id] else EmptyDistribution
  }

  /** The count stored for `value`; `try_emplace` creates a missing one at 0. */
  function AmountOf(d: IntDistribution, value: int32): (amount: int32)
    ensures value in d.valueToAmount ==> amount == d.valueToAmount[value]
    ensures value !in d.valueToAmount ==> amount == 0
  {
    if value in d.valueToAmount then d.valueToAmount[value] else 0
  }

  /** The updated count must still fit in the `int32_t` it is stored in (signed overflow is undefined). */
  predicate CanAdd(d: IntDistribution, value: int32, amount: int32)
  {
    InInt32(AmountOf(d, value) + amount)
  }

  /** The distribution after recording `amount` more occurrences of `value`. */
  function Added(d: IntDistribution, value: int32, amount: int32): (r: IntDistribution)
    requires CanAdd(d, value, amount)
    ensures value in r.valueToAmount && r.valueToAmount[value] == AmountOf(d, value) + amount
    ensures r.valueToAmount.Keys == d.valueToAmount.Keys + {value}
    ensures forall v :: v in d.valueToAmount && v != value ==> r.valueToAmount[v] == d.valueToAmount[v]
    ensures r.valueMin <= value <= r.valueMax
    ensures r.valueMin <= d.valueMin && d.valueMax <= r.valueMax
    ensures r.valueMin == d.valueMin || r.valueMin == value
    ensures r.valueMax == d.valueMax || r.valueMax == value
    ensures r.valueToAmount[value] <= r.amountMax && d.amountMax <= r.amountMax
    ensures r.amountMax == d.amountMax || r.amountMax == r.valueToAmount[value]
    ensures r.xName == d.xName && r.yName == d.yName
  {
    var count := AmountOf(d, value) + amount;
    d.(valueToAmount := d.valueToAmount[value := count],
       valueMin := if value < d.valueMin then value else d.valueMin,
       valueMax := if value > d.valueMax then value else d.valueMax,
       amountMax := if count > d.amountMax then count else d.amountMax)
  }

  /**
   * What the summary fields promise the printer: every recorded value lies
   * between the minimum and the maximum, no count exceeds the top count,
   * and the maximum, starting at 0 and only ever raised, is never negative.
   */
  predicate Summarizes(d: IntDistribution)
  {
    0 <= d.valueMax
    && forall v :: v in d.valueToAmount ==> d.valueMin <= v <= d.valueMax && d.valueToAmount[v] <= d.amountMax
  }

  lemma EmptyDistributionSummarizes()
    ensures Summarizes(EmptyDistribution)
  {
  }

  /** Recording occurrences keeps the summary fields true to the histogram. */
  lemma AddedSummarizes(d: IntDistribution, value: int32, amount: int32)
    requires Summarizes(d) && CanAdd(d, value, amount)
    ensures Summarizes(Added(d, value, amount))
  {
    var r := Added(d, value, amount);
    forall v | v in r.valueToAmount
      ensures r.valueMin <= v <= r.valueMax && r.valueToAmount[v] <= r.amountMax
    {
      if v != value {
        assert v in d.valueToAmount;
      }
    }
  }

  /** No count has reached `INT_MAX`, so one more occurrence of any value can be recorded. */
  predicate CountsBelowMax(d: IntDistribution)
  {
    forall v :: v in d.valueToAmount ==> d.valueToAmount[v] < Int32Max
  }

  lemma CountsBelowMaxCanAddOne(d: IntDistribution, value: int32)
    requires CountsBelowMax(d)
    ensures CanAdd(d, value, 1)
  {
  }

  class Stats {
    var intDistributions: map<int32, IntDistribution>
    var legacyDistribution: map<int32, int32>
    var legacyValueMin: int32
    var legacyValueMax: int32
    var legacyAmountMax: int32

    /** Every histogram keeps its summary fields true. */
    ghost predicate Valid()
      reads this
    {
      forall id :: id in intDistributions ==> Summarizes(intDistributions[id])
    }

    constructor ()
      ensures Valid()
      ensures intDistributions == map[] && legacyDistribution == map[]
      ensures legacyValueMin == Int32Max && legacyValueMax == 0 && legacyAmountMax == 0
    {
      intDistributions := map[];
      legacyDistribution := map[];
      legacyValueMin := Int32Max;
      legacyValueMax := 0;
      legacyAmountMax := 0;
    }

    /** `ClearIntDistribution`: only the legacy histogram and its summary are reset. */
    method ClearIntDistribution()
      modifies this
      ensures legacyDistribution == map[]
      ensures legacyValueMin == Int32Max && legacyValueMax == 0 && legacyAmountMax == 0
      ensures intDistributions == old(intDistributions)
    {
      legacyDistribution := map[];
      legacyValueMin := Int32Max;
      legacyValueMax := 0;
      legacyAmountMax := 0;
    }

    /** `AddToIntDistribution`: only the addressed distribution changes, by `Added`. */
    method AddToIntDistribution(distributionId: int32, value: int32, amount: int32 := 1)
      requires Valid()
      requires CanAdd(DistributionAt(intDistributions, distributionId), value, amount)
      modifies this
      ensures Valid()
      ensures intDistributions
              == old(intDistributions)[distributionId := Added(DistributionAt(old(intDistributions), distributionId), value, amount)]
      ensures legacyDistribution == old(legacyDistribution)
      ensures legacyValueMin == old(legacyValueMin) && legacyValueMax == old(legacyValueMax)
      ensures legacyAmountMax == old(legacyAmountMax)
    {
      var distribution := DistributionAt(intDistributions, distributionId);
      if distributionId !in intDistributions {
        EmptyDistributionSummarizes();
      }
      AddedSummarizes(distribution, value, amount);
      intDistributions := intDistributions[distributionId := Added(distribution, value, amount)];
    }

    /** `SetIntDistributionAxisNames`: only the two names of the addressed distribution change. */
    method SetIntDistributionAxisNames(distributionId: int32, xName: string, yName: string)
      requires Valid()
      modifies this
      ensures Valid()
      ensures intDistributions
              == old(intDistributions)[distributionId := DistributionAt(old(intDistributions), distributionId).(xName := xName, yName := yName)]
      ensures legacyDistribution == old(legacyDistribution)
      ensures legacyValueMin == old(legacyValueMin) && legacyValueMax == old(legacyValueMax)
      ensures legacyAmountMax == old(legacyAmountMax)
    {
      var distribution := DistributionAt(intDistributions, distributionId);
      intDistributions := intDistributions[distributionId := distribution.(xName := xName, yName := yName)];
    }
  }
}
