/**
  Model of `ComputeMAPFunding` (internal/incentives/map.go): the ARR is
  placed in the first tier whose limit it does not exceed, falling through
  to ">300k", and the funding cap is 10% of the ARR on every path.
 */
module Funding {

  datatype TierEntry = TierEntry(limit: real, tier: string)

  /** The tier table, in ascending order of limit. */
  const Tiers: seq<TierEntry> := [
    TierEntry(100000.0, "100k"),
    TierEntry(150000.0, "150k"),
    TierEntry(300000.0, "300k")
  ]

  const TopTier: string := ">300k"
  const CapPercent: real := 0.10

  /** The fields of the funding plan this function fills. */
  datatype TierPlan = TierPlan(arr: real, tier: string, capAmount: real, capPercent: real)

  /** Position of the first tier whose limit is at least `arr`, or `|Tiers|` when none is. */
  function TierIndex(arr: real): (k: nat)
    ensures k <= |Tiers|
    ensures forall j :: 0 <= j < k ==> arr > Tiers[j].limit
    ensures k < |Tiers| ==> arr <= Tiers[k].limit
  {
    FirstAtLeast(Tiers, arr)
  }

  function FirstAtLeast(ts: seq<TierEntry>, arr: real): (k: nat)
    ensures k <= |ts|
    ensures forall j :: 0 <= j < k ==> arr > ts[j].limit
    ensures k < |ts| ==> arr <= ts[k].limit
  {
    if |ts| == 0 then 0
    else if arr <= ts[0].limit then 0
    else 1 + FirstAtLeast(ts[1..], arr)
  }

  /** `ComputeMAPFunding`: the scan over the table, then the fall-through. */
  function ComputeMAPFunding(arr: real): (plan: TierPlan)
    ensures plan.arr == arr && plan.capPercent == CapPercent
    ensures plan.capAmount == arr * CapPercent
    ensures plan.tier == (if TierIndex(arr) < |Tiers| then Tiers[TierIndex(arr)].tier else TopTier)
  {
    Scan(Tiers, arr)
  }

  function Scan(ts: seq<TierEntry>, arr: real): (plan: TierPlan)
    ensures plan.arr == arr && plan.capPercent == CapPercent
    ensures plan.capAmount == arr * CapPercent
    ensures plan.tier == (if FirstAtLeast(ts, arr) < |ts| then ts[FirstAtLeast(ts, arr)].tier else TopTier)
  {
    if |ts| == 0 then TierPlan(arr, TopTier, arr * CapPercent, CapPercent)
    else if arr <= ts[0].limit then TierPlan(arr, ts[0].tier, arr * CapPercent, CapPercent)
    else Scan(ts[1..], arr)
  }

  /** Tier limits are inclusive and the tiers partition the real line. */
  lemma TierBands(arr: real)
    ensures ComputeMAPFunding(arr).tier == "100k" <==> arr <= 100000.0
    ensures ComputeMAPFunding(arr).tier == "150k" <==> 100000.0 < arr <= 150000.0
    ensures ComputeMAPFunding(arr).tier == "300k" <==> 150000.0 < arr <= 300000.0
    ensures ComputeMAPFunding(arr).tier == TopTier <==> arr > 300000.0
  {
    var k := TierIndex(arr);
    if k == 0 {
    } else if k == 1 {
      assert arr > Tiers[0].limit;
    } else if k == 2 {
      assert arr > Tiers[0].limit && arr > Tiers[1].limit;
    } else {
      assert arr > Tiers[0].limit && arr > Tiers[1].limit && arr > Tiers[2].limit;
    }
  }

  /** A larger ARR never lands in an earlier tier. */
  lemma TierMonotone(a: real, b: real)
    requires a <= b
    ensures TierIndex(a) <= TierIndex(b)
  {
    FirstAtLeastMonotone(Tiers, a, b);
  }

  lemma {:induction false} FirstAtLeastMonotone(ts: seq<TierEntry>, a: real, b: real)
    requires a <= b
    ensures FirstAtLeast(ts, a) <= FirstAtLeast(ts, b)
  {
    if |ts| > 0 && b > ts[0].limit {
      FirstAtLeastMonotone(ts[1..], a, b);
    }
  }

  /** The package's test cases: exactly 100,000 is "100k" with a 10,000 cap; 350,000 is ">300k". */
  lemma ComputeMAPFundingExamples()
    ensures ComputeMAPFunding(100000.0).tier == "100k"
    ensures ComputeMAPFunding(100000.0).capAmount == 10000.0
    ensures ComputeMAPFunding(350000.0).tier == ">300k"
  {
    TierBands(100000.0);
    TierBands(350000.0);
  }
}
