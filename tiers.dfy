/**
  The commercial tier of a customer, classified by employee count. The tier is
  informational: the timeline does not read it.
 */
module Tiers {

  datatype TierInfo = TierInfo(tier: string, package: string, moduleCheckIns: nat)

  const SmallBiz := TierInfo("Small Biz", "ClearCare Pro", 0)
  const MidMarket := TierInfo("Mid Market", "ClearCare Advanced", 4)
  const Enterprise := TierInfo("Enterprise", "ClearCare Max", 6)

  /**
    First-match classification at the breakpoints 200 and 1000. Exactly one of
    the three tiers applies to every employee count.
   */
  function ClassifyTier(employeeCount: nat): (r: TierInfo)
    ensures r == SmallBiz <==> employeeCount <= 200
    ensures r == MidMarket <==> 200 < employeeCount <= 1000
    ensures r == Enterprise <==> 1000 < employeeCount
  {
    if employeeCount <= 200 then SmallBiz
    else if employeeCount <= 1000 then MidMarket
    else Enterprise
  }

  /** A larger company never gets fewer check-ins per module. */
  lemma CheckInsMonotone(a: nat, b: nat)
    requires a <= b
    ensures ClassifyTier(a).moduleCheckIns <= ClassifyTier(b).moduleCheckIns
  {
  }

  /** The classification at both sides of each breakpoint. */
  lemma TierBoundaries()
    ensures ClassifyTier(200).tier == "Small Biz" && ClassifyTier(201).tier == "Mid Market"
    ensures ClassifyTier(1000).tier == "Mid Market" && ClassifyTier(1001).tier == "Enterprise"
  {
  }
}
