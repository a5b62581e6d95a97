/** KYC tiers and their spending ceilings in minor units. */
module Kyc {
  datatype Limits = Limits(dailyMinor: int, monthlyMinor: int)

  /** Unknown levels get the strictest limits. */
  function LimitsFor(level: int): (r: Limits)
    ensures 20_000 <= r.dailyMinor <= 400_000
    ensures 100_000 <= r.monthlyMinor <= 4_000_000
    ensures r.dailyMinor <= r.monthlyMinor
  {
    match level
    case 1 => Limits(100_000, 1_000_000)
    case 2 => Limits(400_000, 4_000_000)
    case _ => Limits(20_000, 100_000)
  }

  /** An unknown level never grants more than any known one. */
  lemma UnknownIsStrictest(unknown: int, level: int)
    requires unknown !in {0, 1, 2}
    ensures LimitsFor(unknown).dailyMinor <= LimitsFor(level).dailyMinor
    ensures LimitsFor(unknown).monthlyMinor <= LimitsFor(level).monthlyMinor
  {
  }

  /** The tiers, in cents: 200 and 1,000 dollars without documents, 1,000 and 10,000 with
      an identity document, 4,000 and 40,000 with proof of address. Each level grants more
      than the ones below it. */
  lemma Tiers(lower: int, higher: int)
    requires lower in {0, 1, 2} && higher in {0, 1, 2} && lower < higher
    ensures LimitsFor(lower).dailyMinor < LimitsFor(higher).dailyMinor
    ensures LimitsFor(lower).monthlyMinor < LimitsFor(higher).monthlyMinor
    ensures LimitsFor(0) == Limits(200 * 100, 1_000 * 100) && LimitsFor(1) == Limits(1_000 * 100, 10_000 * 100)
    ensures LimitsFor(2) == Limits(4_000 * 100, 40_000 * 100)
  {
  }
}
