/** The hourly price of a stretch of usage, rounded up to the cent and capped by the month. */
module Pricing {
  import opened Arithmetic

  const I32_MAX: int := 0x7FFF_FFFF
  const I32_MIN: int := -0x8000_0000

  datatype PlanTemplate = PlanTemplate(monthlyCents: int, hourlyCents: int)

  /** Prices as the columns hold them: 32-bit, and not negative. */
  ghost predicate Sensible(plan: PlanTemplate) {
    0 <= plan.monthlyCents <= I32_MAX && 0 <= plan.hourlyCents <= I32_MAX
  }

  function CeilDiv(n: int, d: int): int
    requires 0 < d
  {
    -(-n / d)
  }

  // A float cast to i32 sticks at the ends of the range.
  function SaturateI32(n: int): int {
    if n < I32_MIN then I32_MIN else if I32_MAX < n then I32_MAX else n
  }

  /** Whole cents for `seconds` of usage, hours kept as the exact fraction seconds / 3600. */
  function Charge(seconds: int, plan: PlanTemplate): int {
    Min(SaturateI32(CeilDiv(seconds * plan.hourlyCents, 3600)), plan.monthlyCents)
  }

  lemma CeilDivIsLeast(n: int, cents: int)
    ensures CeilDiv(n, 3600) <= cents <==> n <= cents * 3600
  {
  }

  lemma ProductNonNegative(x: int, y: int)
    requires 0 <= x && 0 <= y
    ensures 0 <= x * y
  {
  }

  lemma ProductMonotone(x: int, y: int, z: int)
    requires x <= y && 0 <= z
    ensures x * z <= y * z
  {
  }

  /** What the charge is: the least number of cents that covers the exact hourly price, or the
      monthly price where that is less; the cast to 32 bits never shows. */
  lemma ChargeIsLeastCover(seconds: int, plan: PlanTemplate, cents: int)
    requires 0 <= seconds && Sensible(plan)
    ensures Charge(seconds, plan) <= cents
            <==> seconds * plan.hourlyCents <= cents * 3600 || plan.monthlyCents <= cents
  {
    ProductNonNegative(seconds, plan.hourlyCents);
    CeilDivIsLeast(seconds * plan.hourlyCents, cents);
  }

  /** Never above the cap, and uncapped never a full cent above the exact price. */
  lemma ChargeBounds(seconds: int, plan: PlanTemplate)
    requires 0 <= seconds && Sensible(plan)
    ensures 0 <= Charge(seconds, plan) <= plan.monthlyCents
    ensures Charge(seconds, plan) * 3600 < seconds * plan.hourlyCents + 3600
    ensures Charge(seconds, plan) < plan.monthlyCents ==> seconds * plan.hourlyCents <= Charge(seconds, plan) * 3600
  {
    ProductNonNegative(seconds, plan.hourlyCents);
    ChargeIsLeastCover(seconds, plan, -1);
    ChargeIsLeastCover(seconds, plan, Charge(seconds, plan));
    ChargeIsLeastCover(seconds, plan, Charge(seconds, plan) - 1);
  }

  /** More usage never costs less. */
  lemma ChargeIsMonotone(fewer: int, more: int, plan: PlanTemplate)
    requires 0 <= fewer <= more && Sensible(plan)
    ensures Charge(fewer, plan) <= Charge(more, plan)
  {
    ProductMonotone(fewer, more, plan.hourlyCents);
    ChargeIsLeastCover(fewer, plan, Charge(more, plan));
    ChargeIsLeastCover(more, plan, Charge(more, plan));
  }

  /** Splitting a stretch in two never makes it cheaper. */
  lemma ChargeIsSubadditive(x: int, y: int, plan: PlanTemplate)
    requires 0 <= x && 0 <= y && Sensible(plan)
    ensures Charge(x + y, plan) <= Charge(x, plan) + Charge(y, plan)
  {
    var both := Charge(x, plan) + Charge(y, plan);
    ChargeIsLeastCover(x, plan, Charge(x, plan));
    ChargeIsLeastCover(y, plan, Charge(y, plan));
    ChargeBounds(x, plan);
    ChargeBounds(y, plan);
    Distribute(x, y, plan.hourlyCents);
    ChargeIsLeastCover(x + y, plan, both);
  }

  function Sum(numbers: seq<int>): int {
    if numbers == [] then 0 else numbers[0] + Sum(numbers[1..])
  }

  function SumOfCharges(pieces: seq<int>, plan: PlanTemplate): int {
    if pieces == [] then 0 else Charge(pieces[0], plan) + SumOfCharges(pieces[1..], plan)
  }

  /** Nor does splitting it into any number of pieces. */
  lemma {:induction false} SplittingNeverSaves(pieces: seq<int>, plan: PlanTemplate)
    requires Sensible(plan) && forall i :: 0 <= i < |pieces| ==> 0 <= pieces[i]
    ensures 0 <= Sum(pieces) && Charge(Sum(pieces), plan) <= SumOfCharges(pieces, plan)
  {
    if pieces == [] {
      ChargeIsLeastCover(0, plan, 0);
    } else {
      SplittingNeverSaves(pieces[1..], plan);
      ChargeIsSubadditive(pieces[0], Sum(pieces[1..]), plan);
    }
  }
}
