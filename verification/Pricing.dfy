/** Token prices and costs as exact integers.

    A price is a number of 10^-12 USD per million tokens and a cost is a number of 10^-12 USD, so
    the exact cost of `tokens` is the rational `tokens * price / MILLION`. The Result API rounds it
    half away from zero, the worker rounds it half to even. */
module Pricing {
  import opened Collections

  const MILLION: nat := 1_000_000

  datatype Rounding = HalfAwayFromZero | HalfToEven

  datatype RunPricing = RunPricing(inputPrice: nat, outputPrice: nat)

  datatype Costs = Costs(input: nat, output: nat, total: nat)

  function RoundedQuotient(mode: Rounding, numerator: nat): (cost: nat)
    ensures 2 * numerator - MILLION <= 2 * MILLION * cost <= 2 * numerator + MILLION
    ensures mode.HalfAwayFromZero? ==> 2 * MILLION * cost > 2 * numerator - MILLION
    ensures mode.HalfToEven? && 2 * MILLION * cost == 2 * numerator + MILLION ==> cost % 2 == 0
    ensures mode.HalfToEven? && 2 * MILLION * cost == 2 * numerator - MILLION ==> cost % 2 == 0
  {
    var q, r := numerator / MILLION, numerator % MILLION;
    match mode
    case HalfAwayFromZero => if 2 * r >= MILLION then q + 1 else q
    case HalfToEven => if 2 * r > MILLION || (2 * r == MILLION && q % 2 == 1) then q + 1 else q
  }

  function TokenCost(mode: Rounding, tokens: nat, price: nat): nat {
    RoundedQuotient(mode, tokens * price)
  }

  /** Absent pricing leaves every cost unknown. Both addends have twelve decimals, so adding them is exact. */
  function CostsForTokens(mode: Rounding, pricing: Option<RunPricing>, inputTokens: nat, outputTokens: nat)
    : Option<Costs>
  {
    match pricing
    case None => None
    case Some(p) =>
      var input := TokenCost(mode, inputTokens, p.inputPrice);
      var output := TokenCost(mode, outputTokens, p.outputPrice);
      Some(Costs(input, output, input + output))
  }

  predicate ExactTie(tokens: nat, price: nat) {
    2 * (tokens * price % MILLION) == MILLION
  }

  /** The two services disagree exactly at ties above an even twelfth digit, and then the Result API
      is higher by one unit. */
  lemma RoundingsDisagreeExactlyAtEvenTies(tokens: nat, price: nat)
    ensures TokenCost(HalfAwayFromZero, tokens, price) ==
            TokenCost(HalfToEven, tokens, price) +
            if ExactTie(tokens, price) && (tokens * price / MILLION) % 2 == 0 then 1 else 0
  {
  }

  /** Rounding n costs separately drifts at most n/2 units from the exact cost of the total. */
  lemma {:induction false} DriftFromExact<T>(
    mode: Rounding, items: seq<T>, tokens: T -> int, cost: T -> int, price: nat)
    requires forall x | x in items :: tokens(x) >= 0 && cost(x) == TokenCost(mode, tokens(x), price)
    ensures var exact := 2 * (Sum(items, tokens) * price);
            exact - |items| * MILLION <= 2 * MILLION * Sum(items, cost) <= exact + |items| * MILLION
  {
    if items != [] {
      var first, rest := items[0], items[1..];
      DriftFromExact(mode, rest, tokens, cost, price);
      DriftStep(mode, tokens(first), Sum(rest, tokens), Sum(rest, cost), |rest|, price);
    }
  }

  lemma DriftStep(mode: Rounding, t: nat, tokens: int, costs: int, n: nat, price: nat)
    requires 2 * (tokens * price) - n * MILLION <= 2 * MILLION * costs <= 2 * (tokens * price) + n * MILLION
    ensures var exact, rounded := 2 * ((t + tokens) * price), 2 * MILLION * (TokenCost(mode, t, price) + costs);
            exact - (n + 1) * MILLION <= rounded <= exact + (n + 1) * MILLION
  {
    assert (t + tokens) * price == t * price + tokens * price;
  }

  /** The sum of n rounded case costs is within (n + 1) / 2 units of the rounded cost of all their tokens. */
  lemma SumOfRoundedCosts<T>(mode: Rounding, items: seq<T>, tokens: T -> int, cost: T -> int, price: nat)
    requires forall x | x in items :: tokens(x) >= 0 && cost(x) == TokenCost(mode, tokens(x), price)
    ensures Sum(items, tokens) >= 0
    ensures -(|items| + 1) <= 2 * (Sum(items, cost) - TokenCost(mode, Sum(items, tokens), price)) <= |items| + 1
  {
    SumNonNegative(items, tokens);
    DriftFromExact(mode, items, tokens, cost, price);
  }

  /** Rounding separately does drift: two half-unit costs round up to two units, their total to one. */
  lemma RoundingDriftIsReal()
    ensures TokenCost(HalfAwayFromZero, 1, 500_000) + TokenCost(HalfAwayFromZero, 1, 500_000) ==
            TokenCost(HalfAwayFromZero, 2, 500_000) + 1
  {
  }
}
