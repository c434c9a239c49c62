/**
 What a fiat sale promises its provider and what it should send back, the check before the purse is
 asked, and the headroom a provider's quote is given. Slippage and margins are basis points.
 */
module SaleSize {
  import opened Rounding
  import opened Wrappers

  const BPS: nat := 10_000
  const DEFAULT_WITHDRAW_SLIPPAGE_BPS: nat := 100
  const PURSE_CHECK_MARGIN_BPS: nat := 50
  const SALE_KYC_MARGIN_BPS: nat := 100

  /** The route a sale takes. The PSM's rate is frozen on the sale. */
  datatype Sale = Pool | Psm(stable: string, feeRate: nat)

  /** What the chain answers at one moment: the fees in CASH, what the rest of the amount lands in the
      sale's token, and what a payment costs beyond its amount. */
  datatype Market = Market(fees: nat, expected: nat, cost: nat)

  /** `planck` goes to the provider, `backCash` is the CASH expected back. */
  datatype Size = Size(planck: int, backCash: int)

  datatype Refusal = FeesTakeItAll

  function Kept(slippage: nat, margin: nat): int {
    BPS - slippage - margin
  }

  function SaleFloor(expected: nat, sale: Sale, margin: nat, slippage: nat): int {
    if sale.Psm? then expected else Quotient(expected * Kept(slippage, margin), BPS)
  }

  /** `sellAmountOf`: cut to the sale's decimals, `step` base units apart. */
  function SellAmount(units: int, step: nat): int
    requires step > 0
  {
    Quotient(units, step) * step
  }

  function Figure(market: Market, sale: Sale, step: nat): int
    requires step > 0
  {
    SellAmount(SaleFloor(market.expected, sale, PURSE_CHECK_MARGIN_BPS + SALE_KYC_MARGIN_BPS,
                         DEFAULT_WITHDRAW_SLIPPAGE_BPS) - market.cost, step)
  }

  function SizeCommitment(amount: nat, sale: Sale, market: Market, step: nat, residueFloor: nat): Result<Size, Refusal>
    requires step > 0
  {
    if amount <= market.fees then Err(FeesTakeItAll)
    else
      var planck := Figure(market, sale, step);
      if planck <= 0 then Err(FeesTakeItAll)
      else
        FigureFits(market, sale, step);
        var left := market.expected - planck - market.cost;
        Ok(Size(planck, if left < residueFloor then 0 else Quotient((amount - market.fees) * left, market.expected)))
  }

  /** The check before the purse is asked. `today`: what the pair decides for a PSM sale now. */
  predicate Fundable(amount: nat, planck: int, sale: Sale, today: Sale, market: Market, slippage: nat) {
    && (sale.Psm? ==> today == sale)
    && amount > market.fees
    && SaleFloor(market.expected, sale, PURSE_CHECK_MARGIN_BPS, slippage) >= planck + market.cost
  }

  // ----- rounding

  lemma CutFits(units: int, step: nat)
    requires step > 0
    ensures units >= 0 ==> 0 <= SellAmount(units, step) <= units < SellAmount(units, step) + step
    ensures SellAmount(units, step) > 0 <==> units >= step
  {
    QuotientIsGreatest(units, step, 1);
    if units >= 0 {
      DivisionFits(units, step);
    } else {
      assert -units / step >= 0;
      assert -units / step * step >= 0;
    }
    if Quotient(units, step) >= 1 {
      assert Quotient(units, step) * step >= step;
    } else {
      assert Quotient(units, step) * step <= 0;
    }
  }

  lemma ScaledFits(expected: nat, kept: int)
    requires 0 <= kept <= BPS
    ensures 0 <= Quotient(expected * kept, BPS) <= expected
  {
    ProductsFit(expected, kept, BPS);
    DivisionFits(expected * kept, BPS);
  }

  lemma FloorFits(market: Market, sale: Sale)
    ensures 0 <= SaleFloor(market.expected, sale, PURSE_CHECK_MARGIN_BPS + SALE_KYC_MARGIN_BPS,
                           DEFAULT_WITHDRAW_SLIPPAGE_BPS) <= market.expected
  {
    ScaledFits(market.expected, Kept(DEFAULT_WITHDRAW_SLIPPAGE_BPS, PURSE_CHECK_MARGIN_BPS + SALE_KYC_MARGIN_BPS));
  }

  lemma FigureFits(market: Market, sale: Sale, step: nat)
    requires step > 0
    ensures var floor := SaleFloor(market.expected, sale, PURSE_CHECK_MARGIN_BPS + SALE_KYC_MARGIN_BPS,
                                   DEFAULT_WITHDRAW_SLIPPAGE_BPS);
            && floor <= market.expected
            && (Figure(market, sale, step) > 0 <==> floor - market.cost >= step)
            && (floor >= market.cost ==>
                  0 <= Figure(market, sale, step) <= floor - market.cost < Figure(market, sale, step) + step)
  {
    FloorFits(market, sale);
    CutFits(SaleFloor(market.expected, sale, PURSE_CHECK_MARGIN_BPS + SALE_KYC_MARGIN_BPS,
                      DEFAULT_WITHDRAW_SLIPPAGE_BPS) - market.cost, step);
  }

  // ----- what a sale promises

  /** A share of `part` in `whole` of an amount is between nothing and all of it, rounded down. */
  lemma ShareFits(amount: nat, part: nat, whole: nat)
    requires part <= whole && whole > 0
    ensures var share := Quotient(amount * part, whole);
            0 <= share <= amount && share * whole <= amount * part < share * whole + whole
  {
    ProductsFit(amount, part, whole);
    DivisionFits(amount * part, whole);
    QuotientIsGreatest(amount * part, whole, amount + 1);
    assert (amount + 1) * whole > amount * whole;
  }

  /** A sale is refused exactly when the fees take the amount or what the floor leaves over the
      payment's cost is under the smallest figure. A figure and its payment never exceed what the sale
      is held to land, and that never exceeds the landing; on the PSM nothing is kept back but what the
      figure's own digits cut off; and what comes back is the unused share of what the fees leave. */
  lemma SizeIsSolvent(amount: nat, sale: Sale, market: Market, step: nat, residueFloor: nat)
    requires step > 0
    ensures var floor := SaleFloor(market.expected, sale, PURSE_CHECK_MARGIN_BPS + SALE_KYC_MARGIN_BPS,
                                   DEFAULT_WITHDRAW_SLIPPAGE_BPS);
            var r := SizeCommitment(amount, sale, market, step, residueFloor);
            && (r.Ok? <==> amount > market.fees && floor - market.cost >= step)
            && (r.Ok? ==>
                  var left := market.expected - r.value.planck - market.cost;
                  && 0 < r.value.planck && r.value.planck + market.cost <= floor <= market.expected
                  && floor - market.cost - r.value.planck < step
                  && (sale.Psm? ==> left < step)
                  && 0 <= r.value.backCash <= amount - market.fees
                  && (left < residueFloor ==> r.value.backCash == 0)
                  && (left >= residueFloor ==>
                        r.value.backCash * market.expected <= (amount - market.fees) * left
                        < r.value.backCash * market.expected + market.expected))
  {
    FigureFits(market, sale, step);
    var r := SizeCommitment(amount, sale, market, step, residueFloor);
    if r.Ok? {
      ShareFits(amount - market.fees, market.expected - r.value.planck - market.cost, market.expected);
    }
  }

  /** The figure is the greatest the sale's digits can write that is covered, with its payment: on a pool by
      the landing less two and a half percent, on the PSM by all of it. */
  lemma FigureIsGreatest(market: Market, sale: Sale, step: nat, n: nat)
    requires step > 0 && n > 0
    ensures var figure := Figure(market, sale, step);
            && (exists k: int :: figure == k * step)
            && (n * step <= figure <==>
                  if sale.Psm? then n * step + market.cost <= market.expected
                  else (n * step + market.cost) * 10_000 <= market.expected * 9_750)
  {
    var units := SaleFloor(market.expected, sale, PURSE_CHECK_MARGIN_BPS + SALE_KYC_MARGIN_BPS,
                           DEFAULT_WITHDRAW_SLIPPAGE_BPS) - market.cost;
    assert Figure(market, sale, step) == Quotient(units, step) * step;
    QuotientIsGreatest(units, step, n);
    QuotientIsGreatest(market.expected * 9_750, BPS, n * step + market.cost);
    StepsCompare(n, Quotient(units, step), step);
  }

  lemma {:induction false} StepsRise(a: int, b: int, step: nat)
    requires a <= b
    ensures a * step <= b * step
    decreases b - a
  {
    if a < b {
      StepsRise(a, b - 1, step);
      OneMore(b - 1, step);
    }
  }

  lemma OneMore(a: int, step: nat)
    ensures (a + 1) * step == a * step + step
  {
  }

  lemma StepsCompare(a: int, b: int, step: nat)
    requires step > 0
    ensures a * step <= b * step <==> a <= b
  {
    if a <= b {
      StepsRise(a, b, step);
    } else {
      StepsRise(b + 1, a, step);
      OneMore(b, step);
    }
  }

  /** The check passes exactly when the fees leave something and, on a pool, the landing less the slippage the
      worker is held to and half a percent covers figure and payment; on the PSM, when the pair still decides
      the same sale and all of the landing covers them. */
  lemma FundableIff(amount: nat, planck: nat, today: Sale, market: Market, slippage: nat)
    requires planck > 0
    ensures Fundable(amount, planck, Pool, today, market, slippage) <==>
              amount > market.fees && market.expected * (9_950 - slippage) >= (planck + market.cost) * 10_000
    ensures forall sale: Sale | sale.Psm? ::
              Fundable(amount, planck, sale, today, market, slippage) <==>
                amount > market.fees && today == sale && market.expected >= planck + market.cost
  {
    QuotientIsGreatest(market.expected * Kept(slippage, PURSE_CHECK_MARGIN_BPS), BPS, planck + market.cost);
  }

  /** The market `now` is good enough for a sale sized in `before`: the fees leave something, the payment
      costs no more, and on a pool the landing, at the share the check keeps, is no less than it was at
      the share the sizing kept; on the PSM the pair decides the same and lands no less. */
  predicate GoodEnough(amount: nat, sale: Sale, before: Market, today: Sale, now: Market, slippage: nat) {
    && amount > now.fees && now.cost <= before.cost
    && if sale.Psm? then today == sale && now.expected >= before.expected
       else now.expected * Kept(slippage, PURSE_CHECK_MARGIN_BPS)
            >= before.expected * Kept(DEFAULT_WITHDRAW_SLIPPAGE_BPS, PURSE_CHECK_MARGIN_BPS + SALE_KYC_MARGIN_BPS)
  }

  /** A figure sized in one market is still funded in any later one that is good enough, at whatever
      slippage the hand-off holds the worker to. */
  lemma SizedStaysFundable(amount: nat, sale: Sale, before: Market, step: nat, residueFloor: nat,
                           today: Sale, now: Market, slippage: nat)
    requires step > 0
    ensures var r := SizeCommitment(amount, sale, before, step, residueFloor);
            r.Ok? && GoodEnough(amount, sale, before, today, now, slippage) ==>
              Fundable(amount, r.value.planck, sale, today, now, slippage)
  {
    var r := SizeCommitment(amount, sale, before, step, residueFloor);
    SizeIsSolvent(amount, sale, before, step, residueFloor);
    if r.Ok? && sale.Pool? && GoodEnough(amount, sale, before, today, now, slippage) {
      var kept := Kept(DEFAULT_WITHDRAW_SLIPPAGE_BPS, PURSE_CHECK_MARGIN_BPS + SALE_KYC_MARGIN_BPS);
      FundableIff(amount, r.value.planck, today, now, slippage);
      QuotientIsGreatest(before.expected * kept, BPS, r.value.planck + before.cost);
      ProductsFit(BPS, r.value.planck + now.cost, r.value.planck + before.cost);
    }
  }

  /** The point kept for the price to move: a landing that falls by no more than one percent while the
      seller verifies leaves the sale fundable, as long as the payment costs no more and the hand-off
      allows no more slippage than the sizing did. */
  lemma PointIsTolerated(amount: nat, before: Market, step: nat, residueFloor: nat,
                         today: Sale, now: Market, slippage: nat)
    requires step > 0 && slippage <= 100
    requires amount > now.fees && now.cost <= before.cost
    requires now.expected * 100 >= before.expected * 99
    ensures var r := SizeCommitment(amount, Pool, before, step, residueFloor);
            r.Ok? ==> Fundable(amount, r.value.planck, Pool, today, now, slippage)
  {
    ProductsFit(now.expected, Kept(DEFAULT_WITHDRAW_SLIPPAGE_BPS, PURSE_CHECK_MARGIN_BPS),
                Kept(slippage, PURSE_CHECK_MARGIN_BPS));
    SizedStaysFundable(amount, Pool, before, step, residueFloor, today, now, slippage);
  }

  // ----- a provider's minimum

  const PROVIDER_QUOTE_HEADROOM_BPS: nat := 200
  const PERMILL: nat := 1_000_000

  function WithHeadroom(units: nat): nat {
    units + units * PROVIDER_QUOTE_HEADROOM_BPS / BPS
  }

  function LessHeadroom(units: nat): int {
    units - units * PROVIDER_QUOTE_HEADROOM_BPS / BPS
  }

  lemma HeadroomIsAFiftieth(units: nat)
    ensures units * PROVIDER_QUOTE_HEADROOM_BPS / BPS == units / 50
  {
    assert units == 50 * (units / 50) + units % 50;
  }

  /** Taking the headroom off again is short of the figure by exactly this much, so it is the figure
      itself exactly when the remainder and the quotient by fifty stay under fifty together. */
  lemma HeadroomGap(units: nat)
    ensures LessHeadroom(WithHeadroom(units)) == units - (units % 50 + units / 50) / 50
    ensures LessHeadroom(WithHeadroom(units)) == units <==> units % 50 + units / 50 < 50
    ensures BPS * BPS * (units - LessHeadroom(WithHeadroom(units)))
            < units * PROVIDER_QUOTE_HEADROOM_BPS * PROVIDER_QUOTE_HEADROOM_BPS + BPS * BPS
  {
    HeadroomIsAFiftieth(units);
    HeadroomIsAFiftieth(WithHeadroom(units));
    assert units == 50 * (units / 50) + units % 50;
    assert WithHeadroom(units) == 50 * (units / 50) + (units % 50 + units / 50);
  }

  lemma LessHeadroomRises(a: nat, b: nat)
    requires a <= b
    ensures LessHeadroom(a) <= LessHeadroom(b)
  {
    HeadroomIsAFiftieth(a);
    HeadroomIsAFiftieth(b);
  }

  /** On a pool, a withdrawal of the CASH quoted for a minimum is offered to the provider at no less
      than the minimum less that gap, whatever more it lands. */
  lemma MinimumIsMissedByTheGap(minimum: nat, landed: nat)
    requires landed >= WithHeadroom(minimum)
    ensures LessHeadroom(landed) >= minimum - (minimum % 50 + minimum / 50) / 50
  {
    HeadroomGap(minimum);
    LessHeadroomRises(WithHeadroom(minimum), landed);
  }

  /** What a PSM swap at `feeRate` parts gives for `gross`: the fee is rounded up. */
  function PsmOut(gross: nat, feeRate: nat): int {
    gross - (gross * feeRate + PERMILL - 1) / PERMILL
  }

  function PsmGrossFor(net: nat, feeRate: nat): Result<nat, Refusal> {
    if feeRate >= PERMILL then Err(FeesTakeItAll)
    else Ok((net * PERMILL + (PERMILL - feeRate) - 1) / (PERMILL - feeRate))
  }

  /** The gross priced for a net is the least that gives it: a swap gives the net exactly when it takes
      in the gross or more. There is none exactly where the fee takes everything. */
  lemma PsmGrossIsLeast(net: nat, feeRate: nat, gross: nat)
    ensures PsmGrossFor(net, feeRate).Err? <==> feeRate >= 1_000_000
    ensures PsmGrossFor(net, feeRate).Ok? ==>
              (PsmOut(gross, feeRate) >= net <==> gross >= PsmGrossFor(net, feeRate).value)
    ensures PsmGrossFor(net, feeRate).Err? ==> PsmOut(gross, feeRate) <= 0
  {
    if feeRate < PERMILL {
      OutFits(net, feeRate, gross);
      CeilingIsLeast(net * PERMILL, PERMILL - feeRate, gross);
      KeptShare(gross, feeRate);
    } else {
      OutFits(1, feeRate, gross);
      ProductsFit(gross, PERMILL, feeRate);
    }
  }

  lemma OutFits(net: nat, feeRate: nat, gross: nat)
    ensures PsmOut(gross, feeRate) >= net <==> gross * PERMILL - gross * feeRate >= net * PERMILL
  {
    CeilingIsLeast(gross * feeRate, PERMILL, gross - net);
  }

  lemma KeptShare(gross: nat, feeRate: nat)
    ensures gross * (PERMILL - feeRate) == gross * PERMILL - gross * feeRate
  {
  }
}
