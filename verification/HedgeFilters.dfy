/** Which exchange filter decides, field by field, and what the preflight and the order check do
    about it. */
module HedgeFilters {
  import opened Options
  import opened DecimalText
  import opened DecimalGrid
  import opened HedgeLegs
  import opened HedgePreflight

  /** The field is a number above zero. */
  predicate Usable(r: Raw) {
    match r
    case Number(negative, value) => !negative && value.coef != 0
    case _ => false
  }

  /** `step` is the market step when that is usable, else the lot step. */
  predicate DecidesStep(f: Filters, step: Dec) {
    || (Usable(f.market.step) && f.market.step.value == step)
    || (!Usable(f.market.step) && Usable(f.lot.step) && f.lot.step.value == step)
  }

  /** `b` is the bound the two fields set: the market field decides whenever it is a number, the lot
      field otherwise, and only a number above zero is a bound. */
  predicate DecidesBound(market: Raw, lot: Raw, b: Dec) {
    || (Usable(market) && market.value == b)
    || (!market.Number? && Usable(lot) && lot.value == b)
  }

  /** `b` is the least order value: only where it applies to market orders, the older field name
      only where the newer one is absent. */
  predicate DecidesNotional(f: Filters, b: Dec) {
    f.notionalApplies
    && ((Usable(f.minNotional) && f.minNotional.value == b)
        || (f.minNotional == Null && Usable(f.notional) && f.notional.value == b))
  }

  predicate HasStep(f: Filters) {
    Usable(f.market.step) || Usable(f.lot.step)
  }

  lemma StepIsDecided(f: Filters, step: Dec)
    ensures EffectiveMarketStep(f) == Some(step) <==> DecidesStep(f, step)
    ensures EffectiveMarketStep(f).Some? <==> HasStep(f)
  {
  }

  lemma BoundsAreDecided(f: Filters, b: Dec)
    ensures MinQty(f) == Some(b) <==> DecidesBound(f.market.minQty, f.lot.minQty, b)
    ensures MaxQty(f) == Some(b) <==> DecidesBound(f.market.maxQty, f.lot.maxQty, b)
    ensures MinNotional(f) == Some(b) <==> DecidesNotional(f, b)
  {
  }

  /** A whole number of the leg's deciding steps. */
  ghost predicate OnLegGrid(q: Dec, f: Filters) {
    exists step :: DecidesStep(f, step) && IsMultipleOf(q, step)
  }

  /** The greatest amount, at most `amount`, on both legs' grids. */
  ghost predicate GreatestOnGrids(q: Dec, spot: Filters, perp: Filters, amount: Dec) {
    && OnLegGrid(q, spot) && OnLegGrid(q, perp) && AtMost(q, amount)
    && forall x: Dec | OnLegGrid(x, spot) && OnLegGrid(x, perp) && AtMost(x, amount) :: AtMost(x, q)
  }

  lemma GridIsDecidedStep(q: Dec, f: Filters)
    requires HasStep(f)
    ensures EffectiveMarketStep(f).Some? && (OnLegGrid(q, f) <==> IsMultipleOf(q, EffectiveMarketStep(f).value))
  {
    StepIsDecided(f, if Usable(f.market.step) then f.market.step.value else f.lot.step.value);
  }

  lemma GreatestEitherWay(q: Dec, spot: Filters, perp: Filters, amount: Dec)
    requires HasStep(spot) && HasStep(perp)
    ensures EffectiveMarketStep(spot).Some? && EffectiveMarketStep(perp).Some?
    ensures GreatestOnGrids(q, spot, perp, amount) <==>
      GreatestCommonPoint(q, EffectiveMarketStep(spot).value, EffectiveMarketStep(perp).value, amount)
  {
    GridIsDecidedStep(q, spot);
    GridIsDecidedStep(q, perp);
    forall x
      ensures OnLegGrid(x, spot) <==> IsMultipleOf(x, EffectiveMarketStep(spot).value)
      ensures OnLegGrid(x, perp) <==> IsMultipleOf(x, EffectiveMarketStep(perp).value)
    {
      GridIsDecidedStep(x, spot);
      GridIsDecidedStep(x, perp);
    }
  }

  /** Whatever the verdict, a quantity the preflight computes is the greatest amount, not above the
      one asked for, that is for each leg a multiple of its market step when that is a number above
      zero, else of its lot step. */
  lemma QuantityIsGreatestOnGrids(s: Snapshot, direction: Direction, amount: Dec, n: nat, checkBalance: bool)
    requires ComputePreflight(Some(s), direction, amount, n, checkBalance).qCommon.Some?
    ensures GreatestOnGrids(ComputePreflight(Some(s), direction, amount, n, checkBalance).qCommon.value, s.spot, s.perp, amount)
  {
    PreflightQuantityIsGreatest(s, direction, amount, n, checkBalance);
    StepIsDecided(s.spot, Dec(0, 0));
    StepIsDecided(s.perp, Dec(0, 0));
    GreatestEitherWay(ComputePreflight(Some(s), direction, amount, n, checkBalance).qCommon.value, s.spot, s.perp, amount);
  }

  /** Within the leg's bounds and worth its least order value, by the fields that decide them. */
  ghost predicate Respects(q: Dec, price: Dec, f: Filters) {
    && (forall b | DecidesBound(f.market.minQty, f.lot.minQty, b) :: AtMost(b, q))
    && (forall b | DecidesBound(f.market.maxQty, f.lot.maxQty, b) :: AtMost(q, b))
    && (forall b | DecidesNotional(f, b) :: AtMost(b, Product(q, price)))
  }

  lemma FitsIsRespects(q: Dec, price: Dec, f: Filters)
    ensures Fits(q, price, f) <==> Respects(q, price, f)
  {
    forall b
      ensures MinQty(f) == Some(b) <==> DecidesBound(f.market.minQty, f.lot.minQty, b)
      ensures MaxQty(f) == Some(b) <==> DecidesBound(f.market.maxQty, f.lot.maxQty, b)
      ensures MinNotional(f) == Some(b) <==> DecidesNotional(f, b)
    {
      BoundsAreDecided(f, b);
    }
    if MinQty(f).Some? { assert DecidesBound(f.market.minQty, f.lot.minQty, MinQty(f).value); }
    if MaxQty(f).Some? { assert DecidesBound(f.market.maxQty, f.lot.maxQty, MaxQty(f).value); }
    if MinNotional(f).Some? { assert DecidesNotional(f, MinNotional(f).value); }
  }

  /** What a preflight needs to be able to decide. */
  predicate Informed(s: Snapshot) {
    && s.tradable && s.mode == OneWay && HasStep(s.spot) && HasStep(s.perp)
    && s.estPrice.Some? && s.estPrice.value.coef > 0
  }

  lemma ReadableIsInformed(s: Snapshot)
    ensures Readable(s) <==> Informed(s)
  {
    StepIsDecided(s.spot, Dec(0, 0));
    StepIsDecided(s.perp, Dec(0, 0));
  }

  /** The amount to trade: positive, greatest on both grids, within both legs' filters, and funded. */
  ghost predicate Tradable(q: Dec, s: Snapshot, direction: Direction, amount: Dec, n: nat, checkBalance: bool) {
    && s.estPrice.Some?
    && GreatestOnGrids(q, s.spot, s.perp, amount) && q.coef > 0
    && Respects(q, s.estPrice.value, s.spot) && Respects(q, s.estPrice.value, s.perp)
    && (checkBalance ==> Funded(s, direction, q, n, s.estPrice.value))
  }

  lemma TradableEitherWay(q: Dec, s: Snapshot, direction: Direction, amount: Dec, n: nat, checkBalance: bool)
    requires Informed(s)
    ensures EffectiveMarketStep(s.spot).Some? && EffectiveMarketStep(s.perp).Some?
    ensures Tradable(q, s, direction, amount, n, checkBalance) <==>
      && GreatestCommonPoint(q, EffectiveMarketStep(s.spot).value, EffectiveMarketStep(s.perp).value, amount)
      && q.coef > 0 && Fits(q, s.estPrice.value, s.spot) && Fits(q, s.estPrice.value, s.perp)
      && (checkBalance ==> Funded(s, direction, q, n, s.estPrice.value))
  {
    GreatestEitherWay(q, s.spot, s.perp, amount);
    FitsIsRespects(q, s.estPrice.value, s.spot);
    FitsIsRespects(q, s.estPrice.value, s.perp);
  }

  /** A live preflight accepts exactly when it has what it needs and such an amount exists, by the
      filter fields alone. */
  lemma AcceptsByTheFields(s: Snapshot, direction: Direction, amount: Dec, n: nat, checkBalance: bool)
    ensures ComputePreflight(Some(s), direction, amount, n, checkBalance).rejection.None? <==>
      Informed(s) && exists q :: Tradable(q, s, direction, amount, n, checkBalance)
  {
    AcceptsExactly(s, direction, amount, n, checkBalance);
    ReadableIsInformed(s);
    if Informed(s) {
      forall q {
        TradableEitherWay(q, s, direction, amount, n, checkBalance);
      }
    }
  }

  /** No filter that decides for the leg has anything against the order. */
  ghost predicate PassesFilters(o: Order, f: Filters) {
    && (forall step | DecidesStep(f, step) :: !Breaks(OffStep, o, Some(step), None, None))
    && (forall b | DecidesBound(f.market.minQty, f.lot.minQty, b) :: !Breaks(UnderMin, o, None, Some(b), None))
    && (forall b | DecidesBound(f.market.maxQty, f.lot.maxQty, b) :: !Breaks(OverMax, o, None, None, Some(b)))
  }

  lemma CleanPassesFilters(o: Order, f: Filters)
    requires Clean(o, EffectiveMarketStep(f), MinQty(f), MaxQty(f))
    ensures PassesFilters(o, f)
  {
    forall step | DecidesStep(f, step) ensures !Breaks(OffStep, o, Some(step), None, None) {
      StepIsDecided(f, step);
      assert !Breaks(OffStep, o, EffectiveMarketStep(f), MinQty(f), MaxQty(f));
    }
    forall b | DecidesBound(f.market.minQty, f.lot.minQty, b) ensures !Breaks(UnderMin, o, None, Some(b), None) {
      BoundsAreDecided(f, b);
      assert !Breaks(UnderMin, o, EffectiveMarketStep(f), MinQty(f), MaxQty(f));
    }
    forall b | DecidesBound(f.market.maxQty, f.lot.maxQty, b) ensures !Breaks(OverMax, o, None, None, Some(b)) {
      BoundsAreDecided(f, b);
      assert !Breaks(OverMax, o, EffectiveMarketStep(f), MinQty(f), MaxQty(f));
    }
  }

  /** The quantity as the order's text is read lies on the leg's deciding grid and within its bounds. */
  ghost predicate TextFits(o: Order, f: Filters) {
    && OrderQuantity(o.quantity).Some?
    && OnLegGrid(OrderQuantity(o.quantity).value, f)
    && (forall b | DecidesBound(f.market.minQty, f.lot.minQty, b) :: AtMost(b, OrderQuantity(o.quantity).value))
    && (forall b | DecidesBound(f.market.maxQty, f.lot.maxQty, b) :: AtMost(OrderQuantity(o.quantity).value, b))
  }

  lemma PassingTextFits(o: Order, f: Filters)
    requires HasStep(f) && PassesFilters(o, f) && OrderQuantity(o.quantity).Some?
    ensures TextFits(o, f)
  {
    var step := if Usable(f.market.step) then f.market.step.value else f.lot.step.value;
    assert DecidesStep(f, step) && !Breaks(OffStep, o, Some(step), None, None);
    forall b | DecidesBound(f.market.minQty, f.lot.minQty, b) ensures AtMost(b, OrderQuantity(o.quantity).value) {
      assert !Breaks(UnderMin, o, None, Some(b), None);
    }
    forall b | DecidesBound(f.market.maxQty, f.lot.maxQty, b) ensures AtMost(OrderQuantity(o.quantity).value, b) {
      assert !Breaks(OverMax, o, None, None, Some(b));
    }
  }

  /** Both orders of an accepted preflight pass their own leg's deciding filters, and the quantities
      they send, read from their texts, lie on the deciding grids and within the bounds. */
  lemma {:induction false} AcceptedOrdersPassTheFields(
    s: Snapshot, direction: Direction, kind: TaskType, amount: Dec, n: nat,
    checkBalance: bool, spotSymbol: string, perpSymbol: string, attemptId: string)
    requires ComputePreflight(Some(s), direction, amount, n, checkBalance).rejection.None?
    requires UpperSymbol(spotSymbol) && UpperSymbol(perpSymbol) && AttemptId(attemptId)
    ensures
      var q := ComputePreflight(Some(s), direction, amount, n, checkBalance).qCommon;
      var actions := DirectionToLegActions(direction, s.mode, kind);
      && q.Some?
      && PassesFilters(BuildSpotOrder(spotSymbol, actions, q.value, SpotClientId(attemptId)), s.spot)
      && PassesFilters(BuildPerpOrder(perpSymbol, actions, q.value, PerpClientId(attemptId)), s.perp)
      && TextFits(BuildSpotOrder(spotSymbol, actions, q.value, SpotClientId(attemptId)), s.spot)
      && TextFits(BuildPerpOrder(perpSymbol, actions, q.value, PerpClientId(attemptId)), s.perp)
  {
    AcceptedOrdersAreClean(s, direction, kind, amount, n, checkBalance, spotSymbol, perpSymbol, attemptId);
    AcceptsByTheFields(s, direction, amount, n, checkBalance);
    var q := ComputePreflight(Some(s), direction, amount, n, checkBalance).qCommon.value;
    var actions := DirectionToLegActions(direction, s.mode, kind);
    var spot := BuildSpotOrder(spotSymbol, actions, q, SpotClientId(attemptId));
    var perp := BuildPerpOrder(perpSymbol, actions, q, PerpClientId(attemptId));
    PrintedQuantity(q);
    CleanPassesFilters(spot, s.spot);
    CleanPassesFilters(perp, s.perp);
    PassingTextFits(spot, s.spot);
    PassingTextFits(perp, s.perp);
  }

  /** The three filter rules, each broken exactly when a deciding field says so. */
  lemma RulesByTheFields(q: Dec, notional: Dec, f: Filters)
    ensures BelowMin(q, f) <==> exists b :: DecidesBound(f.market.minQty, f.lot.minQty, b) && !AtMost(b, q)
    ensures AboveMax(q, f) <==> exists b :: DecidesBound(f.market.maxQty, f.lot.maxQty, b) && !AtMost(q, b)
    ensures NotionalTooLow(notional, f) <==> exists b :: DecidesNotional(f, b) && !AtMost(b, notional)
  {
    forall b
      ensures MinQty(f) == Some(b) <==> DecidesBound(f.market.minQty, f.lot.minQty, b)
      ensures MaxQty(f) == Some(b) <==> DecidesBound(f.market.maxQty, f.lot.maxQty, b)
      ensures MinNotional(f) == Some(b) <==> DecidesNotional(f, b)
    {
      BoundsAreDecided(f, b);
    }
    if BelowMin(q, f) { assert DecidesBound(f.market.minQty, f.lot.minQty, MinQty(f).value); }
    if AboveMax(q, f) { assert DecidesBound(f.market.maxQty, f.lot.maxQty, MaxQty(f).value); }
    if NotionalTooLow(notional, f) { assert DecidesNotional(f, MinNotional(f).value); }
  }

  /** The two orders of one attempt: a forward opening and a reverse closing buy spot and sell the
      contract, the other two the reverse; each names its own symbol and id, and both the same
      quantity. */
  lemma OrdersTradeTheLegs(spotSymbol: string, perpSymbol: string, direction: Direction, mode: PositionMode,
                           kind: TaskType, q: Dec, attemptId: string)
    ensures
      var actions := DirectionToLegActions(direction, mode, kind);
      var spot := BuildSpotOrder(spotSymbol, actions, q, SpotClientId(attemptId));
      var perp := BuildPerpOrder(perpSymbol, actions, q, PerpClientId(attemptId));
      && (spot.side, perp.side) == (if direction.Forward? == kind.OpenTask? then (Some("BUY"), Some("SELL"))
                                    else (Some("SELL"), Some("BUY")))
      && (spot.symbol, perp.symbol) == (Some(spotSymbol), Some(perpSymbol))
      && spot.clientId == Some("hg" + attemptId + "s") && perp.clientId == Some("hg" + attemptId + "p")
      && spot.quantity == perp.quantity
  {
  }

  /** The balance is only judged on a quantity that breaks no rule; the verdict and the two numbers
      shown agree, except that a forward task on the regular spot account passes unfunded. */
  lemma BalanceShownAgrees(s: Snapshot, direction: Direction, amount: Dec, n: nat, checkBalance: bool)
    ensures
      var r := ComputePreflight(Some(s), direction, amount, n, checkBalance);
      && (r.balanceOk.Some? <==> r.rejection in {None, Some(InsufficientBalance)})
      && (r.balanceOk == Some(true) <==> r.rejection == None)
      && (r.required.Some? <==> r.available.Some?) && (r.required.Some? <==> checkBalance && r.balanceOk.Some?)
      && (r.required.Some? && r.available.Some? && !(direction.Forward? && s.regularSpot) ==>
            (r.balanceOk == Some(true) <==> AtMost(r.required.value, r.available.value)))
      && (r.required.Some? && direction.Reverse? && r.qCommon.Some? ==>
            forall p | p >= Places(r.qCommon.value) ::
              p >= Places(r.required.value) && Units(r.required.value, p) == n * Units(r.qCommon.value, p))
  {
    var r := ComputePreflight(Some(s), direction, amount, n, checkBalance);
    if r.required.Some? && direction.Reverse? {
      forall p: nat | p >= Places(r.qCommon.value)
        ensures p >= Places(r.required.value) && Units(r.required.value, p) == n * Units(r.qCommon.value, p)
      {
        MultipleUnits(n, r.qCommon.value, p);
      }
    }
  }
}
