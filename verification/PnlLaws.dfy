/** What each row is worth on the PnL curve, said over the row's own fields. */
module PnlLaws {
  import opened Options
  import opened HedgeLegs
  import opened RepayMatching
  import opened PnlSeries

  // ------------------------------------------------------------------- slippage

  function DirectionOf(text: string): Direction {
    if text == "forward" then Forward else Reverse
  }

  predicate Given(x: Option<real>) {
    x.Some? && x.value > 0.0
  }

  /** The price of the leg that trades on `side`. */
  function PriceOn(side: string, actions: LegActions, spot: real, perp: real): real {
    if actions.spotSide == side then spot else perp
  }

  /** `v` is the price of the leg sold minus the price of the leg bought, times the quantity, as the
      legs of a task of that direction and kind trade; absent exactly when a part is missing or not
      positive, or the kind is neither. */
  ghost predicate SoldMinusBought(v: Option<real>, direction: string, kind: string,
                                  spot: Option<real>, perp: Option<real>, qty: Option<real>, mode: PositionMode)
  {
    && (v.Some? <==> kind in {"open", "close"} && Given(spot) && Given(perp) && Given(qty))
    && (v.Some? && spot.Some? && perp.Some? && qty.Some? ==>
          var actions := DirectionToLegActions(DirectionOf(direction), mode, if kind == "open" then OpenTask else CloseTask);
          && (actions.spotSide, actions.perpSide) in {("BUY", "SELL"), ("SELL", "BUY")}
          && v.value == (PriceOn("SELL", actions, spot.value, perp.value)
                         - PriceOn("BUY", actions, spot.value, perp.value)) * qty.value)
  }

  lemma SlippageIsSoldMinusBought(direction: string, kind: string, spot: Option<real>, perp: Option<real>,
                                  qty: Option<real>, mode: PositionMode)
    ensures SoldMinusBought(SlippagePnl(direction, kind, spot, perp, qty), direction, kind, spot, perp, qty, mode)
  {
  }

  /** A fill carries that value of its own prices and quantity at its own time. */
  lemma FillCarriesItsValue(f: Fill, mode: PositionMode)
    ensures FillLeg(f).atMs == f.atMs && FillLeg(f).unbalanced == f.unbalanced
    ensures if f.incomplete then FillLeg(f).value.None?
            else SoldMinusBought(FillLeg(f).value, f.direction, f.kind, f.spotAvg, f.perpAvg, f.qty, mode)
  {
    SlippageIsSoldMinusBought(f.direction, f.kind, f.spotAvg, f.perpAvg, f.qty, mode);
  }

  /** The opening leg of a close log carries that value of its opening prices, at its opening time. */
  lemma OpenLegCarriesItsValue(c: CloseLog, mode: PositionMode)
    ensures SoldMinusBought(OpenLeg(c).value, c.direction, "open", c.spotOpenAvg, c.openAvg, c.openQty, mode)
    ensures AtMillis(OpenLeg(c).atMs, c.openedAtUs) && OpenLeg(c).unbalanced == (c.openQty != c.spotOpenQty)
  {
    SlippageIsSoldMinusBought(c.direction, "open", c.spotOpenAvg, c.openAvg, c.openQty, mode);
  }

  /** The closing leg carries that of its closing prices, at its closing time. */
  lemma CloseLegCarriesItsValue(c: CloseLog, mode: PositionMode)
    ensures SoldMinusBought(CloseLeg(c).value, c.direction, "close", c.spotCloseAvg, c.closeAvg, c.spotCloseQty, mode)
    ensures AtMillis(CloseLeg(c).atMs, c.closedAtUs) && !CloseLeg(c).unbalanced
  {
    SlippageIsSoldMinusBought(c.direction, "close", c.spotCloseAvg, c.closeAvg, c.spotCloseQty, mode);
  }

  /** A time in whole milliseconds, rounded down. */
  predicate AtMillis(ms: Option<int>, us: Option<int>) {
    && ms.Some? == us.Some?
    && (ms.Some? && us.Some? ==> 0 <= us.value - 1000 * ms.value < 1000)
  }

  predicate Within(ms: Option<int>, w: Window) {
    ms.Some? && w.startMs <= ms.value && ms.value <= w.endMs
  }

  /** What one leg pair adds to the slippage of window `w`. */
  function Worth(ms: Option<int>, direction: string, kind: TaskType, spot: Option<real>, perp: Option<real>,
                 qty: Option<real>, w: Window): real
  {
    if !Within(ms, w) || !Given(spot) || !Given(perp) || !Given(qty) then 0.0
    else
      var actions := DirectionToLegActions(DirectionOf(direction), OneWay, kind);
      Times(PriceOn("SELL", actions, spot.value, perp.value) - PriceOn("BUY", actions, spot.value, perp.value), qty.value)
  }

  function FillWorth(f: Fill, w: Window): real {
    if f.incomplete then 0.0
    else if f.kind == "open" then Worth(f.atMs, f.direction, OpenTask, f.spotAvg, f.perpAvg, f.qty, w)
    else if f.kind == "close" then Worth(f.atMs, f.direction, CloseTask, f.spotAvg, f.perpAvg, f.qty, w)
    else 0.0
  }

  function LogWorth(c: CloseLog, w: Window): real {
    Worth(Micros(c.openedAtUs), c.direction, OpenTask, c.spotOpenAvg, c.openAvg, c.openQty, w)
    + Worth(Micros(c.closedAtUs), c.direction, CloseTask, c.spotCloseAvg, c.closeAvg, c.spotCloseQty, w)
  }

  function FillsWorth(fills: seq<Fill>, w: Window): real {
    if fills == [] then 0.0 else FillsWorth(fills[..|fills| - 1], w) + FillWorth(fills[|fills| - 1], w)
  }

  function LogsWorth(logs: seq<CloseLog>, w: Window): real {
    if logs == [] then 0.0 else LogsWorth(logs[..|logs| - 1], w) + LogWorth(logs[|logs| - 1], w)
  }

  lemma TotalSnoc(flows: seq<Flow>, f: Flow, w: Window)
    ensures Total(flows + [f], w) == Total(flows, w) + if Counts(f, w) then f.value.value else 0.0
  {
    assert (flows + [f])[..|flows|] == flows;
  }

  function LegWorth(l: Leg, w: Window): real {
    if Within(l.atMs, w) && l.value.Some? then l.value.value else 0.0
  }

  lemma LegTotal(legs: seq<Leg>, l: Leg, w: Window)
    ensures Total(SlipFlows(legs + [l]), w) == Total(SlipFlows(legs), w) + LegWorth(l, w)
  {
    assert SlipFlows(legs + [l]) == SlipFlows(legs) + [Flow(l.atMs, l.value)];
    TotalSnoc(SlipFlows(legs), Flow(l.atMs, l.value), w);
  }

  lemma FillLegWorth(f: Fill, w: Window)
    ensures LegWorth(FillLeg(f), w) == FillWorth(f, w)
  {
  }

  lemma LogLegWorth(c: CloseLog, w: Window)
    ensures LegWorth(OpenLeg(c), w) + LegWorth(CloseLeg(c), w) == LogWorth(c, w)
  {
  }

  lemma {:induction false} FillsTotal(fills: seq<Fill>, w: Window)
    ensures Total(SlipFlows(FillLegs(fills)), w) == FillsWorth(fills, w)
  {
    if fills != [] {
      var n := |fills| - 1;
      FillsTotal(fills[..n], w);
      assert FillLegs(fills) == FillLegs(fills[..n]) + [FillLeg(fills[n])];
      LegTotal(FillLegs(fills[..n]), FillLeg(fills[n]), w);
      FillLegWorth(fills[n], w);
    }
  }

  lemma {:induction false} LogsTotal(base: seq<Leg>, logs: seq<CloseLog>, w: Window)
    ensures Total(SlipFlows(base + LogLegs(logs)), w) == Total(SlipFlows(base), w) + LogsWorth(logs, w)
  {
    if logs == [] {
      assert base + LogLegs(logs) == base;
    } else {
      var n := |logs| - 1;
      LogsTotal(base, logs[..n], w);
      var before := base + LogLegs(logs[..n]);
      assert base + LogLegs(logs) == (before + [OpenLeg(logs[n])]) + [CloseLeg(logs[n])];
      LegTotal(before, OpenLeg(logs[n]), w);
      LegTotal(before + [OpenLeg(logs[n])], CloseLeg(logs[n]), w);
      LogLegWorth(logs[n], w);
    }
  }

  /** The slippage total is the sum, over every fill and both legs of every close log that lie in
      the window, of price sold minus price bought times quantity. */
  lemma SlippageTotal(inp: Inputs, w: Window)
    ensures Total(FlowsOf(inp).slippage, w) == FillsWorth(inp.fills, w) + LogsWorth(inp.logs, w)
  {
    FillsTotal(inp.fills, w);
    LogsTotal(FillLegs(inp.fills), inp.logs, w);
  }

  // ---------------------------------------------------------------- the other flows

  /** What an amount of an asset adds at `ms`, at the given price of one coin. */
  function CoinWorth(ms: Option<int>, amount: Option<real>, asset: Option<string>, price: Option<real>, w: Window): real {
    if !Within(ms, w) || amount.None? || asset.None? || asset.value == "" then 0.0
    else if asset.value == "USDT" || amount.value == 0.0 then amount.value
    else if price.None? then 0.0
    else Times(amount.value, price.value)
  }

  function Quoted(asset: Option<string>, prices: Prices): Option<real> {
    if asset.Some? && asset.value + "USDT" in prices then Some(prices[asset.value + "USDT"]) else None
  }

  function IncomeWorth(rows: seq<IncomeRow>, kind: string, prices: Prices, w: Window): real {
    if rows == [] then 0.0
    else
      var r := rows[|rows| - 1];
      IncomeWorth(rows[..|rows| - 1], kind, prices, w)
      + if r.kind == kind then CoinWorth(r.timeMs, r.income, r.asset, Quoted(r.asset, prices), w) else 0.0
  }

  function CapitalWorth(rows: seq<CapitalRow>, prices: Prices, w: Window): real {
    if rows == [] then 0.0
    else
      var r := rows[|rows| - 1];
      CapitalWorth(rows[..|rows| - 1], prices, w)
      + if r.flowType == "TRADING_COMMISSION" then CoinWorth(r.timeMs, r.amount, r.asset, Quoted(r.asset, prices), w) else 0.0
  }

  /** The price an interest row is settled at: the stored price of its repayment, else today's. */
  function SettledPrice(r: InterestRow, records: seq<RepayRecord>, prices: Prices): Option<real> {
    var m := MatchOf(records, r.asset, r.accruedMs);
    if m.Some? then m.value.repayPrice else Quoted(r.asset, prices)
  }

  function InterestWorth(rows: seq<InterestRow>, records: seq<RepayRecord>, prices: Prices, w: Window): real {
    if rows == [] then 0.0
    else
      var r := rows[|rows| - 1];
      InterestWorth(rows[..|rows| - 1], records, prices, w)
      + CoinWorth(r.accruedMs, r.interest, r.asset, SettledPrice(r, records, prices), w)
  }

  lemma {:induction false} FundingTotal(rows: seq<IncomeRow>, prices: Prices, w: Window)
    ensures Total(FundingFlows(rows, prices), w) == IncomeWorth(rows, "FUNDING_FEE", prices, w)
  {
    if rows != [] {
      FundingTotal(rows[..|rows| - 1], prices, w);
      TotalSnoc(FundingFlows(rows[..|rows| - 1], prices), IncomeFlow(rows[|rows| - 1], prices), w);
    }
  }

  lemma {:induction false} FeesTotal(rows: seq<IncomeRow>, capital: seq<CapitalRow>, prices: Prices, w: Window)
    ensures Total(CommissionFlows(rows, prices) + CapitalFlows(capital, prices), w) ==
            IncomeWorth(rows, "COMMISSION", prices, w) + CapitalWorth(capital, prices, w)
  {
    if capital != [] {
      var n := |capital| - 1;
      var r, before := capital[n], CommissionFlows(rows, prices) + CapitalFlows(capital[..n], prices);
      FeesTotal(rows, capital[..n], prices, w);
      if r.flowType == "TRADING_COMMISSION" {
        var flow := Flow(r.timeMs, ToUsdt(r.amount, r.asset, prices));
        assert CommissionFlows(rows, prices) + CapitalFlows(capital, prices) == before + [flow];
        TotalSnoc(before, flow, w);
      }
    } else {
      assert CommissionFlows(rows, prices) + [] == CommissionFlows(rows, prices);
      CommissionTotal(rows, prices, w);
    }
  }

  lemma {:induction false} CommissionTotal(rows: seq<IncomeRow>, prices: Prices, w: Window)
    ensures Total(CommissionFlows(rows, prices), w) == IncomeWorth(rows, "COMMISSION", prices, w)
  {
    if rows != [] {
      CommissionTotal(rows[..|rows| - 1], prices, w);
      TotalSnoc(CommissionFlows(rows[..|rows| - 1], prices), IncomeFlow(rows[|rows| - 1], prices), w);
    }
  }

  lemma {:induction false} InterestTotal(rows: seq<InterestRow>, records: seq<RepayRecord>, prices: Prices, w: Window)
    ensures Total(InterestFlows(rows, records, prices), w) == -InterestWorth(rows, records, prices, w)
  {
    if rows != [] {
      var r := rows[|rows| - 1];
      InterestTotal(rows[..|rows| - 1], records, prices, w);
      TotalSnoc(InterestFlows(rows[..|rows| - 1], records, prices), Flow(r.accruedMs, Negated(InterestValue(r, records, prices))), w);
    }
  }

  /** What the reported totals are, row by row: funding and commissions as booked, interest as a
      cost, each at its own price, slippage as traded, and the net of all four. */
  lemma TotalsAreTheRows(inp: Inputs, w: Window)
    ensures
      var t := TotalsOf(FlowsOf(inp), w);
      && t.funding == IncomeWorth(inp.income, "FUNDING_FEE", inp.prices, w)
      && t.fees == IncomeWorth(inp.income, "COMMISSION", inp.prices, w) + CapitalWorth(inp.capital, inp.prices, w)
      && t.interest == -InterestWorth(inp.interest, inp.records, inp.prices, w)
      && t.slippage == FillsWorth(inp.fills, w) + LogsWorth(inp.logs, w)
      && t.net == t.funding + t.fees + t.interest + t.slippage
  {
    FundingTotal(inp.income, inp.prices, w);
    FeesTotal(inp.income, inp.capital, inp.prices, w);
    InterestTotal(inp.interest, inp.records, inp.prices, w);
    SlippageTotal(inp, w);
  }

  /** The first time any spot flow is on record. */
  lemma {:induction false} SpotStartIsFirst(rows: seq<CapitalRow>)
    ensures
      var s := SpotStart(rows);
      && (s.None? <==> forall r | r in rows :: r.timeMs.None?)
      && (s.Some? ==> (exists r | r in rows :: r.timeMs == s)
                      && forall r | r in rows && r.timeMs.Some? :: s.value <= r.timeMs.value)
  {
    if rows != [] {
      var init, last := rows[..|rows| - 1], rows[|rows| - 1];
      assert rows == init + [last];
      SpotStartIsFirst(init);
      assert last in rows;
    }
  }

  /** The bucket an event falls in starts at or before it, less than one width earlier. */
  lemma BucketHoldsEvent(ms: int, w: Window)
    requires w.bucketMs > 0
    ensures Bucket(ms, w) <= ms < Bucket(ms, w) + w.bucketMs && OnGrid(Bucket(ms, w), w)
  {
    GridPoint(ms / w.bucketMs, w);
    assert ms == ms / w.bucketMs * w.bucketMs + ms % w.bucketMs;
  }

  /** Reported as unpriced: exactly the assets of rows that needed a price and had none. */
  predicate NeedsPrice(amount: Option<real>, asset: Option<string>, price: Option<real>, a: string) {
    asset == Some(a) && a != "" && a != "USDT" && amount.Some? && amount.value != 0.0 && price.None?
  }

  lemma {:induction false} UnpricedIncomeExactly(rows: seq<IncomeRow>, prices: Prices, a: string)
    ensures a in IncomeUnpriced(rows, prices) <==>
      exists r | r in rows ::
        r.kind in {"FUNDING_FEE", "COMMISSION"} && NeedsPrice(r.income, r.asset, Quoted(r.asset, prices), a)
  {
    if rows != [] {
      var init, last := rows[..|rows| - 1], rows[|rows| - 1];
      assert rows == init + [last];
      UnpricedIncomeExactly(init, prices, a);
      assert last in rows;
    }
  }

  lemma {:induction false} UnpricedCapitalExactly(rows: seq<CapitalRow>, prices: Prices, a: string)
    ensures a in CapitalUnpriced(rows, prices) <==>
      exists r | r in rows ::
        r.flowType == "TRADING_COMMISSION" && NeedsPrice(r.amount, r.asset, Quoted(r.asset, prices), a)
  {
    if rows != [] {
      var init, last := rows[..|rows| - 1], rows[|rows| - 1];
      assert rows == init + [last];
      UnpricedCapitalExactly(init, prices, a);
      assert last in rows;
    }
  }

  lemma {:induction false} UnpricedInterestExactly(rows: seq<InterestRow>, records: seq<RepayRecord>, prices: Prices, a: string)
    ensures a in InterestUnpriced(rows, records, prices) <==>
      exists r | r in rows :: NeedsPrice(r.interest, r.asset, SettledPrice(r, records, prices), a)
  {
    if rows != [] {
      var init, last := rows[..|rows| - 1], rows[|rows| - 1];
      assert rows == init + [last];
      UnpricedInterestExactly(init, records, prices, a);
      assert last in rows;
    }
  }

  ghost function IncompleteAt(legs: seq<Leg>, w: Window): set<int> {
    set i | 0 <= i < |legs| && (legs[i].atMs.None? || (Within(legs[i].atMs, w) && legs[i].value.None?))
  }

  ghost function UnbalancedAt(legs: seq<Leg>, w: Window): set<int> {
    set i | 0 <= i < |legs| && Within(legs[i].atMs, w) && legs[i].value.Some? && legs[i].unbalanced
  }

  /** The two footnote counts: legs without a time, or in the window without a value; and legs in the
      window with a value whose two quantities differ. */
  lemma {:induction false} FootnoteCounts(legs: seq<Leg>, w: Window)
    ensures IncompleteCount(legs, w) == |IncompleteAt(legs, w)| && UnbalancedCount(legs, w) == |UnbalancedAt(legs, w)|
  {
    if legs != [] {
      var n := |legs| - 1;
      FootnoteCounts(legs[..n], w);
      assert IncompleteAt(legs, w) == IncompleteAt(legs[..n], w) + if n in IncompleteAt(legs, w) then {n} else {};
      assert UnbalancedAt(legs, w) == UnbalancedAt(legs[..n], w) + if n in UnbalancedAt(legs, w) then {n} else {};
    }
  }
}
