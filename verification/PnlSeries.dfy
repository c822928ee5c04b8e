/** The cumulative funding PnL curve: four flows folded into time buckets, a running prefix sum,
    and points emitted only where funding was settled. Amounts are exact rationals; `None` stands
    for missing or unparseable. */
module PnlSeries {
  import opened Options
  import opened Arithmetic
  import opened RepayMatching

  datatype IncomeRow = IncomeRow(kind: string, timeMs: Option<int>, income: Option<real>, asset: Option<string>)
  datatype CapitalRow = CapitalRow(flowType: string, timeMs: Option<int>, amount: Option<real>, asset: Option<string>)
  datatype InterestRow = InterestRow(accruedMs: Option<int>, interest: Option<real>, asset: Option<string>)
  datatype Fill = Fill(
    direction: string, kind: string, spotAvg: Option<real>, perpAvg: Option<real>, qty: Option<real>,
    atMs: Option<int>, incomplete: bool, unbalanced: bool)
  datatype CloseLog = CloseLog(
    direction: string, openedAtUs: Option<int>, closedAtUs: Option<int>,
    spotOpenAvg: Option<real>, openAvg: Option<real>, openQty: Option<real>, spotOpenQty: Option<real>,
    spotCloseAvg: Option<real>, closeAvg: Option<real>, spotCloseQty: Option<real>)

  datatype Window = Window(startMs: int, endMs: int, bucketMs: int)

  predicate ValidWindow(w: Window) {
    w.startMs < w.endMs
  }

  /** One amount on its way to a bucket; it is dropped when either part is missing. */
  datatype Flow = Flow(ms: Option<int>, value: Option<real>)

  predicate Counts(f: Flow, w: Window) {
    f.ms.Some? && f.value.Some? && w.startMs <= f.ms.value <= w.endMs
  }

  function Bucket(ms: int, w: Window): int
    requires w.bucketMs > 0
  {
    ms / w.bucketMs * w.bucketMs
  }

  type Buckets = map<int, real>

  function Get(m: Buckets, b: int): real {
    if b in m then m[b] else 0.0
  }

  /** Adds one flow to its bucket when it counts. */
  function Add(m: Buckets, f: Flow, w: Window): Buckets
    requires w.bucketMs > 0
  {
    if !Counts(f, w) then m
    else var b := Bucket(f.ms.value, w); m[b := Get(m, b) + f.value.value]
  }

  function Fold(flows: seq<Flow>, w: Window): Buckets
    requires w.bucketMs > 0
  {
    if flows == [] then map[] else Add(Fold(flows[..|flows| - 1], w), flows[|flows| - 1], w)
  }

  /** The naive meaning of the curve at `t`: everything in the window bucketed at or before `t`. */
  function SumUpTo(flows: seq<Flow>, w: Window, t: int): real
    requires w.bucketMs > 0
  {
    if flows == [] then 0.0
    else
      var f := flows[|flows| - 1];
      SumUpTo(flows[..|flows| - 1], w, t) + if Counts(f, w) && Bucket(f.ms.value, w) <= t then f.value.value else 0.0
  }

  /** Everything in the window. */
  function Total(flows: seq<Flow>, w: Window): real {
    if flows == [] then 0.0
    else
      var f := flows[|flows| - 1];
      Total(flows[..|flows| - 1], w) + if Counts(f, w) then f.value.value else 0.0
  }

  // ------------------------------------------------------------------ the flows

  type Prices = map<string, real>

  /** Coin amount to USDT at the current price. */
  function ToUsdt(amount: Option<real>, asset: Option<string>, prices: Prices): Option<real> {
    InterestUsdtValue(amount, asset, None, prices)
  }

  /** The amount needed a price and had none: its asset is reported, not counted as zero. */
  function Unpriced(amount: Option<real>, asset: Option<string>, value: Option<real>): set<string> {
    if amount.Some? && amount.value != 0.0 && asset.Some? && asset.value != "" && asset.value != "USDT" && value.None?
    then {asset.value} else {}
  }

  function IncomeFlow(r: IncomeRow, prices: Prices): Flow {
    Flow(r.timeMs, ToUsdt(r.income, r.asset, prices))
  }

  function FundingFlows(rows: seq<IncomeRow>, prices: Prices): seq<Flow> {
    if rows == [] then []
    else
      var r := rows[|rows| - 1];
      var before := FundingFlows(rows[..|rows| - 1], prices);
      if r.kind == "FUNDING_FEE" then before + [IncomeFlow(r, prices)] else before
  }

  function CommissionFlows(rows: seq<IncomeRow>, prices: Prices): seq<Flow> {
    if rows == [] then []
    else
      var r := rows[|rows| - 1];
      var before := CommissionFlows(rows[..|rows| - 1], prices);
      if r.kind == "COMMISSION" then before + [IncomeFlow(r, prices)] else before
  }

  function CapitalFlows(rows: seq<CapitalRow>, prices: Prices): seq<Flow> {
    if rows == [] then []
    else
      var r := rows[|rows| - 1];
      var before := CapitalFlows(rows[..|rows| - 1], prices);
      if r.flowType == "TRADING_COMMISSION" then before + [Flow(r.timeMs, ToUsdt(r.amount, r.asset, prices))] else before
  }

  function Negated(v: Option<real>): Option<real> {
    if v.None? then None else Some(-v.value)
  }

  function InterestValue(r: InterestRow, records: seq<RepayRecord>, prices: Prices): Option<real> {
    InterestUsdtValue(r.interest, r.asset, MatchOf(records, r.asset, r.accruedMs), prices)
  }

  /** Interest is a cost: its value enters with the opposite sign. */
  function InterestFlows(rows: seq<InterestRow>, records: seq<RepayRecord>, prices: Prices): seq<Flow> {
    if rows == [] then []
    else
      var r := rows[|rows| - 1];
      InterestFlows(rows[..|rows| - 1], records, prices) + [Flow(r.accruedMs, Negated(InterestValue(r, records, prices)))]
  }

  /** Sold average minus bought average, times the quantity; `None` when any part is missing. */
  function SlippagePnl(direction: string, kind: string, spot: Option<real>, perp: Option<real>, qty: Option<real>): Option<real> {
    if spot.None? || perp.None? || qty.None? then None
    else if spot.value <= 0.0 || perp.value <= 0.0 || qty.value <= 0.0 then None
    else if kind == "open" then
      Some(Times(if direction == "forward" then perp.value - spot.value else spot.value - perp.value, qty.value))
    else if kind == "close" then
      Some(Times(if direction == "forward" then spot.value - perp.value else perp.value - spot.value, qty.value))
    else None
  }

  /** One leg pair whose slippage is due: when it happened, its value if it can be computed, and
      whether its two quantities differ. */
  datatype Leg = Leg(atMs: Option<int>, value: Option<real>, unbalanced: bool)

  function FillLeg(f: Fill): Leg {
    Leg(f.atMs, if f.incomplete then None else SlippagePnl(f.direction, f.kind, f.spotAvg, f.perpAvg, f.qty), f.unbalanced)
  }

  function Micros(us: Option<int>): Option<int> {
    if us.None? then None else Some(us.value / 1000)
  }

  function OpenLeg(c: CloseLog): Leg {
    Leg(Micros(c.openedAtUs), SlippagePnl(c.direction, "open", c.spotOpenAvg, c.openAvg, c.openQty), c.openQty != c.spotOpenQty)
  }

  function CloseLeg(c: CloseLog): Leg {
    Leg(Micros(c.closedAtUs), SlippagePnl(c.direction, "close", c.spotCloseAvg, c.closeAvg, c.spotCloseQty), false)
  }

  function FillLegs(fills: seq<Fill>): (r: seq<Leg>)
    ensures |r| == |fills|
  {
    seq(|fills|, i requires 0 <= i < |fills| => FillLeg(fills[i]))
  }

  function LogLegs(logs: seq<CloseLog>): seq<Leg> {
    if logs == [] then []
    else LogLegs(logs[..|logs| - 1]) + [OpenLeg(logs[|logs| - 1]), CloseLeg(logs[|logs| - 1])]
  }

  /** A leg known to lie outside the window is neither counted nor reported. */
  predicate OutsideWindow(l: Leg, w: Window) {
    l.atMs.Some? && !(w.startMs <= l.atMs.value <= w.endMs)
  }

  predicate Computable(l: Leg) {
    l.value.Some? && l.atMs.Some?
  }

  function SlipFlows(legs: seq<Leg>): (r: seq<Flow>)
    ensures |r| == |legs| && forall i | 0 <= i < |legs| :: r[i] == Flow(legs[i].atMs, legs[i].value)
  {
    seq(|legs|, i requires 0 <= i < |legs| => Flow(legs[i].atMs, legs[i].value))
  }

  /** Legs due but not computable. */
  function IncompleteCount(legs: seq<Leg>, w: Window): nat {
    if legs == [] then 0
    else
      var l := legs[|legs| - 1];
      IncompleteCount(legs[..|legs| - 1], w) + if !OutsideWindow(l, w) && !Computable(l) then 1 else 0
  }

  function UnbalancedCount(legs: seq<Leg>, w: Window): nat {
    if legs == [] then 0
    else
      var l := legs[|legs| - 1];
      UnbalancedCount(legs[..|legs| - 1], w) + if !OutsideWindow(l, w) && Computable(l) && l.unbalanced then 1 else 0
  }

  // ------------------------------------------------------- buckets against sums

  lemma FoldSnoc(flows: seq<Flow>, f: Flow, w: Window)
    requires w.bucketMs > 0
    ensures Fold(flows + [f], w) == Add(Fold(flows, w), f, w)
  {
    assert (flows + [f])[..|flows|] == flows;
  }

  predicate OnGrid(t: int, w: Window)
    requires w.bucketMs > 0
  {
    t == t / w.bucketMs * w.bucketMs
  }

  lemma GridPoint(k: int, w: Window)
    requires w.bucketMs > 0
    ensures OnGrid(k * w.bucketMs, w)
  {
    DivModUnique(k * w.bucketMs, w.bucketMs, k, 0);
  }

  /** The bucket of an in-window event overlaps the window, so no bucket is ever filtered out. */
  lemma BucketMeetsWindow(ms: int, w: Window)
    requires w.bucketMs > 0 && w.startMs <= ms <= w.endMs
    ensures Bucket(ms, w) + w.bucketMs > w.startMs && Bucket(ms, w) <= w.endMs
    ensures OnGrid(Bucket(ms, w), w)
  {
    GridPoint(ms / w.bucketMs, w);
    assert ms == ms / w.bucketMs * w.bucketMs + ms % w.bucketMs;
  }

  ghost predicate Gridded(m: Buckets, w: Window)
    requires w.bucketMs > 0
  {
    forall b | b in m :: OnGrid(b, w) && b + w.bucketMs > w.startMs && b <= w.endMs
  }

  lemma {:induction false} FoldGridded(flows: seq<Flow>, w: Window)
    requires w.bucketMs > 0
    ensures Gridded(Fold(flows, w), w)
  {
    if flows != [] {
      var f := flows[|flows| - 1];
      FoldGridded(flows[..|flows| - 1], w);
      if Counts(f, w) {
        BucketMeetsWindow(f.ms.value, w);
      }
    }
  }

  /** The running sum of a bucket map along `k` grid steps from `lo`. */
  function Running(m: Buckets, lo: int, k: nat, w: Window): real {
    if k == 0 then 0.0 else Running(m, lo, k - 1, w) + Get(m, lo + (k - 1) * w.bucketMs)
  }

  lemma {:induction false} RunningAdd(m: Buckets, lo: int, k: nat, w: Window, i: int, v: real)
    requires w.bucketMs > 0 && 0 <= i
    ensures
      var b := lo + i * w.bucketMs;
      Running(m[b := Get(m, b) + v], lo, k, w) == Running(m, lo, k, w) + if i < k then v else 0.0
  {
    if k > 0 {
      RunningAdd(m, lo, k - 1, w, i, v);
      if i < k - 1 {
        MulMono(i + 1, k - 1, w.bucketMs);
      } else if i > k - 1 {
        MulMono(k, i, w.bucketMs);
      }
    }
  }

  /** Grid steps between two grid points. */
  lemma GridSteps(lo: int, b: int, w: Window) returns (i: int)
    requires w.bucketMs > 0 && OnGrid(lo, w) && OnGrid(b, w)
    ensures b == lo + i * w.bucketMs
    ensures lo <= b ==> i >= 0
  {
    i := b / w.bucketMs - lo / w.bucketMs;
    assert i * w.bucketMs == b - lo;
    if i < 0 {
      MulMono(i, -1, w.bucketMs);
    }
  }

  /** The running bucket sum is the naive sum over events. */
  lemma {:induction false} RunningIsSum(flows: seq<Flow>, w: Window, lo: int, k: nat)
    requires w.bucketMs > 0 && OnGrid(lo, w)
    requires forall b | b in Fold(flows, w) :: lo <= b
    ensures Running(Fold(flows, w), lo, k, w) == SumUpTo(flows, w, lo + (k - 1) * w.bucketMs)
  {
    if flows == [] {
      RunningEmpty(lo, k, w);
    } else {
      var n := |flows| - 1;
      var f := flows[n];
      var before := Fold(flows[..n], w);
      if Counts(f, w) {
        var b := Bucket(f.ms.value, w);
        assert b in Fold(flows, w);
        assert forall c | c in before :: c in Fold(flows, w);
        BucketMeetsWindow(f.ms.value, w);
        var i := GridSteps(lo, b, w);
        RunningAdd(before, lo, k, w, i, f.value.value);
        if i < k {
          MulMono(i, k - 1, w.bucketMs);
        } else {
          MulMono(k - 1 + 1, i, w.bucketMs);
        }
      }
      RunningIsSum(flows[..n], w, lo, k);
    }
  }

  lemma {:induction false} RunningEmpty(lo: int, k: nat, w: Window)
    ensures Running(map[], lo, k, w) == 0.0
  {
    if k > 0 {
      RunningEmpty(lo, k - 1, w);
    }
  }

  /** Once every bucket is reached, the running sum is the window total. */
  lemma {:induction false} SumAllIsTotal(flows: seq<Flow>, w: Window, hi: int)
    requires w.bucketMs > 0
    requires forall b | b in Fold(flows, w) :: b <= hi
    ensures SumUpTo(flows, w, hi) == Total(flows, w)
  {
    if flows != [] {
      var n := |flows| - 1;
      var f := flows[n];
      if Counts(f, w) {
        assert Bucket(f.ms.value, w) in Fold(flows, w);
      }
      forall c | c in Fold(flows[..n], w) ensures c <= hi {
        assert c in Fold(flows, w);
      }
      SumAllIsTotal(flows[..n], w, hi);
    }
  }

  /** Window totals add up over adjacent windows. */
  lemma {:induction false} AdjacentWindowsAddUp(flows: seq<Flow>, start: int, mid: int, end: int, bucketMs: int)
    requires start <= mid < end
    ensures Total(flows, Window(start, end, bucketMs))
         == Total(flows, Window(start, mid, bucketMs)) + Total(flows, Window(mid + 1, end, bucketMs))
  {
    if flows != [] {
      AdjacentWindowsAddUp(flows[..|flows| - 1], start, mid, end, bucketMs);
    }
  }

  // -------------------------------------------------------------- folding loops

  function IncomeUnpriced(rows: seq<IncomeRow>, prices: Prices): set<string> {
    if rows == [] then {}
    else
      var r := rows[|rows| - 1];
      IncomeUnpriced(rows[..|rows| - 1], prices)
      + if r.kind in {"FUNDING_FEE", "COMMISSION"} then Unpriced(r.income, r.asset, ToUsdt(r.income, r.asset, prices)) else {}
  }

  method FoldIncome(rows: seq<IncomeRow>, prices: Prices, w: Window)
    returns (funding: Buckets, fees: Buckets, unpriced: set<string>)
    requires w.bucketMs > 0
    ensures funding == Fold(FundingFlows(rows, prices), w)
    ensures fees == Fold(CommissionFlows(rows, prices), w)
    ensures unpriced == IncomeUnpriced(rows, prices)
  {
    funding, fees, unpriced := map[], map[], {};
    for i := 0 to |rows|
      invariant funding == Fold(FundingFlows(rows[..i], prices), w)
      invariant fees == Fold(CommissionFlows(rows[..i], prices), w)
      invariant unpriced == IncomeUnpriced(rows[..i], prices)
    {
      var r := rows[i];
      assert rows[..i + 1][..i] == rows[..i];
      var flow := IncomeFlow(r, prices);
      if r.kind == "FUNDING_FEE" {
        FoldSnoc(FundingFlows(rows[..i], prices), flow, w);
        funding := Add(funding, flow, w);
        unpriced := unpriced + Unpriced(r.income, r.asset, flow.value);
      } else if r.kind == "COMMISSION" {
        FoldSnoc(CommissionFlows(rows[..i], prices), flow, w);
        fees := Add(fees, flow, w);
        unpriced := unpriced + Unpriced(r.income, r.asset, flow.value);
      }
    }
    assert rows[..|rows|] == rows;
  }

  function CapitalUnpriced(rows: seq<CapitalRow>, prices: Prices): set<string> {
    if rows == [] then {}
    else
      var r := rows[|rows| - 1];
      CapitalUnpriced(rows[..|rows| - 1], prices)
      + if r.flowType == "TRADING_COMMISSION" then Unpriced(r.amount, r.asset, ToUsdt(r.amount, r.asset, prices)) else {}
  }

  lemma {:induction false} CapitalSnoc(rows: seq<CapitalRow>, i: nat, prices: Prices)
    requires i < |rows|
    ensures
      var r := rows[i];
      var flow := Flow(r.timeMs, ToUsdt(r.amount, r.asset, prices));
      && CapitalFlows(rows[..i + 1], prices) ==
           (if r.flowType == "TRADING_COMMISSION" then CapitalFlows(rows[..i], prices) + [flow]
            else CapitalFlows(rows[..i], prices))
      && CapitalUnpriced(rows[..i + 1], prices) ==
           (if r.flowType == "TRADING_COMMISSION"
            then CapitalUnpriced(rows[..i], prices) + Unpriced(r.amount, r.asset, flow.value)
            else CapitalUnpriced(rows[..i], prices))
  {
    assert rows[..i + 1][..i] == rows[..i];
  }

  lemma {:induction false} FoldOnto(base: seq<Flow>, before: seq<Flow>, flow: Flow, w: Window)
    requires w.bucketMs > 0
    ensures Fold(base + (before + [flow]), w) == Add(Fold(base + before, w), flow, w)
  {
    assert (base + before) + [flow] == base + (before + [flow]);
    FoldSnoc(base + before, flow, w);
  }

  method FoldCapital(rows: seq<CapitalRow>, prices: Prices, w: Window, fees0: Buckets, ghost base: seq<Flow>)
    returns (fees: Buckets, unpriced: set<string>)
    requires w.bucketMs > 0 && fees0 == Fold(base, w)
    ensures fees == Fold(base + CapitalFlows(rows, prices), w)
    ensures unpriced == CapitalUnpriced(rows, prices)
  {
    fees, unpriced := fees0, {};
    assert base + [] == base;
    for i := 0 to |rows|
      invariant fees == Fold(base + CapitalFlows(rows[..i], prices), w)
      invariant unpriced == CapitalUnpriced(rows[..i], prices)
    {
      var r := rows[i];
      CapitalSnoc(rows, i, prices);
      if r.flowType == "TRADING_COMMISSION" {
        var flow := Flow(r.timeMs, ToUsdt(r.amount, r.asset, prices));
        FoldOnto(base, CapitalFlows(rows[..i], prices), flow, w);
        fees := Add(fees, flow, w);
        unpriced := unpriced + Unpriced(r.amount, r.asset, flow.value);
      }
    }
    assert rows[..|rows|] == rows;
  }

  function InterestUnpriced(rows: seq<InterestRow>, records: seq<RepayRecord>, prices: Prices): set<string> {
    if rows == [] then {}
    else
      var r := rows[|rows| - 1];
      InterestUnpriced(rows[..|rows| - 1], records, prices)
      + Unpriced(r.interest, r.asset, InterestValue(r, records, prices))
  }

  method FoldInterest(rows: seq<InterestRow>, records: seq<RepayRecord>, prices: Prices, w: Window)
    returns (interest: Buckets, unpriced: set<string>)
    requires w.bucketMs > 0
    ensures interest == Fold(InterestFlows(rows, records, prices), w)
    ensures unpriced == InterestUnpriced(rows, records, prices)
  {
    var index := BuildRepayMatchIndex(records);
    interest, unpriced := map[], {};
    for i := 0 to |rows|
      invariant interest == Fold(InterestFlows(rows[..i], records, prices), w)
      invariant unpriced == InterestUnpriced(rows[..i], records, prices)
    {
      var r := rows[i];
      assert rows[..i + 1][..i] == rows[..i];
      var matched := MatchInterestRepay(r.asset, r.accruedMs, index, records);
      var value := InterestUsdtValue(r.interest, r.asset, matched, prices);
      FoldSnoc(InterestFlows(rows[..i], records, prices), Flow(r.accruedMs, Negated(value)), w);
      unpriced := unpriced + Unpriced(r.interest, r.asset, value);
      interest := Add(interest, Flow(r.accruedMs, Negated(value)), w);
    }
    assert rows[..|rows|] == rows;
  }

  datatype Slippage = Slippage(slip: Buckets, incomplete: nat, unbalanced: nat)

  function SlippageOf(legs: seq<Leg>, w: Window): Slippage
    requires w.bucketMs > 0
  {
    Slippage(Fold(SlipFlows(legs), w), IncompleteCount(legs, w), UnbalancedCount(legs, w))
  }

  /** What one leg does to the running slippage. */
  function AddLeg(s: Slippage, l: Leg, w: Window): Slippage
    requires w.bucketMs > 0
  {
    if OutsideWindow(l, w) then s
    else if !Computable(l) then s.(incomplete := s.incomplete + 1)
    else Slippage(Add(s.slip, Flow(l.atMs, l.value), w), s.incomplete, if l.unbalanced then s.unbalanced + 1 else s.unbalanced)
  }

  lemma SlippageSnoc(legs: seq<Leg>, l: Leg, w: Window)
    requires w.bucketMs > 0
    ensures SlippageOf(legs + [l], w) == AddLeg(SlippageOf(legs, w), l, w)
  {
    assert (legs + [l])[..|legs|] == legs;
    assert SlipFlows(legs + [l]) == SlipFlows(legs) + [Flow(l.atMs, l.value)];
    FoldSnoc(SlipFlows(legs), Flow(l.atMs, l.value), w);
  }

  method FoldSlippage(fills: seq<Fill>, logs: seq<CloseLog>, w: Window) returns (s: Slippage)
    requires w.bucketMs > 0
    ensures s == SlippageOf(FillLegs(fills) + LogLegs(logs), w)
  {
    s := Slippage(map[], 0, 0);
    assert SlipFlows([]) == [];
    for i := 0 to |fills|
      invariant s == SlippageOf(FillLegs(fills[..i]), w)
    {
      assert FillLegs(fills[..i + 1]) == FillLegs(fills[..i]) + [FillLeg(fills[i])];
      SlippageSnoc(FillLegs(fills[..i]), FillLeg(fills[i]), w);
      s := AddLeg(s, FillLeg(fills[i]), w);
    }
    assert fills[..|fills|] == fills;
    ghost var base := FillLegs(fills);
    assert base + [] == base;
    for i := 0 to |logs|
      invariant s == SlippageOf(base + LogLegs(logs[..i]), w)
    {
      assert logs[..i + 1][..i] == logs[..i];
      var entry, exit := OpenLeg(logs[i]), CloseLeg(logs[i]);
      ghost var before := base + LogLegs(logs[..i]);
      assert base + LogLegs(logs[..i + 1]) == (before + [entry]) + [exit];
      SlippageSnoc(before, entry, w);
      SlippageSnoc(before + [entry], exit, w);
      s := AddLeg(AddLeg(s, entry, w), exit, w);
    }
    assert logs[..|logs|] == logs;
  }

  // -------------------------------------------------------------- emitted points

  datatype Point = Point(t: int, funding: real, fees: real, interest: real, slippage: real, net: real, partial: bool)

  datatype Totals = Totals(funding: real, fees: real, interest: real, slippage: real, net: real)

  datatype Series = Series(points: seq<Point>, totals: Option<Totals>, unpriced: set<string>, incomplete: nat, unbalanced: nat)

  /** The four flow lists of one call. */
  datatype Flows = Flows(funding: seq<Flow>, fees: seq<Flow>, interest: seq<Flow>, slippage: seq<Flow>)

  datatype Maps = Maps(funding: Buckets, fees: Buckets, interest: Buckets, slippage: Buckets)

  function FoldAll(fl: Flows, w: Window): Maps
    requires w.bucketMs > 0
  {
    Maps(Fold(fl.funding, w), Fold(fl.fees, w), Fold(fl.interest, w), Fold(fl.slippage, w))
  }

  function Keys(m: Maps): set<int> {
    m.funding.Keys + m.fees.Keys + m.interest.Keys + m.slippage.Keys
  }

  /** A point tells the truth about every event bucketed at or before it. */
  ghost predicate PointOk(p: Point, fl: Flows, w: Window, spotStart: Option<int>)
    requires w.bucketMs > 0
  {
    && p.funding == SumUpTo(fl.funding, w, p.t)
    && p.fees == SumUpTo(fl.fees, w, p.t)
    && p.interest == SumUpTo(fl.interest, w, p.t)
    && p.slippage == SumUpTo(fl.slippage, w, p.t)
    && p.net == p.funding + p.fees + p.interest + p.slippage
    && (p.partial <==> spotStart.None? || p.t < spotStart.value)
  }

  function Step(cum: Totals, m: Maps, t: int): Totals {
    var f, c, i, s := cum.funding + Get(m.funding, t), cum.fees + Get(m.fees, t),
                      cum.interest + Get(m.interest, t), cum.slippage + Get(m.slippage, t);
    Totals(f, c, i, s, f + c + i + s)
  }

  function RunningAll(m: Maps, lo: int, k: nat, w: Window): Totals {
    var f, c, i, s := Running(m.funding, lo, k, w), Running(m.fees, lo, k, w),
                      Running(m.interest, lo, k, w), Running(m.slippage, lo, k, w);
    Totals(f, c, i, s, f + c + i + s)
  }

  lemma RunningAllIsSum(fl: Flows, w: Window, lo: int, k: nat)
    requires w.bucketMs > 0 && OnGrid(lo, w)
    requires forall b | b in Keys(FoldAll(fl, w)) :: lo <= b
    ensures
      var r := RunningAll(FoldAll(fl, w), lo, k + 1, w);
      var t := lo + k * w.bucketMs;
      && r.funding == SumUpTo(fl.funding, w, t) && r.fees == SumUpTo(fl.fees, w, t)
      && r.interest == SumUpTo(fl.interest, w, t) && r.slippage == SumUpTo(fl.slippage, w, t)
  {
    var m := FoldAll(fl, w);
    forall b | b in m.funding || b in m.fees || b in m.interest || b in m.slippage ensures lo <= b {
      assert b in Keys(m);
    }
    RunningIsSum(fl.funding, w, lo, k + 1);
    RunningIsSum(fl.fees, w, lo, k + 1);
    RunningIsSum(fl.interest, w, lo, k + 1);
    RunningIsSum(fl.slippage, w, lo, k + 1);
  }

  ghost predicate At(points: seq<Point>, i: int, b: int) {
    1 <= i < |points| && points[i].t == b
  }

  /** After the zero origin: true points, times rising, at exactly the times in `emit`. */
  ghost predicate Curve(points: seq<Point>, fl: Flows, w: Window, spotStart: Option<int>, emit: set<int>)
    requires w.bucketMs > 0
  {
    && points != []
    && (forall i | 1 <= i < |points| :: PointOk(points[i], fl, w, spotStart) && points[i].t in emit)
    && (forall i, j | 1 <= i < j < |points| :: points[i].t < points[j].t)
    && (forall b | b in emit :: exists i :: At(points, i, b))
  }

  lemma CurveSnoc(points: seq<Point>, p: Point, fl: Flows, w: Window, spotStart: Option<int>, emit: set<int>)
    requires w.bucketMs > 0 && Curve(points, fl, w, spotStart, emit)
    requires PointOk(p, fl, w, spotStart) && forall b | b in emit :: b < p.t
    ensures Curve(points + [p], fl, w, spotStart, emit + {p.t})
  {
    forall b | b in emit + {p.t} ensures exists i :: At(points + [p], i, b) {
      if b in emit {
        var i :| At(points, i, b);
        assert At(points + [p], i, b);
      } else {
        assert At(points + [p], |points|, b);
      }
    }
  }

  lemma EmitSplit(emit: set<int>, t: int, next: int)
    requires forall b | b in emit && t <= b < next :: b == t
    requires t < next
    ensures (set b | b in emit && b < next) == (set b | b in emit && b < t) + if t in emit then {t} else {}
  {
  }

  lemma NextOnGrid(t: int, b: int, w: Window)
    requires w.bucketMs > 0 && OnGrid(t, w) && OnGrid(b, w) && t <= b < t + w.bucketMs
    ensures b == t
  {
    var i := GridSteps(t, b, w);
    if i > 0 {
      MulMono(1, i, w.bucketMs);
    }
  }

  /** The emission times below `t`. */
  ghost function Before(emit: set<int>, t: int): set<int> {
    set b | b in emit && b < t
  }

  lemma StepTime(emit: set<int>, t: int, hi: int, w: Window)
    requires w.bucketMs > 0 && OnGrid(t, w) && OnGrid(hi, w) && t <= hi
    requires forall b | b in emit :: OnGrid(b, w)
    ensures OnGrid(t + w.bucketMs, w)
    ensures Before(emit, t + w.bucketMs) == Before(emit, t) + if t in emit then {t} else {}
    ensures hi < t + w.bucketMs ==> hi == t
  {
    forall b | b in emit && t <= b < t + w.bucketMs ensures b == t {
      NextOnGrid(t, b, w);
    }
    EmitSplit(emit, t, t + w.bucketMs);
    if hi < t + w.bucketMs {
      NextOnGrid(t, hi, w);
    }
    NextGridTime(t, w);
  }

  lemma NextGridTime(t: int, w: Window)
    requires w.bucketMs > 0 && OnGrid(t, w)
    ensures OnGrid(t + w.bucketMs, w)
  {
    GridPoint(t / w.bucketMs + 1, w);
  }

  /** Totals that are true of the flows at `t`. */
  ghost predicate TotalsAt(c: Totals, fl: Flows, w: Window, t: int)
    requires w.bucketMs > 0
  {
    && c.funding == SumUpTo(fl.funding, w, t) && c.fees == SumUpTo(fl.fees, w, t)
    && c.interest == SumUpTo(fl.interest, w, t) && c.slippage == SumUpTo(fl.slippage, w, t)
    && c.net == c.funding + c.fees + c.interest + c.slippage
  }

  lemma StepTotals(cum: Totals, m: Maps, fl: Flows, w: Window, lo: int, k: nat)
    requires w.bucketMs > 0 && m == FoldAll(fl, w) && OnGrid(lo, w)
    requires forall b | b in Keys(m) :: lo <= b
    requires cum == RunningAll(m, lo, k, w)
    ensures Step(cum, m, lo + k * w.bucketMs) == RunningAll(m, lo, k + 1, w)
    ensures TotalsAt(RunningAll(m, lo, k + 1, w), fl, w, lo + k * w.bucketMs)
  {
    RunningAllIsSum(fl, w, lo, k);
  }

  function Emitted(points: seq<Point>, cum: Totals, spotStart: Option<int>, emit: set<int>, t: int): seq<Point> {
    if t in emit then
      points + [Point(t, cum.funding, cum.fees, cum.interest, cum.slippage, cum.net,
                      spotStart.None? || t < spotStart.value)]
    else points
  }

  ghost predicate CurveUpTo(points: seq<Point>, fl: Flows, w: Window, spotStart: Option<int>, emit: set<int>, t: int)
    requires w.bucketMs > 0
  {
    Curve(points, fl, w, spotStart, Before(emit, t))
  }

  /** One grid step of the curve. */
  lemma CurveNext(points: seq<Point>, cum: Totals, fl: Flows, w: Window, spotStart: Option<int>, emit: set<int>, t: int, hi: int)
    requires w.bucketMs > 0 && OnGrid(t, w) && OnGrid(hi, w) && t <= hi && hi in emit
    requires forall b | b in emit :: OnGrid(b, w)
    requires CurveUpTo(points, fl, w, spotStart, emit, t) && TotalsAt(cum, fl, w, t)
    ensures OnGrid(t + w.bucketMs, w)
    ensures
      var next := Emitted(points, cum, spotStart, emit, t);
      && CurveUpTo(next, fl, w, spotStart, emit, t + w.bucketMs) && next[0] == points[0]
      && (hi < t + w.bucketMs ==> |next| > 1 && next[|next| - 1].t == hi)
  {
    StepTime(emit, t, hi, w);
    if t in emit {
      var next := Emitted(points, cum, spotStart, emit, t);
      CurveSnoc(points, next[|points|], fl, w, spotStart, Before(emit, t));
    }
  }

  /** `k` steps into the walk, at time `t`: the totals run, and the curve is true before `t`. */
  ghost predicate Walked(points: seq<Point>, cum: Totals, m: Maps, fl: Flows, w: Window, spotStart: Option<int>,
                         emit: set<int>, lo: int, hi: int, t: int, k: nat)
    requires w.bucketMs > 0
  {
    && OnGrid(t, w) && lo <= t == lo + k * w.bucketMs
    && cum == RunningAll(m, lo, k, w)
    && CurveUpTo(points, fl, w, spotStart, emit, t)
    && points[0] == Point(lo - w.bucketMs, 0.0, 0.0, 0.0, 0.0, 0.0, true)
    && (hi < t ==> |points| > 1 && points[|points| - 1].t == hi)
  }

  lemma WalkNext(points: seq<Point>, cum: Totals, m: Maps, fl: Flows, w: Window, spotStart: Option<int>,
                 emit: set<int>, lo: int, hi: int, t: int, k: nat)
    requires w.bucketMs > 0 && m == FoldAll(fl, w) && OnGrid(lo, w) && OnGrid(hi, w) && hi in emit
    requires forall b | b in emit :: OnGrid(b, w)
    requires forall b | b in Keys(m) :: lo <= b
    requires Walked(points, cum, m, fl, w, spotStart, emit, lo, hi, t, k) && t <= hi
    ensures
      var next := Step(cum, m, t);
      Walked(Emitted(points, next, spotStart, emit, t), next, m, fl, w, spotStart, emit, lo, hi, t + w.bucketMs, k + 1)
  {
    StepTotals(cum, m, fl, w, lo, k);
    CurveNext(points, Step(cum, m, t), fl, w, spotStart, emit, t, hi);
  }

  /** Walks the grid from `lo` to `hi`, keeping the running totals, and emits a point at every
      time in `emit`. */
  method EmitPoints(m: Maps, lo: int, hi: int, emit: set<int>, spotStart: Option<int>, w: Window, ghost fl: Flows)
    returns (points: seq<Point>)
    requires w.bucketMs > 0 && m == FoldAll(fl, w)
    requires OnGrid(lo, w) && OnGrid(hi, w) && lo <= hi && hi in emit
    requires forall b | b in emit :: OnGrid(b, w) && lo <= b <= hi
    requires forall b | b in Keys(m) :: lo <= b
    ensures Curve(points, fl, w, spotStart, emit)
    ensures points[0] == Point(lo - w.bucketMs, 0.0, 0.0, 0.0, 0.0, 0.0, true)
    ensures |points| > 1 && points[|points| - 1].t == hi
  {
    points := [Point(lo - w.bucketMs, 0.0, 0.0, 0.0, 0.0, 0.0, true)];
    var cum := Totals(0.0, 0.0, 0.0, 0.0, 0.0);
    var t := lo;
    ghost var k: nat := 0;
    while t <= hi
      invariant Walked(points, cum, m, fl, w, spotStart, emit, lo, hi, t, k)
      decreases hi - t
    {
      WalkNext(points, cum, m, fl, w, spotStart, emit, lo, hi, t, k);
      cum := Step(cum, m, t);
      points := Emitted(points, cum, spotStart, emit, t);
      t := t + w.bucketMs;
      k := k + 1;
    }
    assert Before(emit, t) == emit;
  }

  // ------------------------------------------------------------------ the series

  datatype Inputs = Inputs(
    interest: seq<InterestRow>, income: seq<IncomeRow>, capital: seq<CapitalRow>,
    logs: seq<CloseLog>, fills: seq<Fill>, records: seq<RepayRecord>, prices: Prices)

  function FlowsOf(inp: Inputs): Flows {
    Flows(FundingFlows(inp.income, inp.prices),
          CommissionFlows(inp.income, inp.prices) + CapitalFlows(inp.capital, inp.prices),
          InterestFlows(inp.interest, inp.records, inp.prices),
          SlipFlows(Legs(inp)))
  }

  function Legs(inp: Inputs): seq<Leg> {
    FillLegs(inp.fills) + LogLegs(inp.logs)
  }

  /** Earliest time any spot flow is on record. */
  function SpotStart(rows: seq<CapitalRow>): Option<int> {
    if rows == [] then None
    else
      var before := SpotStart(rows[..|rows| - 1]);
      var ms := rows[|rows| - 1].timeMs;
      if ms.None? then before
      else if before.Some? && before.value <= ms.value then before
      else ms
  }

  lemma AnyOf<T>(s: set<T>) returns (x: T)
    requires s != {}
    ensures x in s
  {
    x :| x in s;
  }

  lemma {:induction false} MinExists(s: set<int>) returns (m: int)
    requires s != {}
    ensures m in s && forall y | y in s :: m <= y
  {
    var x := AnyOf(s);
    if s == {x} {
      m := x;
    } else {
      var r := MinExists(s - {x});
      m := if x <= r then x else r;
      forall y | y in s ensures m <= y {
        assert y == x || y in s - {x};
      }
    }
  }

  lemma MaxExists(s: set<int>) returns (m: int)
    requires s != {}
    ensures m in s && forall y | y in s :: y <= m
  {
    var neg := set y | y in s :: -y;
    var x := MinExists(s);
    assert -x in neg;
    var r := MinExists(neg);
    m := -r;
    forall y | y in s ensures y <= m {
      assert -y in neg;
    }
  }

  function MinOf(s: set<int>): (m: int)
    requires s != {}
    ensures m in s && forall y | y in s :: m <= y
  {
    assert exists m :: m in s && forall y | y in s :: m <= y by {
      var m := MinExists(s);
    }
    var m :| m in s && forall y | y in s :: m <= y;
    m
  }

  function MaxOf(s: set<int>): (m: int)
    requires s != {}
    ensures m in s && forall y | y in s :: y <= m
  {
    assert exists m :: m in s && forall y | y in s :: y <= m by {
      var m := MaxExists(s);
    }
    var m :| m in s && forall y | y in s :: y <= m;
    m
  }

  function TotalsOf(fl: Flows, w: Window): Totals {
    var f, c, i, s := Total(fl.funding, w), Total(fl.fees, w), Total(fl.interest, w), Total(fl.slippage, w);
    Totals(f, c, i, s, f + c + i + s)
  }

  /** What the returned series promises. */
  ghost predicate SeriesOk(r: Series, inp: Inputs, w: Window)
    requires w.bucketMs > 0
  {
    var fl := FlowsOf(inp);
    var m := FoldAll(fl, w);
    && r.unpriced == IncomeUnpriced(inp.income, inp.prices) + CapitalUnpriced(inp.capital, inp.prices)
                     + InterestUnpriced(inp.interest, inp.records, inp.prices)
    && r.incomplete == IncompleteCount(Legs(inp), w)
    && r.unbalanced == UnbalancedCount(Legs(inp), w)
    && Reports(r.totals, fl, w)
    && (Keys(m) == {} ==> r.points == [])
    && (Keys(m) != {} ==>
          && Curve(r.points, fl, w, SpotStart(inp.capital), m.funding.Keys + {MaxOf(Keys(m))})
          && r.points[0] == Point(MinOf(Keys(m)) - w.bucketMs, 0.0, 0.0, 0.0, 0.0, 0.0, true))
  }

  /** The totals reported: those of all in-window events, absent when no event is bucketed. */
  ghost predicate Reports(totals: Option<Totals>, fl: Flows, w: Window)
    requires w.bucketMs > 0
  {
    totals == if Keys(FoldAll(fl, w)) == {} then None else Some(TotalsOf(fl, w))
  }

  lemma AllKeysInWindow(fl: Flows, w: Window)
    requires w.bucketMs > 0
    ensures forall b | b in Keys(FoldAll(fl, w)) :: OnGrid(b, w) && b + w.bucketMs > w.startMs && b <= w.endMs
  {
    FoldGridded(fl.funding, w);
    FoldGridded(fl.fees, w);
    FoldGridded(fl.interest, w);
    FoldGridded(fl.slippage, w);
  }

  lemma TotalsAtLast(fl: Flows, w: Window, hi: int)
    requires w.bucketMs > 0 && forall b | b in Keys(FoldAll(fl, w)) :: b <= hi
    ensures SumUpTo(fl.funding, w, hi) == Total(fl.funding, w) && SumUpTo(fl.fees, w, hi) == Total(fl.fees, w)
    ensures SumUpTo(fl.interest, w, hi) == Total(fl.interest, w) && SumUpTo(fl.slippage, w, hi) == Total(fl.slippage, w)
  {
    var m := FoldAll(fl, w);
    forall b | b in m.funding || b in m.fees || b in m.interest || b in m.slippage ensures b <= hi {
      assert b in Keys(m);
    }
    SumAllIsTotal(fl.funding, w, hi);
    SumAllIsTotal(fl.fees, w, hi);
    SumAllIsTotal(fl.interest, w, hi);
    SumAllIsTotal(fl.slippage, w, hi);
  }

  lemma EmitFacts(fl: Flows, w: Window)
    requires w.bucketMs > 0 && Keys(FoldAll(fl, w)) != {}
    ensures
      var m := FoldAll(fl, w);
      var lo, hi := MinOf(Keys(m)), MaxOf(Keys(m));
      && OnGrid(lo, w) && OnGrid(hi, w) && lo <= hi
      && (forall b | b in m.funding.Keys + {hi} :: OnGrid(b, w) && lo <= b <= hi)
      && (forall b | b in Keys(m) :: lo <= b <= hi)
  {
    AllKeysInWindow(fl, w);
    var m := FoldAll(fl, w);
    forall b | b in m.funding.Keys ensures b in Keys(m) {}
  }

  /** The curve from the folded buckets; the window filter on buckets never removes one. */
  method CurveOf(m: Maps, spotStart: Option<int>, w: Window, ghost fl: Flows) returns (points: seq<Point>, totals: Option<Totals>)
    requires w.bucketMs > 0 && m == FoldAll(fl, w)
    ensures Keys(m) == {} ==> points == [] && totals == None
    ensures Keys(m) != {} ==>
      && Curve(points, fl, w, spotStart, m.funding.Keys + {MaxOf(Keys(m))})
      && points[0] == Point(MinOf(Keys(m)) - w.bucketMs, 0.0, 0.0, 0.0, 0.0, 0.0, true)
      && totals == Some(TotalsOf(fl, w))
  {
    AllKeysInWindow(fl, w);
    var buckets := set b | b in Keys(m) && b + w.bucketMs > w.startMs && b <= w.endMs;
    assert buckets == Keys(m);
    if buckets == {} {
      return [], None;
    }
    points, totals := NonEmptyCurve(m, buckets, spotStart, w, fl);
  }

  lemma LastPointIsTotal(points: seq<Point>, fl: Flows, w: Window, spotStart: Option<int>, emit: set<int>, hi: int)
    requires w.bucketMs > 0 && Curve(points, fl, w, spotStart, emit)
    requires |points| > 1 && points[|points| - 1].t == hi
    requires forall b | b in Keys(FoldAll(fl, w)) :: b <= hi
    ensures
      var last := points[|points| - 1];
      Totals(last.funding, last.fees, last.interest, last.slippage, last.net) == TotalsOf(fl, w)
  {
    TotalsAtLast(fl, w, hi);
    assert PointOk(points[|points| - 1], fl, w, spotStart);
  }

  method NonEmptyCurve(m: Maps, buckets: set<int>, spotStart: Option<int>, w: Window, ghost fl: Flows)
    returns (points: seq<Point>, totals: Option<Totals>)
    requires w.bucketMs > 0 && m == FoldAll(fl, w) && buckets == Keys(m) && buckets != {}
    ensures Curve(points, fl, w, spotStart, m.funding.Keys + {MaxOf(buckets)})
    ensures points[0] == Point(MinOf(buckets) - w.bucketMs, 0.0, 0.0, 0.0, 0.0, 0.0, true)
    ensures totals == Some(TotalsOf(fl, w))
  {
    EmitFacts(fl, w);
    var lo, hi := MinOf(buckets), MaxOf(buckets);
    var emit := (set b | b in m.funding && b in buckets) + {hi};
    assert emit == m.funding.Keys + {hi};
    points := EmitPoints(m, lo, hi, emit, spotStart, w, fl);
    LastPointIsTotal(points, fl, w, spotStart, emit, hi);
    var last := points[|points| - 1];
    totals := Some(Totals(last.funding, last.fees, last.interest, last.slippage, last.net));
  }

  /** `None` is the rejected window. */
  method BuildPnlSeries(inp: Inputs, w: Window) returns (r: Option<Series>)
    requires w.bucketMs > 0
    ensures r.None? <==> !ValidWindow(w)
    ensures r.Some? ==> SeriesOk(r.value, inp, w)
  {
    if !ValidWindow(w) {
      return None;
    }
    var funding, commissions, unpriced1 := FoldIncome(inp.income, inp.prices, w);
    var fees, unpriced2 := FoldCapital(inp.capital, inp.prices, w, commissions, CommissionFlows(inp.income, inp.prices));
    var interest, unpriced3 := FoldInterest(inp.interest, inp.records, inp.prices, w);
    var slippage := FoldSlippage(inp.fills, inp.logs, w);
    var m := Maps(funding, fees, interest, slippage.slip);
    var points, totals := CurveOf(m, SpotStart(inp.capital), w, FlowsOf(inp));
    return Some(Series(points, totals, unpriced1 + unpriced2 + unpriced3, slippage.incomplete, slippage.unbalanced));
  }

  /** No leg disappears silently: every leg not known to lie outside the window is either one of
      the counted slippage flows or reported incomplete. */
  lemma {:induction false} LegsAreConserved(legs: seq<Leg>, w: Window)
    ensures DueCount(legs, w) == CountedFlows(SlipFlows(legs), w) + IncompleteCount(legs, w)
  {
    if legs != [] {
      LegsAreConserved(legs[..|legs| - 1], w);
      assert SlipFlows(legs)[..|legs| - 1] == SlipFlows(legs[..|legs| - 1]);
    }
  }

  function DueCount(legs: seq<Leg>, w: Window): nat {
    if legs == [] then 0
    else DueCount(legs[..|legs| - 1], w) + if OutsideWindow(legs[|legs| - 1], w) then 0 else 1
  }

  function CountedFlows(flows: seq<Flow>, w: Window): nat {
    if flows == [] then 0
    else CountedFlows(flows[..|flows| - 1], w) + if Counts(flows[|flows| - 1], w) then 1 else 0
  }

  /** The totals of two adjacent windows over the same records add up to those of the joined
      window, whatever the bucket size. */
  lemma FlowTotalsAddUp(fl: Flows, start: int, mid: int, end: int, bucketMs: int)
    requires start <= mid < end && bucketMs > 0
    ensures TotalsOf(fl, Window(start, end, bucketMs)) ==
            Plus(TotalsOf(fl, Window(start, mid, bucketMs)), TotalsOf(fl, Window(mid + 1, end, bucketMs)))
  {
    AdjacentWindowsAddUp(fl.funding, start, mid, end, bucketMs);
    AdjacentWindowsAddUp(fl.fees, start, mid, end, bucketMs);
    AdjacentWindowsAddUp(fl.interest, start, mid, end, bucketMs);
    AdjacentWindowsAddUp(fl.slippage, start, mid, end, bucketMs);
  }

  function Plus(a: Totals, b: Totals): Totals {
    Totals(a.funding + b.funding, a.fees + b.fees, a.interest + b.interest, a.slippage + b.slippage, a.net + b.net)
  }

  /** Reported totals, an absent report read as nothing earned or paid. */
  function Reported(totals: Option<Totals>): Totals {
    if totals.Some? then totals.value else Totals(0.0, 0.0, 0.0, 0.0, 0.0)
  }

  lemma CountedHasBucket(flows: seq<Flow>, w: Window)
    requires w.bucketMs > 0 && flows != []
    ensures Counts(flows[|flows| - 1], w) ==> Fold(flows, w).Keys != {}
  {
    if Counts(flows[|flows| - 1], w) {
      assert Bucket(flows[|flows| - 1].ms.value, w) in Fold(flows, w).Keys;
    }
  }

  /** Without a bucket there is no counted event. */
  lemma {:induction false} NoBucketNoTotal(flows: seq<Flow>, w: Window)
    requires w.bucketMs > 0 && Fold(flows, w).Keys == {}
    ensures Total(flows, w) == 0.0
  {
    if flows != [] {
      CountedHasBucket(flows, w);
      NoBucketNoTotal(flows[..|flows| - 1], w);
    }
  }

  /** What is reported, absent or not, is the totals of all in-window events. */
  lemma ReportedIsTotal(totals: Option<Totals>, fl: Flows, w: Window)
    requires w.bucketMs > 0 && Reports(totals, fl, w)
    ensures Reported(totals) == TotalsOf(fl, w)
  {
    var m := FoldAll(fl, w);
    if Keys(m) == {} {
      assert m.funding.Keys <= Keys(m) && m.fees.Keys <= Keys(m) && m.interest.Keys <= Keys(m) && m.slippage.Keys <= Keys(m);
      NoBucketNoTotal(fl.funding, w);
      NoBucketNoTotal(fl.fees, w);
      NoBucketNoTotal(fl.interest, w);
      NoBucketNoTotal(fl.slippage, w);
    }
  }

  /** The totals that `BuildPnlSeries` reports for two adjacent windows over the same records, absent
      or not, add up to those it reports for the joined window. */
  lemma TotalsAddUp(inp: Inputs, start: int, mid: int, end: int, bucketMs: int,
                    a: Option<Totals>, b: Option<Totals>, c: Option<Totals>)
    requires start <= mid < end && bucketMs > 0
    requires Reports(a, FlowsOf(inp), Window(start, mid, bucketMs))
    requires Reports(b, FlowsOf(inp), Window(mid + 1, end, bucketMs))
    requires Reports(c, FlowsOf(inp), Window(start, end, bucketMs))
    ensures Reported(c) == Plus(Reported(a), Reported(b))
  {
    var fl := FlowsOf(inp);
    ReportedIsTotal(a, fl, Window(start, mid, bucketMs));
    ReportedIsTotal(b, fl, Window(mid + 1, end, bucketMs));
    ReportedIsTotal(c, fl, Window(start, end, bucketMs));
    FlowTotalsAddUp(fl, start, mid, end, bucketMs);
  }
}
