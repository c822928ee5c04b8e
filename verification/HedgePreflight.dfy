/** Sizing one hedge attempt: exchange filters, the common quantity, and the offline check of the
    order bodies built from it. */
module HedgePreflight {
  import opened Options
  import opened Arithmetic
  import opened DecimalText
  import opened DecimalGrid
  import opened HedgeLegs

  // ------------------------------------------------------------------- filters

  /** A filter field as read: absent, a literal zero (`0` or `"0"`), not a number, or a number.
      A zero written any other way, such as `"0.00"`, is a `Number`. */
  datatype Raw = Null | Zero | Malformed | Number(negative: bool, value: Dec)

  datatype LotSize = LotSize(step: Raw, minQty: Raw, maxQty: Raw)

  datatype Filters = Filters(market: LotSize, lot: LotSize, notionalApplies: bool,
                             minNotional: Raw, notional: Raw)

  predicate Positive(r: Raw) {
    r.Number? && !r.negative && r.value.coef > 0
  }

  function PositiveValue(r: Raw): (v: Option<Dec>)
    ensures v.Some? ==> v.value.coef > 0
  {
    if Positive(r) then Some(r.value) else None
  }

  function EffectiveMarketStep(f: Filters): (v: Option<Dec>)
    ensures v.Some? ==> v.value.coef > 0
  {
    if Positive(f.market.step) then PositiveValue(f.market.step) else PositiveValue(f.lot.step)
  }

  /** The first of the two fields that is a number decides, even when it disables the bound. */
  function Bound(market: Raw, lot: Raw): Option<Dec> {
    if market.Number? then PositiveValue(market) else PositiveValue(lot)
  }

  function MinQty(f: Filters): Option<Dec> { Bound(f.market.minQty, f.lot.minQty) }

  function MaxQty(f: Filters): Option<Dec> { Bound(f.market.maxQty, f.lot.maxQty) }

  function MinNotional(f: Filters): Option<Dec> {
    if !f.notionalApplies then None
    else PositiveValue(if f.minNotional == Null then f.notional else f.minNotional)
  }

  /** The documented fallback: a bound that is absent or zero in MARKET_LOT_SIZE is taken from
      LOT_SIZE. */
  function DocumentedBound(market: Raw, lot: Raw): Option<Dec> {
    if Positive(market) then PositiveValue(market) else PositiveValue(lot)
  }

  /** The bound is the documented one exactly unless the market field is a number that is not
      positive, such as the text "0.00", while the lot field holds a bound: then it is lost. */
  lemma BoundFallsBackExactly(market: Raw, lot: Raw)
    ensures Bound(market, lot) == DocumentedBound(market, lot) <==>
      !(market.Number? && !Positive(market) && Positive(lot))
  {
    if market.Number? && !Positive(market) && Positive(lot) {
      assert Bound(market, lot) == None;
    }
  }

  lemma ZeroTextLosesTheLotBound()
    ensures
      var market, lot := Number(false, Dec(0, -2)), Number(false, Dec(9000, 0));
      Bound(market, lot) == None && DocumentedBound(market, lot) == Some(Dec(9000, 0))
  {
  }

  // ----------------------------------------------------------------- preflight

  /** Provider data. A price or a balance that is not positive is held as zero. */
  datatype Snapshot = Snapshot(tradable: bool, mode: PositionMode, spot: Filters, perp: Filters,
                               estPrice: Option<Dec>, quoteFree: Option<Dec>, baseFree: Option<Dec>,
                               regularSpot: bool, spotBaseFree: Option<Dec>)

  datatype Rejection =
    | SymbolUnavailable | PositionModeInvalid | PreflightIncomplete
    | BelowMinQty | AboveMaxQty | BelowMinNotional | InsufficientBalance

  datatype Preflight = Preflight(qCommon: Option<Dec>, balanceOk: Option<bool>, required: Option<Dec>,
                                 available: Option<Dec>, rejection: Option<Rejection>)

  function Product(a: Dec, b: Dec): Dec {
    Dec(a.coef * b.coef, a.exp + b.exp)
  }

  predicate BelowMin(q: Dec, f: Filters) {
    MinQty(f).Some? && !AtMost(MinQty(f).value, q)
  }

  predicate AboveMax(q: Dec, f: Filters) {
    MaxQty(f).Some? && !AtMost(q, MaxQty(f).value)
  }

  function LegRejection(q: Dec, f: Filters): Option<Rejection> {
    if BelowMin(q, f) then Some(BelowMinQty) else if AboveMax(q, f) then Some(AboveMaxQty) else None
  }

  function CheckCommonQuantity(q: Dec, spot: Filters, perp: Filters, price: Option<Dec>): Option<Rejection> {
    if q.coef == 0 then Some(BelowMinQty)
    else if LegRejection(q, spot).Some? then LegRejection(q, spot)
    else if LegRejection(q, perp).Some? then LegRejection(q, perp)
    else if price.None? || price.value.coef == 0 then None
    else if NotionalTooLow(Product(q, price.value), spot) || NotionalTooLow(Product(q, price.value), perp)
    then Some(BelowMinNotional)
    else None
  }

  predicate NotionalTooLow(notional: Dec, f: Filters) {
    MinNotional(f).Some? && !AtMost(MinNotional(f).value, notional)
  }

  function OrZero(d: Option<Dec>): Dec {
    if d.Some? then d.value else Dec(0, 0)
  }

  function Rejected(q: Option<Dec>, why: Rejection): Preflight {
    Preflight(q, None, None, None, Some(why))
  }

  function BalanceGate(s: Snapshot, direction: Direction, q: Dec, n: nat, price: Dec): Preflight {
    var required := if direction == Forward then Product(Multiple(n, q), price) else Multiple(n, q);
    var available :=
      if direction == Forward then OrZero(s.quoteFree)
      else if s.regularSpot then OrZero(s.spotBaseFree)
      else OrZero(s.baseFree);
    var ok := (direction == Forward && s.regularSpot) || AtMost(required, available);
    Preflight(Some(q), Some(ok), Some(required), Some(available), if ok then None else Some(InsufficientBalance))
  }

  function CommonQuantity(spotStep: Dec, perpStep: Dec, amount: Dec): (q: Dec)
    requires spotStep.coef > 0 && perpStep.coef > 0
  {
    LcmIsCommonMultiple(spotStep, perpStep);
    FloorToGrid(amount, DecimalLcm(spotStep, perpStep).value).value
  }

  function ComputePreflight(snapshot: Option<Snapshot>, direction: Direction, amount: Dec, n: nat,
                            checkBalance: bool): Preflight
  {
    if snapshot.None? then Preflight(None, None, None, None, None)
    else
      var s := snapshot.value;
      var spotStep, perpStep := EffectiveMarketStep(s.spot), EffectiveMarketStep(s.perp);
      if !s.tradable then Rejected(None, SymbolUnavailable)
      else if s.mode != OneWay then Rejected(None, PositionModeInvalid)
      else if spotStep.None? || perpStep.None? then Rejected(None, PreflightIncomplete)
      else
        var q := CommonQuantity(spotStep.value, perpStep.value, amount);
        if s.estPrice.None? || s.estPrice.value.coef == 0 then Rejected(Some(q), PreflightIncomplete)
        else
          var bad := CheckCommonQuantity(q, s.spot, s.perp, s.estPrice);
          if bad.Some? then Rejected(Some(q), bad.value)
          else if !checkBalance then Preflight(Some(q), Some(true), None, None, None)
          else BalanceGate(s, direction, q, n, s.estPrice.value)
  }

  /** `q` is the greatest amount, at most `amount`, that is a whole multiple of both steps. */
  ghost predicate GreatestCommonPoint(q: Dec, a: Dec, b: Dec, amount: Dec) {
    && IsMultipleOf(q, a) && IsMultipleOf(q, b) && AtMost(q, amount)
    && forall x: Dec | IsMultipleOf(x, a) && IsMultipleOf(x, b) && AtMost(x, amount) :: AtMost(x, q)
  }

  lemma MultipleOfMultiple(q: Dec, g: Dec, a: Dec)
    requires IsMultipleOf(q, g) && IsMultipleOf(g, a)
    ensures IsMultipleOf(q, a)
  {
    var p := Places(q) + Places(g) + Places(a);
    var i := MultipleInUnits(q, g, p);
    var j := MultipleInUnits(g, a, p);
    var n := Compose(i, j, Units(a, p));
    MultipleFromUnits(q, a, p, n);
  }

  lemma Compose(i: nat, j: nat, u: nat) returns (n: nat)
    ensures i * (j * u) == n * u
  {
    MulNonNeg(i, j);
    n := i * j;
  }

  lemma CommonQuantityIsGreatest(a: Dec, b: Dec, amount: Dec)
    requires a.coef > 0 && b.coef > 0
    ensures GreatestCommonPoint(CommonQuantity(a, b, amount), a, b, amount)
  {
    LcmIsCommonMultiple(a, b);
    var g := DecimalLcm(a, b).value;
    FloorToGridIsGreatest(amount, g);
    var q := FloorToGrid(amount, g).value;
    MultipleOfMultiple(q, g, a);
    MultipleOfMultiple(q, g, b);
    forall x: Dec | IsMultipleOf(x, a) && IsMultipleOf(x, b) && AtMost(x, amount)
      ensures AtMost(x, q)
    {
      CommonMultipleIsOnGrid(a, b, x);
    }
  }

  /** Whatever the verdict, a quantity the preflight computes is the greatest common point. */
  lemma PreflightQuantityIsGreatest(s: Snapshot, direction: Direction, amount: Dec, n: nat, checkBalance: bool)
    ensures
      var r := ComputePreflight(Some(s), direction, amount, n, checkBalance);
      var spotStep, perpStep := EffectiveMarketStep(s.spot), EffectiveMarketStep(s.perp);
      && (r.rejection.None? ==> r.qCommon.Some? && r.qCommon.value.coef > 0)
      && (r.qCommon.Some? ==> spotStep.Some? && perpStep.Some?)
      && (r.qCommon.Some? ==> GreatestCommonPoint(r.qCommon.value, spotStep.value, perpStep.value, amount))
  {
    var spotStep, perpStep := EffectiveMarketStep(s.spot), EffectiveMarketStep(s.perp);
    if spotStep.Some? && perpStep.Some? {
      CommonQuantityIsGreatest(spotStep.value, perpStep.value, amount);
    }
  }

  lemma ProductUnits(a: Dec, b: Dec, pa: nat, pb: nat)
    requires Places(a) <= pa && Places(b) <= pb
    ensures Places(Product(a, b)) <= pa + pb
    ensures Units(Product(a, b), pa + pb) == Units(a, pa) * Units(b, pb)
  {
    Pow10Add(pa + a.exp, pb + b.exp);
    Interchange(a.coef, b.coef, Pow10(pa + a.exp), Pow10(pb + b.exp));
  }

  lemma Interchange(a: nat, b: nat, x: nat, y: nat)
    ensures (a * b) * (x * y) == (a * x) * (b * y)
  {
    assert (a * b) * (x * y) == a * (b * (x * y));
    assert b * (x * y) == x * (b * y);
    assert a * (x * (b * y)) == (a * x) * (b * y);
  }

  lemma SameProduct(a: Dec, a': Dec, b: Dec)
    requires SameValue(a, a')
    ensures SameValue(Product(a, b), Product(a', b))
  {
    var p := Finer(a, a');
    ProductUnits(a, b, p, Places(b));
    ProductUnits(a', b, p, Places(b));
    SameValueUnits(Product(a, b), Product(a', b), p + Places(b));
  }

  lemma SameMultiple(n: nat, a: Dec, a': Dec)
    requires SameValue(a, a')
    ensures SameValue(Multiple(n, a), Multiple(n, a'))
  {
    var p := Finer(a, a');
    MultipleUnits(n, a, p);
    MultipleUnits(n, a', p);
    SameValueUnits(Multiple(n, a), Multiple(n, a'), p);
  }

  /** The leg's filters allow quantity `q` at `price`. */
  predicate Fits(q: Dec, price: Dec, f: Filters) {
    && (MinQty(f).Some? ==> AtMost(MinQty(f).value, q))
    && (MaxQty(f).Some? ==> AtMost(q, MaxQty(f).value))
    && (MinNotional(f).Some? ==> AtMost(MinNotional(f).value, Product(q, price)))
  }

  /** The account that pays for the spot leg holds enough for all `n` rounds; a forward task on
      the regular spot account is funded by a transfer made later. */
  predicate Funded(s: Snapshot, direction: Direction, q: Dec, n: nat, price: Dec) {
    if direction == Forward then s.regularSpot || AtMost(Product(Multiple(n, q), price), OrZero(s.quoteFree))
    else AtMost(Multiple(n, q), OrZero(if s.regularSpot then s.spotBaseFree else s.baseFree))
  }

  predicate Readable(s: Snapshot) {
    && s.tradable && s.mode == OneWay
    && EffectiveMarketStep(s.spot).Some? && EffectiveMarketStep(s.perp).Some?
    && s.estPrice.Some? && s.estPrice.value.coef > 0
  }

  lemma FitsByValue(q: Dec, q': Dec, price: Dec, f: Filters)
    requires SameValue(q, q')
    ensures Fits(q, price, f) == Fits(q', price, f)
  {
    SameProduct(q, q', price);
    if MinQty(f).Some? { SameValueTransfers(q, q', MinQty(f).value); }
    if MaxQty(f).Some? { SameValueTransfers(q, q', MaxQty(f).value); }
    if MinNotional(f).Some? { SameValueTransfers(Product(q, price), Product(q', price), MinNotional(f).value); }
  }

  lemma FundedByValue(s: Snapshot, direction: Direction, q: Dec, q': Dec, n: nat, price: Dec)
    requires SameValue(q, q')
    ensures Funded(s, direction, q, n, price) == Funded(s, direction, q', n, price)
  {
    SameMultiple(n, q, q');
    SameProduct(Multiple(n, q), Multiple(n, q'), price);
    if direction == Forward {
      SameValueTransfers(Product(Multiple(n, q), price), Product(Multiple(n, q'), price), OrZero(s.quoteFree));
    } else {
      SameValueTransfers(Multiple(n, q), Multiple(n, q'), OrZero(if s.regularSpot then s.spotBaseFree else s.baseFree));
    }
  }

  lemma VerdictOnItsQuantity(s: Snapshot, direction: Direction, amount: Dec, n: nat, checkBalance: bool)
    requires Readable(s)
    ensures
      var q := CommonQuantity(EffectiveMarketStep(s.spot).value, EffectiveMarketStep(s.perp).value, amount);
      ComputePreflight(Some(s), direction, amount, n, checkBalance).rejection.None? <==>
        && q.coef > 0 && Fits(q, s.estPrice.value, s.spot) && Fits(q, s.estPrice.value, s.perp)
        && (checkBalance ==> Funded(s, direction, q, n, s.estPrice.value))
  {
  }

  /** A live preflight accepts exactly when everything was readable and the greatest common point
      is positive, fits both legs' filters and is funded. */
  lemma AcceptsExactly(s: Snapshot, direction: Direction, amount: Dec, n: nat, checkBalance: bool)
    ensures ComputePreflight(Some(s), direction, amount, n, checkBalance).rejection.None? <==>
      && Readable(s)
      && exists q ::
           && GreatestCommonPoint(q, EffectiveMarketStep(s.spot).value, EffectiveMarketStep(s.perp).value, amount)
           && q.coef > 0 && Fits(q, s.estPrice.value, s.spot) && Fits(q, s.estPrice.value, s.perp)
           && (checkBalance ==> Funded(s, direction, q, n, s.estPrice.value))
  {
    if Readable(s) {
      var a, b := EffectiveMarketStep(s.spot).value, EffectiveMarketStep(s.perp).value;
      var r := CommonQuantity(a, b, amount);
      CommonQuantityIsGreatest(a, b, amount);
      VerdictOnItsQuantity(s, direction, amount, n, checkBalance);
      forall q | GreatestCommonPoint(q, a, b, amount)
        ensures (q.coef > 0) == (r.coef > 0)
        ensures Fits(q, s.estPrice.value, s.spot) == Fits(r, s.estPrice.value, s.spot)
        ensures Fits(q, s.estPrice.value, s.perp) == Fits(r, s.estPrice.value, s.perp)
        ensures Funded(s, direction, q, n, s.estPrice.value) == Funded(s, direction, r, n, s.estPrice.value)
      {
        assert AtMost(q, r) && AtMost(r, q);
        SameValueTransfers(q, r, amount);
        FitsByValue(q, r, s.estPrice.value, s.spot);
        FitsByValue(q, r, s.estPrice.value, s.perp);
        FundedByValue(s, direction, q, r, n, s.estPrice.value);
      }
    }
  }

  /** Before the quantity is looked at: an unreadable fact is always reported as incomplete, never
      as a violated rule, and a violated rule never as incomplete. */
  lemma UnreadableRejections(s: Snapshot, direction: Direction, amount: Dec, n: nat, checkBalance: bool)
    ensures
      var why := ComputePreflight(Some(s), direction, amount, n, checkBalance).rejection;
      && (why == Some(SymbolUnavailable) <==> !s.tradable)
      && (why == Some(PositionModeInvalid) <==> s.tradable && s.mode != OneWay)
      && (why == Some(PreflightIncomplete) <==> s.tradable && s.mode == OneWay && !Readable(s))
  {
  }

  predicate InBounds(q: Dec, f: Filters) {
    !BelowMin(q, f) && !AboveMax(q, f)
  }

  lemma BoundsByValue(q: Dec, q': Dec, price: Dec, f: Filters)
    requires SameValue(q, q')
    ensures BelowMin(q, f) == BelowMin(q', f) && AboveMax(q, f) == AboveMax(q', f)
    ensures NotionalTooLow(Product(q, price), f) == NotionalTooLow(Product(q', price), f)
  {
    SameProduct(q, q', price);
    if MinQty(f).Some? { SameValueTransfers(q, q', MinQty(f).value); }
    if MaxQty(f).Some? { SameValueTransfers(q, q', MaxQty(f).value); }
    if MinNotional(f).Some? { SameValueTransfers(Product(q, price), Product(q', price), MinNotional(f).value); }
  }

  /** Which rejection a readable snapshot gets, told by the greatest common point `q`, however it is
      written: zero or a minimum first, leg by leg, then the notional, then the balance. */
  ghost predicate RejectionFits(why: Option<Rejection>, s: Snapshot, direction: Direction, q: Dec, n: nat, checkBalance: bool)
    requires Readable(s)
  {
    var price := s.estPrice.value;
    var inBounds := q.coef > 0 && InBounds(q, s.spot) && InBounds(q, s.perp);
    var tooSmall := NotionalTooLow(Product(q, price), s.spot) || NotionalTooLow(Product(q, price), s.perp);
    && (why == Some(BelowMinQty) <==>
          q.coef == 0 || BelowMin(q, s.spot) || (InBounds(q, s.spot) && BelowMin(q, s.perp)))
    && (why == Some(AboveMaxQty) <==>
          q.coef > 0 && !BelowMin(q, s.spot)
          && (AboveMax(q, s.spot) || (!BelowMin(q, s.perp) && AboveMax(q, s.perp))))
    && (why == Some(BelowMinNotional) <==> inBounds && tooSmall)
    && (why == Some(InsufficientBalance) <==>
          inBounds && !tooSmall && checkBalance && !Funded(s, direction, q, n, price))
    && (why == None <==>
          inBounds && !tooSmall && (checkBalance ==> Funded(s, direction, q, n, price)))
  }

  lemma RejectionFitsItsQuantity(s: Snapshot, direction: Direction, amount: Dec, n: nat, checkBalance: bool)
    requires Readable(s)
    ensures
      RejectionFits(ComputePreflight(Some(s), direction, amount, n, checkBalance).rejection, s, direction,
                    CommonQuantity(EffectiveMarketStep(s.spot).value, EffectiveMarketStep(s.perp).value, amount), n, checkBalance)
  {
  }

  /** Each rejection of a readable snapshot is given exactly under its own condition on the greatest
      common point of both steps, in the source's order of precedence. */
  lemma RejectionsAreExact(s: Snapshot, direction: Direction, amount: Dec, n: nat, checkBalance: bool, q: Dec)
    requires Readable(s)
    requires GreatestCommonPoint(q, EffectiveMarketStep(s.spot).value, EffectiveMarketStep(s.perp).value, amount)
    ensures RejectionFits(ComputePreflight(Some(s), direction, amount, n, checkBalance).rejection, s, direction, q, n, checkBalance)
  {
    var a, b := EffectiveMarketStep(s.spot).value, EffectiveMarketStep(s.perp).value;
    var r := CommonQuantity(a, b, amount);
    CommonQuantityIsGreatest(a, b, amount);
    assert AtMost(q, r) && AtMost(r, q);
    RejectionFitsItsQuantity(s, direction, amount, n, checkBalance);
    SameValueTransfers(q, r, amount);
    BoundsByValue(q, r, s.estPrice.value, s.spot);
    BoundsByValue(q, r, s.estPrice.value, s.perp);
    FundedByValue(s, direction, q, r, n, s.estPrice.value);
  }

  // --------------------------------------------------------- order wire checks

  /** One signed order body; a key that is absent or not a string is `None`. */
  datatype Order = Order(symbol: Option<string>, side: Option<string>, kind: Option<string>,
                         quantity: Option<string>, clientId: Option<string>)

  datatype Violation =
    | BadClientId | BadQuantityText | QuantityNotPositive | BadSymbol | BadSide | BadType
    | OffStep | UnderMin | OverMax

  predicate ClientIdChar(c: char) {
    || 'A' <= c <= 'Z' || 'a' <= c <= 'z' || '0' <= c <= '9'
    || c == '.' || c == ':' || c == '/' || c == '_' || c == '-'
  }

  predicate ValidClientId(id: Option<string>) {
    && id.Some? && 1 <= |id.value| <= 36
    && var body := DropFinalNewline(id.value);
    |body| > 0 && forall i | 0 <= i < |body| :: ClientIdChar(body[i])
  }

  /** The quantity as the pattern `(0|[1-9][0-9]*)(\.[0-9]+)?` reads it. */
  function OrderQuantity(text: Option<string>): Option<Dec> {
    if text.None? || ParsePlain(text.value).None? then None
    else
      var body := DropFinalNewline(text.value);
      if body[0] == '0' && FindDot(body) > 1 then None else ParsePlain(text.value)
  }

  /** The documented pattern of a client id: 1 to 36 characters of the character set. */
  predicate ClientIdPattern(s: string) {
    1 <= |s| <= 36 && forall i | 0 <= i < |s| :: ClientIdChar(s[i])
  }

  lemma IdCharsAreNotNewlines(s: string)
    requires forall i | 0 <= i < |s| :: ClientIdChar(s[i])
    ensures '\n' !in s
  {
  }

  lemma AcceptedIdExceptNewline(s: string)
    requires ValidClientId(Some(s))
    ensures !ClientIdPattern(s) <==> EndsInOneNewline(s)
  {
    IdCharsAreNotNewlines(DropFinalNewline(s));
    if ClientIdPattern(s) {
      IdCharsAreNotNewlines(s);
    }
  }

  lemma PatternIdAndNewline(s: string)
    requires ClientIdPattern(s)
    ensures ValidClientId(Some(s + "\n")) <==> |s| <= 35
  {
    assert (s + "\n")[..|s|] == s;
    assert DropFinalNewline(s + "\n") == s;
  }

  /** An accepted client id breaks the documented pattern exactly when it ends in one newline; a
      documented id followed by one is accepted exactly while it stays within 36 characters. */
  lemma ClientIdExceptNewline(s: string)
    ensures ValidClientId(Some(s)) ==> (!ClientIdPattern(s) <==> EndsInOneNewline(s))
    ensures ClientIdPattern(s) ==> (ValidClientId(Some(s + "\n")) <==> |s| <= 35)
  {
    if ValidClientId(Some(s)) {
      AcceptedIdExceptNewline(s);
    }
    if ClientIdPattern(s) {
      PatternIdAndNewline(s);
    }
  }

  /** A client id that breaks the documented pattern and is accepted. */
  lemma IdAndNewline()
    ensures ValidClientId(Some("hg1s\n")) && !ClientIdPattern("hg1s\n")
  {
    assert DropFinalNewline("hg1s\n") == "hg1s";
    assert !ClientIdChar("hg1s\n"[4]);
  }

  /** The documented pattern of a quantity. */
  predicate QuantityPattern(s: string) {
    PlainShape(s) && !(s[0] == '0' && FindDot(s) > 1)
  }

  /** An accepted order quantity breaks the documented pattern exactly when it ends in one newline,
      and every documented quantity is read alike with one. */
  lemma QuantityExceptNewline(s: string)
    ensures OrderQuantity(Some(s)).Some? ==> (!QuantityPattern(s) <==> EndsInOneNewline(s))
    ensures QuantityPattern(s) ==> OrderQuantity(Some(s + "\n")) == OrderQuantity(Some(s)) && OrderQuantity(Some(s)).Some?
  {
    if ParsePlain(s).Some? {
      PlainExceptNewline(s);
      if PlainShape(s) {
        PlainHasNoNewline(s);
        assert s[|s| - 1] in s;
        assert DropFinalNewline(s) == s;
      }
    }
    if PlainShape(s) {
      NewlineReadsAlike(s);
      assert (s + "\n")[..|s|] == s;
    }
  }

  /** A quantity that breaks the documented pattern and is accepted. */
  lemma HalfAndNewline()
    ensures OrderQuantity(Some("0.5\n")) == Some(Dec(5, -1)) && !QuantityPattern("0.5\n")
  {
    PlainText("0", "5");
    assert "0" + "." + "5" == "0.5" && "0" + "5" == "05" && "0.5" + "\n" == "0.5\n";
    assert "05"[..1] == "0" && "0"[..0] == "";
    assert DigitsValue("0") == 0 && DigitsValue("05") == 5;
    FirstDot("0", "5");
    QuantityExceptNewline("0.5");
    QuantityExceptNewline("0.5\n");
  }

  predicate HasLower(s: string) {
    exists i | 0 <= i < |s| :: 'a' <= s[i] <= 'z'
  }

  ghost predicate Breaks(v: Violation, o: Order, step: Option<Dec>, min: Option<Dec>, max: Option<Dec>) {
    var q := OrderQuantity(o.quantity);
    match v
    case BadClientId => !ValidClientId(o.clientId)
    case BadQuantityText => q.None?
    case QuantityNotPositive => q.Some? && q.value.coef == 0
    case BadSymbol => o.symbol.None? || o.symbol.value == "" || HasLower(o.symbol.value)
    case BadSide => o.side != Some("BUY") && o.side != Some("SELL")
    case BadType => o.kind != Some("MARKET")
    case OffStep => q.Some? && step.Some? && step.value.coef > 0 && !IsMultipleOf(q.value, step.value)
    case UnderMin => q.Some? && min.Some? && !AtMost(min.value, q.value)
    case OverMax => q.Some? && max.Some? && !AtMost(q.value, max.value)
  }

  predicate OnStep(q: Dec, step: Dec)
    requires step.coef > 0
  {
    UnitsPositive(step, Finer(q, step));
    Units(q, Finer(q, step)) % Units(step, Finer(q, step)) == 0
  }

  lemma OnStepExact(q: Dec, step: Dec)
    requires step.coef > 0
    ensures OnStep(q, step) <==> IsMultipleOf(q, step)
  {
    var p := Finer(q, step);
    UnitsPositive(step, p);
    var k, r := DivMod(Units(q, p), Units(step, p));
    if r == 0 {
      MultipleFromUnits(q, step, p, k);
    }
    if IsMultipleOf(q, step) {
      var n := MultipleInUnits(q, step, p);
      DivModUnique(Units(q, p), Units(step, p), n, 0);
    }
  }

  /** The violations found by the checks that do not involve the leg's filters. */
  method ValidateShape(o: Order) returns (violations: seq<Violation>)
    ensures forall v: Violation :: v in violations <==> !FilterRule(v) && Breaks(v, o, None, None, None)
  {
    violations := [];
    if !ValidClientId(o.clientId) {
      violations := violations + [BadClientId];
    }
    var q := OrderQuantity(o.quantity);
    if q.None? {
      violations := violations + [BadQuantityText];
    } else if q.value.coef == 0 {
      violations := violations + [QuantityNotPositive];
    }
    if o.symbol.None? || o.symbol.value == "" || HasLower(o.symbol.value) {
      violations := violations + [BadSymbol];
    }
    if o.side != Some("BUY") && o.side != Some("SELL") {
      violations := violations + [BadSide];
    }
    if o.kind != Some("MARKET") {
      violations := violations + [BadType];
    }
  }

  predicate FilterRule(v: Violation) { v in {OffStep, UnderMin, OverMax} }

  /** The violations reported are exactly the rules the order breaks. */
  method ValidateOrderParams(o: Order, step: Option<Dec>, min: Option<Dec>, max: Option<Dec>)
    returns (violations: seq<Violation>)
    ensures forall v: Violation :: v in violations <==> Breaks(v, o, step, min, max)
  {
    violations := ValidateShape(o);
    var q := OrderQuantity(o.quantity);
    if q.Some? && step.Some? && step.value.coef > 0 {
      OnStepExact(q.value, step.value);
      if !OnStep(q.value, step.value) {
        violations := violations + [OffStep];
      }
    }
    if q.Some? && min.Some? && !AtMost(min.value, q.value) {
      violations := violations + [UnderMin];
    }
    if q.Some? && max.Some? && !AtMost(q.value, max.value) {
      violations := violations + [OverMax];
    }
  }

  // -------------------------------------------------------------- order bodies

  function SpotClientId(attemptId: string): string { "hg" + attemptId + "s" }

  function PerpClientId(attemptId: string): string { "hg" + attemptId + "p" }

  function BuildSpotOrder(symbol: string, actions: LegActions, q: Dec, id: string): Order {
    Order(Some(symbol), Some(actions.spotSide), Some("MARKET"), Some(FmtDecimal(q)), Some(id))
  }

  function BuildPerpOrder(symbol: string, actions: LegActions, q: Dec, id: string): Order {
    Order(Some(symbol), Some(actions.perpSide), Some("MARKET"), Some(FmtDecimal(q)), Some(id))
  }

  /** A version 4 UUID in hexadecimal. */
  predicate AttemptId(s: string) {
    |s| == 32 && forall i | 0 <= i < |s| :: '0' <= s[i] <= '9' || 'a' <= s[i] <= 'f'
  }

  predicate UpperSymbol(s: string) { s != "" && !HasLower(s) }

  /** The printed quantity is read back with the same value. */
  lemma PrintedQuantity(q: Dec)
    ensures OrderQuantity(Some(FmtDecimal(q))).Some?
    ensures SameValue(OrderQuantity(Some(FmtDecimal(q))).value, q)
  {
    FmtRoundTrip(q);
    var whole, fp := FmtShape(q);
    NatTextCanonical(whole);
    PlainText(NatText(whole), fp);
    assert NatText(whole) + "" == NatText(whole);
    FirstDot(NatText(whole), fp);
  }

  lemma FirstDot(ip: string, fp: string)
    requires ip != "" && AllDigits(ip)
    ensures FindDot(Joined(ip, fp)) == |ip| && Joined(ip, fp)[0] == ip[0]
  {
    assert forall i | 0 <= i < |ip| :: Joined(ip, fp)[i] == ip[i];
    if fp != "" {
      assert Joined(ip, fp)[|ip|] == '.';
    }
  }

  lemma ClientIdsAreValid(attemptId: string)
    requires AttemptId(attemptId)
    ensures ValidClientId(Some(SpotClientId(attemptId))) && ValidClientId(Some(PerpClientId(attemptId)))
    ensures SpotClientId(attemptId) != PerpClientId(attemptId)
  {
    assert SpotClientId(attemptId)[34] != PerpClientId(attemptId)[34];
  }

  ghost predicate Clean(o: Order, step: Option<Dec>, min: Option<Dec>, max: Option<Dec>) {
    forall v: Violation :: !Breaks(v, o, step, min, max)
  }

  /** An order carrying `q` breaks no rule when `q` fits the leg's filters. */
  lemma FittingOrderIsClean(o: Order, q: Dec, f: Filters)
    requires o.quantity == Some(FmtDecimal(q)) && q.coef > 0 && LegRejection(q, f).None?
    requires EffectiveMarketStep(f).Some? && IsMultipleOf(q, EffectiveMarketStep(f).value)
    requires ValidClientId(o.clientId) && o.symbol.Some? && UpperSymbol(o.symbol.value)
    requires o.side == Some("BUY") || o.side == Some("SELL")
    requires o.kind == Some("MARKET")
    ensures Clean(o, EffectiveMarketStep(f), MinQty(f), MaxQty(f))
  {
    PrintedQuantity(q);
    var read := OrderQuantity(o.quantity).value;
    SameValueTransfers(read, q, EffectiveMarketStep(f).value);
    if MinQty(f).Some? {
      SameValueTransfers(read, q, MinQty(f).value);
    }
    if MaxQty(f).Some? {
      SameValueTransfers(read, q, MaxQty(f).value);
    }
  }

  /** Every accepted preflight yields two order bodies the offline validator has no objection to,
      each under its own leg's step, minimum and maximum, and both carry the same quantity. */
  lemma {:induction false} AcceptedOrdersAreClean(s: Snapshot, direction: Direction, kind: TaskType, amount: Dec, n: nat,
                               checkBalance: bool, spotSymbol: string, perpSymbol: string, attemptId: string)
    requires ComputePreflight(Some(s), direction, amount, n, checkBalance).rejection.None?
    requires UpperSymbol(spotSymbol) && UpperSymbol(perpSymbol) && AttemptId(attemptId)
    ensures
      var q := ComputePreflight(Some(s), direction, amount, n, checkBalance).qCommon;
      var actions := DirectionToLegActions(direction, s.mode, kind);
      && q.Some?
      && Clean(BuildSpotOrder(spotSymbol, actions, q.value, SpotClientId(attemptId)),
               EffectiveMarketStep(s.spot), MinQty(s.spot), MaxQty(s.spot))
      && Clean(BuildPerpOrder(perpSymbol, actions, q.value, PerpClientId(attemptId)),
               EffectiveMarketStep(s.perp), MinQty(s.perp), MaxQty(s.perp))
  {
    PreflightQuantityIsGreatest(s, direction, amount, n, checkBalance);
    ClientIdsAreValid(attemptId);
    var q := ComputePreflight(Some(s), direction, amount, n, checkBalance).qCommon.value;
    var actions := DirectionToLegActions(direction, s.mode, kind);
    FittingOrderIsClean(BuildSpotOrder(spotSymbol, actions, q, SpotClientId(attemptId)), q, s.spot);
    FittingOrderIsClean(BuildPerpOrder(perpSymbol, actions, q, PerpClientId(attemptId)), q, s.perp);
  }
}
