/** The market gate of a smooth task: a spread rounded to hundredths of a percent against a
    two-place threshold, and the depth of both quotes. Prices and sizes are exact. */
module SmoothGate {
  import opened Options
  import opened Arithmetic
  import opened DecimalText
  import opened HedgeLegs

  // ------------------------------------------------------------------- spread

  /** Round to the nearest integer, ties away from zero. */
  function RoundHalfUp(x: real): int {
    if x >= 0.0 then (x + 0.5).Floor else -(-x + 0.5).Floor
  }

  /** What selling at `sold` and buying at `bought` gains, in percent, unrounded. */
  function ExactPct(sold: real, bought: real): real
    requires bought > 0.0
  {
    (sold - bought) / bought * 100.0
  }

  /** The displayed opening spread in hundredths of a percent. */
  function OpeningSpread(bid: real, ask: real): Option<int> {
    if bid <= 0.0 || ask <= 0.0 then None else Some(RoundHalfUp(ExactPct(bid, ask) * 100.0))
  }

  /** Rounding is to the nearest, and a tie goes away from zero. */
  lemma RoundHalfUpIsNearest(x: real, n: int)
    ensures RoundHalfUp(x) == n <==>
      if x >= 0.0 then n as real - 0.5 <= x < n as real + 0.5 else n as real - 0.5 < x <= n as real + 0.5
  {
    if x >= 0.0 {
      FloorIs(x + 0.5, n);
    } else {
      FloorIs(-x + 0.5, -n);
    }
  }

  lemma FloorIs(x: real, n: int)
    ensures x.Floor == n <==> n as real <= x < n as real + 1.0
  {
  }

  /** Strictly above a threshold of `t` hundredths, after rounding, means half a hundredth more
      before rounding: attained when `t` is not negative, exceeded when it is. */
  lemma RoundedAbove(x: real, t: int)
    ensures RoundHalfUp(x) > t <==> if t >= 0 then x >= t as real + 0.5 else x > t as real + 0.5
  {
    var n := RoundHalfUp(x);
    RoundHalfUpIsNearest(x, n);
  }

  // ---------------------------------------------------------------- threshold

  function LStrip(s: string, c: char): string {
    if s != "" && s[0] == c then LStrip(s[1..], c) else s
  }

  datatype Signed = Signed(negative: bool, whole: string, fraction: string)

  /** `[0-9]+(\.[0-9]{1,2})?|\.[0-9]{1,2}`, split into its parts. */
  function BodyParts(negative: bool, body: string): Option<Signed> {
    var k := FindDot(body);
    var whole := body[..k];
    var fraction := if k < |body| then body[k + 1..] else "";
    if !AllDigits(whole) || !AllDigits(fraction) || |fraction| > 2 then None
    else if k == |body| && whole == "" then None
    else if k < |body| && fraction == "" then None
    else Some(Signed(negative, whole, fraction))
  }

  /** An optional sign and such a body. */
  function ThresholdParts(s: string): Option<Signed> {
    var negative := s != "" && s[0] == '-';
    BodyParts(negative, if negative then s[1..] else s)
  }

  function Padded2(fraction: string): string
    requires |fraction| <= 2
  {
    fraction + (if |fraction| == 0 then "00" else if |fraction| == 1 then "0" else "")
  }

  /** The threshold's value in hundredths of a percent. */
  function Hundredths(p: Signed): int
    requires AllDigits(p.whole) && AllDigits(p.fraction) && |p.fraction| <= 2
  {
    var n := DigitsValue(p.whole + Padded2(p.fraction));
    if p.negative then 0 - n else n
  }

  function ThresholdValue(s: string): Option<int> {
    var p := ThresholdParts(s);
    if p.None? then None else Some(Hundredths(p.value))
  }

  /** The canonical text stored for an accepted threshold. */
  function ValidateThreshold(s: string): Option<string> {
    var p := ThresholdParts(s);
    if p.None? then None else Some(Canonical(p.value.negative, p.value.whole, Padded2(p.value.fraction)))
  }

  function Canonical(negative: bool, digits: string, fraction: string): string {
    var stripped := LStrip(digits, '0');
    var whole := if stripped == "" then "0" else stripped;
    var sign := if negative && !(whole == "0" && fraction == "00") then "-" else "";
    sign + whole + "." + fraction
  }

  /** The text of a value in hundredths: a sign when negative, no leading zeros, two places. */
  function HundredthsText(n: int): string {
    var m: nat := if n < 0 then -n else n;
    (if n < 0 then "-" else "") + NatText(m / 100) + "." + [DigitChar(m / 10 % 10), DigitChar(m % 10)]
  }

  lemma {:induction false} StrippedWhole(s: string)
    requires AllDigits(s)
    ensures
      var t := LStrip(s, '0');
      NatText(DigitsValue(s)) == if t == "" then "0" else t
  {
    if s != "" && s[0] == '0' {
      LeadingZero(s);
      StrippedWhole(s[1..]);
    } else if s != "" {
      CanonicalText(s);
    }
  }

  lemma {:induction false} LeadingZero(s: string)
    requires AllDigits(s) && s != "" && s[0] == '0'
    ensures DigitsValue(s) == DigitsValue(s[1..])
  {
    if |s| > 1 {
      LeadingZero(s[..|s| - 1]);
      assert s[..|s| - 1][1..] == s[1..][..|s| - 2];
    } else {
      assert s[..0] == "" && s[1..] == "";
    }
  }

  /** A digit string without leading zeros is the canonical text of its value. */
  lemma {:induction false} CanonicalText(s: string)
    requires AllDigits(s) && s != "" && s[0] != '0'
    ensures DigitsValue(s) > 0 && NatText(DigitsValue(s)) == s
  {
    var init, d := s[..|s| - 1], DigitValue(s[|s| - 1]);
    assert s == init + [DigitChar(d)];
    if init == "" {
      assert DigitsValue(s) == d;
    } else {
      CanonicalText(init);
      assert DigitsValue(s) / 10 == DigitsValue(init) && DigitsValue(s) % 10 == d;
    }
  }

  lemma TwoDigits(whole: string, f: string)
    requires AllDigits(whole) && AllDigits(f) && |f| == 2
    ensures AllDigits(whole + f)
    ensures DigitsValue(whole + f) == DigitsValue(whole) * 100 + DigitValue(f[0]) * 10 + DigitValue(f[1])
  {
    DigitsConcat(whole, f);
    assert Pow10(2) == 100;
    assert f[..1] == [f[0]] && [f[0]][..0] == "";
    assert DigitsValue(f[..1]) == DigitValue(f[0]);
  }

  lemma SplitHundred(w: nat, a: nat, b: nat)
    requires a < 10 && b < 10
    ensures (w * 100 + a * 10 + b) / 100 == w
    ensures (w * 100 + a * 10 + b) / 10 % 10 == a && (w * 100 + a * 10 + b) % 10 == b
  {
    var m := w * 100 + a * 10 + b;
    DivModUnique(m, 100, w, a * 10 + b);
    DivModUnique(m, 10, w * 10 + a, b);
    DivModUnique(w * 10 + a, 10, w, a);
  }

  lemma TextOf(negative: bool, m: nat, w: nat, a: nat, b: nat)
    requires a < 10 && b < 10 && m == w * 100 + a * 10 + b
    ensures HundredthsText(if negative then 0 - m else m) ==
            (if negative && m != 0 then "-" else "") + NatText(w) + "." + [DigitChar(a), DigitChar(b)]
  {
    SplitHundred(w, a, b);
  }

  lemma ZeroParts(whole: string, f: string, m: nat)
    requires AllDigits(whole) && AllDigits(f) && |f| == 2
    requires m == DigitsValue(whole) * 100 + DigitValue(f[0]) * 10 + DigitValue(f[1])
    ensures m == 0 <==> NatText(DigitsValue(whole)) == "0" && f == "00"
  {
    NatTextCanonical(DigitsValue(whole));
    assert f == "00" <==> f[0] == '0' && f[1] == '0';
  }

  lemma CanonicalIsText(negative: bool, whole: string, f: string)
    requires AllDigits(whole) && AllDigits(f) && |f| == 2
    ensures AllDigits(whole + f)
    ensures Canonical(negative, whole, f) ==
            HundredthsText(if negative then 0 - DigitsValue(whole + f) else DigitsValue(whole + f))
  {
    TwoDigits(whole, f);
    var m := DigitsValue(whole + f);
    TextOf(negative, m, DigitsValue(whole), DigitValue(f[0]), DigitValue(f[1]));
    StrippedWhole(whole);
    ZeroParts(whole, f, m);
    assert [DigitChar(DigitValue(f[0])), DigitChar(DigitValue(f[1]))] == f;
  }

  /** The stored text is the two-place text of the value entered, so equal thresholds are stored
      alike and the stored text is accepted unchanged. */
  lemma ThresholdCanonical(s: string)
    ensures ValidateThreshold(s).Some? <==> ThresholdValue(s).Some?
    ensures ThresholdValue(s).Some? ==> ValidateThreshold(s) == Some(HundredthsText(ThresholdValue(s).value))
  {
    if ThresholdParts(s).Some? {
      var p := ThresholdParts(s).value;
      CanonicalIsText(p.negative, p.whole, Padded2(p.fraction));
    }
  }

  lemma PartsOf(negative: bool, whole: string, f: string)
    requires AllDigits(whole) && whole != "" && AllDigits(f) && |f| == 2
    ensures ThresholdParts((if negative then "-" else "") + whole + "." + f) == Some(Signed(negative, whole, f))
  {
    SpelledParts(Signed(negative, whole, f));
    assert (if negative then "-" else "") + whole + "." + f == (if negative then "-" else "") + (whole + ("." + f));
  }

  lemma DigitsOf(m: nat) returns (w: nat, a: nat, b: nat)
    ensures a < 10 && b < 10 && m == w * 100 + a * 10 + b
  {
    w, a, b := m / 100, m / 10 % 10, m % 10;
  }

  lemma PartsValue(negative: bool, w: nat, a: nat, b: nat)
    requires a < 10 && b < 10
    ensures
      var s := (if negative then "-" else "") + NatText(w) + "." + [DigitChar(a), DigitChar(b)];
      ThresholdValue(s) == Some(if negative then 0 - (w * 100 + a * 10 + b) else w * 100 + a * 10 + b)
  {
    var f := [DigitChar(a), DigitChar(b)];
    PartsOf(negative, NatText(w), f);
    TwoDigits(NatText(w), f);
    NatTextValue(w);
    assert Padded2(f) == f;
  }

  lemma TextValue(n: int)
    ensures ThresholdValue(HundredthsText(n)) == Some(n)
  {
    var m: nat := if n < 0 then -n else n;
    var w, a, b := DigitsOf(m);
    TextOf(n < 0, m, w, a, b);
    PartsValue(n < 0, w, a, b);
  }

  /** Canonicalising is idempotent and keeps the value. */
  lemma ThresholdIsStable(s: string)
    requires ValidateThreshold(s).Some?
    ensures ValidateThreshold(ValidateThreshold(s).value) == ValidateThreshold(s)
    ensures ThresholdValue(ValidateThreshold(s).value) == ThresholdValue(s)
  {
    ThresholdCanonical(s);
    TextValue(ThresholdValue(s).value);
    ThresholdCanonical(ValidateThreshold(s).value);
  }

  /** Whole part and fraction; no point without a fraction. */
  function BodyText(whole: string, fraction: string): string {
    if fraction == "" then whole else whole + ("." + fraction)
  }

  function Spelled(p: Signed): string {
    (if p.negative then "-" else "") + BodyText(p.whole, p.fraction)
  }

  predicate ThresholdShape(p: Signed) {
    AllDigits(p.whole) && AllDigits(p.fraction) && |p.fraction| <= 2 && (p.whole != "" || p.fraction != "")
  }

  /** A body is cut at its point. */
  lemma {:induction false} BodyCut(whole: string, fraction: string)
    requires AllDigits(whole)
    ensures
      var body := BodyText(whole, fraction);
      && FindDot(body) == |whole| && body[..|whole|] == whole
      && (|whole| < |body| <==> fraction != "")
      && (|whole| < |body| ==> body[|whole| + 1..] == fraction)
  {
    var body := BodyText(whole, fraction);
    assert forall i | 0 <= i < |whole| :: body[i] == whole[i];
    if fraction != "" {
      assert body[|whole|] == '.';
    }
  }

  lemma {:induction false} BodyJoined(body: string, k: nat)
    requires k <= |body| && (k < |body| ==> body[k] == '.' && k + 1 < |body|)
    ensures body == BodyText(body[..k], if k < |body| then body[k + 1..] else "")
  {
  }

  lemma {:induction false} SignCut(negative: bool, body: string)
    requires body == "" || body[0] != '-'
    ensures
      var s := (if negative then "-" else "") + body;
      (s != "" && s[0] == '-' <==> negative) && (if negative then s[1..] else s) == body
  {
  }

  lemma {:induction false} CutParts(p: Signed)
    requires ThresholdShape(p)
    ensures BodyParts(p.negative, BodyText(p.whole, p.fraction)) == Some(p)
    ensures BodyText(p.whole, p.fraction) != "" && BodyText(p.whole, p.fraction)[0] != '-'
  {
    BodyCut(p.whole, p.fraction);
    assert BodyText(p.whole, p.fraction)[0] == if p.whole != "" then p.whole[0] else '.';
  }

  lemma {:induction false} SpelledParts(p: Signed)
    requires ThresholdShape(p)
    ensures ThresholdParts(Spelled(p)) == Some(p)
  {
    CutParts(p);
    SignCut(p.negative, BodyText(p.whole, p.fraction));
  }

  lemma {:induction false} PartsSpelled(s: string)
    requires ThresholdParts(s).Some?
    ensures ThresholdShape(ThresholdParts(s).value) && Spelled(ThresholdParts(s).value) == s
  {
    var p := ThresholdParts(s).value;
    BodyJoined(if p.negative then s[1..] else s, FindDot(if p.negative then s[1..] else s));
    if p.negative {
      assert s == "-" + s[1..];
    } else {
      assert s == "" + s;
    }
  }

  /** A text is accepted exactly when it is an optional sign, digits and at most two decimals, with a
      digit on one side at least; its value is its decimal value, in hundredths. */
  lemma {:induction false} ThresholdIsDecimal(s: string)
    ensures ThresholdValue(s).Some? <==> exists p :: ThresholdShape(p) && Spelled(p) == s
    ensures ThresholdValue(s).Some? ==>
      var p := ThresholdParts(s).value;
      && AllDigits(p.whole + p.fraction)
      && ThresholdValue(s).value * Pow10(|p.fraction|) ==
           (if p.negative then -100 else 100) * DigitsValue(p.whole + p.fraction)
  {
    if p :| ThresholdShape(p) && Spelled(p) == s {
      SpelledParts(p);
    }
    if ThresholdParts(s).Some? {
      PartsSpelled(s);
      PaddedHundredths(ThresholdParts(s).value);
    }
  }

  lemma AppendZero(d: string)
    requires AllDigits(d)
    ensures AllDigits(d + "0") && DigitsValue(d + "0") == 10 * DigitsValue(d)
  {
    DigitsSnoc(d, '0');
  }

  lemma PaddedHundredths(p: Signed)
    requires ThresholdShape(p)
    ensures AllDigits(p.whole + p.fraction)
    ensures Hundredths(p) * Pow10(|p.fraction|) == (if p.negative then -100 else 100) * DigitsValue(p.whole + p.fraction)
  {
    var d := p.whole + p.fraction;
    var n := DigitsValue(p.whole + Padded2(p.fraction));
    assert Pow10(0) == 1 && Pow10(1) == 10 && Pow10(2) == 100;
    assert n * Pow10(|p.fraction|) == 100 * DigitsValue(d) by {
      if |p.fraction| == 2 {
        assert Padded2(p.fraction) == p.fraction;
      } else if |p.fraction| == 1 {
        assert p.whole + Padded2(p.fraction) == d + "0";
        AppendZero(d);
      } else {
        assert p.whole + Padded2(p.fraction) == (d + "0") + "0";
        AppendZero(d);
        AppendZero(d + "0");
      }
    }
    assert (0 - n) * Pow10(|p.fraction|) == 0 - n * Pow10(|p.fraction|);
  }

  // --------------------------------------------------------------------- gate

  datatype Quote = Quote(bid: real, bidQty: real, ask: real, askQty: real)

  datatype Wait = BadQuantity | NoQuotes | NoSpotQuote | NoPerpQuote | Passed | SpreadTooLow | TooThin

  datatype GateEval = GateEval(spread: Option<int>, spreadPass: bool, spotCoverage: Option<real>,
                               perpCoverage: Option<real>, coveragePass: bool, marketPass: bool, wait: Wait)

  predicate ValidQuote(q: Option<Quote>) {
    q.Some? && q.value.bid > 0.0 && q.value.bidQty > 0.0 && q.value.ask > 0.0 && q.value.askQty > 0.0
  }

  function Blocked(wait: Wait): GateEval {
    GateEval(None, false, None, None, false, false, wait)
  }

  /** `threshold` is in hundredths of a percent. */
  function EvaluateSmoothGate(direction: Direction, threshold: int, q: real,
                              spot: Option<Quote>, perp: Option<Quote>): GateEval
  {
    if q <= 0.0 then Blocked(BadQuantity)
    else if !ValidQuote(spot) && !ValidQuote(perp) then Blocked(NoQuotes)
    else if !ValidQuote(spot) then Blocked(NoSpotQuote)
    else if !ValidQuote(perp) then Blocked(NoPerpQuote)
    else
      var spread :=
        if direction == Forward then OpeningSpread(perp.value.bid, spot.value.ask)
        else OpeningSpread(spot.value.bid, perp.value.ask);
      var spotQty := if direction == Forward then spot.value.askQty else spot.value.bidQty;
      var perpQty := if direction == Forward then perp.value.bidQty else perp.value.askQty;
      var spreadPass := spread.Some? && spread.value > threshold;
      var coveragePass := spotQty / q >= 0.8 && perpQty / q >= 0.8;
      GateEval(spread, spreadPass, Some(spotQty / q), Some(perpQty / q), coveragePass, spreadPass && coveragePass,
               if spreadPass && coveragePass then Passed else if !spreadPass then SpreadTooLow else TooThin)
  }

  /** The quote price and size a market order on `side` takes. */
  function TakenPrice(quote: Quote, side: string): real {
    if side == "BUY" then quote.ask else quote.bid
  }

  function TakenSize(quote: Quote, side: string): real {
    if side == "BUY" then quote.askQty else quote.bidQty
  }

  /** Strictly above the threshold by at least half a hundredth of a percent; a tie counts only
      for a threshold that is not negative. */
  predicate Clears(pct: real, threshold: int) {
    if threshold >= 0 then pct >= threshold as real / 100.0 + 0.005 else pct > threshold as real / 100.0 + 0.005
  }

  lemma SpreadClears(sold: real, bought: real, threshold: int)
    requires sold > 0.0 && bought > 0.0
    ensures OpeningSpread(sold, bought).value > threshold <==> Clears(ExactPct(sold, bought), threshold)
  {
    RoundedAbove(ExactPct(sold, bought) * 100.0, threshold);
  }

  lemma Covers(size: real, q: real)
    requires q > 0.0
    ensures size / q >= 0.8 <==> size >= 0.8 * q
  {
    var c := size / q;
    assert c * q == size;
    if c >= 0.8 {
      assert (c - 0.8) * q >= 0.0;
    } else {
      assert (0.8 - c) * q > 0.0;
    }
  }

  /** The gate passes on market exactly when the quotes are usable, the unrounded gain of the
      task's own two orders clears the threshold, and the quotes those orders take are each at
      least 80% of the quantity; open and close tasks, either direction, either position mode. */
  lemma GateUsesTheTasksOwnOrders(direction: Direction, kind: TaskType, mode: PositionMode, threshold: int, q: real,
                                  spot: Option<Quote>, perp: Option<Quote>)
    ensures
      EvaluateSmoothGate(EvaluationDirection(direction, kind), threshold, q, spot, perp).marketPass <==>
        && q > 0.0 && ValidQuote(spot) && ValidQuote(perp)
        && var actions := DirectionToLegActions(direction, mode, kind);
        && var spotPrice, perpPrice := TakenPrice(spot.value, actions.spotSide), TakenPrice(perp.value, actions.perpSide);
        && actions.spotSide != actions.perpSide
        && (if actions.spotSide == "SELL" then Clears(ExactPct(spotPrice, perpPrice), threshold)
            else Clears(ExactPct(perpPrice, spotPrice), threshold))
        && TakenSize(spot.value, actions.spotSide) >= 0.8 * q
        && TakenSize(perp.value, actions.perpSide) >= 0.8 * q
  {
    if q > 0.0 && ValidQuote(spot) && ValidQuote(perp) {
      var s, p := spot.value, perp.value;
      SpreadClears(p.bid, s.ask, threshold);
      SpreadClears(s.bid, p.ask, threshold);
      Covers(s.askQty, q); Covers(p.bidQty, q); Covers(s.bidQty, q); Covers(p.askQty, q);
    }
  }

  /** A percentage of what is paid. */
  lemma GainOfCost(sold: real, bought: real)
    requires bought > 0.0
    ensures ExactPct(sold, bought) * bought == (sold - bought) * 100.0
  {
    var r := (sold - bought) / bought;
    assert r * bought == sold - bought;
    assert (r * 100.0) * bought == (r * bought) * 100.0;
  }

  /** Why the gate waits: the reason names the first thing wrong, and the coverages shown are the
      shares of the quantity that the task's own two orders find. */
  lemma WaitNamesTheReason(direction: Direction, kind: TaskType, mode: PositionMode, threshold: int, q: real,
                           spot: Option<Quote>, perp: Option<Quote>)
    ensures
      var e := EvaluateSmoothGate(EvaluationDirection(direction, kind), threshold, q, spot, perp);
      && (e.wait == BadQuantity <==> q <= 0.0)
      && (e.wait == NoQuotes <==> q > 0.0 && !ValidQuote(spot) && !ValidQuote(perp))
      && (e.wait == NoSpotQuote <==> q > 0.0 && !ValidQuote(spot) && ValidQuote(perp))
      && (e.wait == NoPerpQuote <==> q > 0.0 && ValidQuote(spot) && !ValidQuote(perp))
      && (e.wait == Passed <==> e.marketPass) && (e.marketPass <==> e.spreadPass && e.coveragePass)
      && (e.wait == SpreadTooLow <==> q > 0.0 && ValidQuote(spot) && ValidQuote(perp) && !e.spreadPass)
      && (e.wait == TooThin <==> e.spreadPass && !e.coveragePass)
      && (e.spotCoverage.Some? <==> q > 0.0 && ValidQuote(spot) && ValidQuote(perp))
      && (e.spotCoverage.Some? ==>
            var actions := DirectionToLegActions(direction, mode, kind);
            && e.perpCoverage.Some?
            && e.spotCoverage.value * q == TakenSize(spot.value, actions.spotSide)
            && e.perpCoverage.value * q == TakenSize(perp.value, actions.perpSide))
  {
  }
}
