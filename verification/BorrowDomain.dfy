/** Input validation of the borrow domain that the protocol results rest on. */
module BorrowDomain {
  import opened Options
  import opened Arithmetic
  import opened DecimalText

  const US_PER_SECOND_PLACES: nat := 6
  const MIN_INTERVAL_US := 100_000

  /** The microseconds in `d` seconds, when they are a whole number. */
  function WholeMicros(d: Dec): Option<nat> {
    if Places(d) <= US_PER_SECOND_PLACES then Some(Units(d, US_PER_SECOND_PLACES))
    else
      var finer := Pow10(Places(d) - US_PER_SECOND_PLACES);
      if d.coef % finer == 0 then Some(d.coef / finer) else None
  }

  /** `d` seconds is less than 0.1 seconds. */
  predicate BelowFloor(d: Dec) {
    if Places(d) == 0 then d.coef == 0 else d.coef * 10 < Pow10(Places(d))
  }

  /** The accepted interval in microseconds; `None` for every rejected text. */
  function ParseInterval(s: string): Option<int> {
    var d := ParsePlain(s);
    if d.None? || d.value.coef == 0 then None
    else
      var us := WholeMicros(d.value);
      if us.None? || us.value < 1 || BelowFloor(d.value) then None else Some(us.value)
  }

  lemma WholeMicrosExact(d: Dec, us: nat)
    requires d.exp <= 0
    ensures WholeMicros(d) == Some(us) <==> us * Pow10(Places(d)) == d.coef * Pow10(6)
  {
    var p := Places(d);
    if p <= 6 {
      Pow10Add(6 - p, p);
      MulCancel(us, d.coef * Pow10(6 - p), Pow10(p));
      assert (d.coef * Pow10(6 - p)) * Pow10(p) == d.coef * (Pow10(6 - p) * Pow10(p));
    } else {
      var finer := Pow10(p - 6);
      Pow10Add(p - 6, 6);
      MulCancel(us * finer, d.coef, Pow10(6));
      assert us * (finer * Pow10(6)) == (us * finer) * Pow10(6);
      WholeQuotient(d.coef, finer, us);
    }
  }

  lemma WholeQuotient(n: nat, m: nat, q: nat)
    requires m > 0
    ensures n % m == 0 && n / m == q <==> q * m == n
  {
    var k, r := DivMod(n, m);
    if q * m == n {
      DivModUnique(n, m, q, 0);
    }
  }

  lemma BelowFloorExact(d: Dec, us: nat)
    requires d.exp <= 0 && us * Pow10(Places(d)) == d.coef * Pow10(6)
    ensures BelowFloor(d) <==> us < MIN_INTERVAL_US
  {
    assert Pow10(6) == 1_000_000;
    assert Pow10(0) == 1;
    Floor(d.coef, us, Pow10(Places(d)));
  }

  /** A tenth of a second in microseconds, compared in either unit. */
  lemma Floor(coef: nat, us: nat, w: nat)
    requires w > 0 && us * w == coef * 1_000_000
    ensures coef * 10 < w <==> us < MIN_INTERVAL_US
  {
    if us < MIN_INTERVAL_US {
      MulMono(us + 1, MIN_INTERVAL_US, w);
    } else {
      MulMono(MIN_INTERVAL_US, us, w);
    }
  }

  /** An interval is accepted, as `us`, exactly when its text is a plain decimal whose value is
      the whole number `us` of microseconds and `us` is at least 100000. */
  lemma ParseIntervalExact(s: string, us: int)
    ensures ParseInterval(s) == Some(us) <==>
      && ParsePlain(s).Some? && us >= MIN_INTERVAL_US
      && us * Pow10(Places(ParsePlain(s).value)) == ParsePlain(s).value.coef * Pow10(6)
  {
    var d := ParsePlain(s);
    if d.Some? {
      if us >= 0 {
        WholeMicrosExact(d.value, us);
        if us * Pow10(Places(d.value)) == d.value.coef * Pow10(6) {
          BelowFloorExact(d.value, us);
          MulNonNeg(us, Pow10(Places(d.value)));
        }
      }
    }
  }

  /** An accepted interval text breaks the documented pattern `[0-9]+(\.[0-9]+)?` exactly when it ends
      in one newline, and every documented text is accepted as the same interval with one. */
  lemma IntervalExceptNewline(s: string)
    ensures ParseInterval(s).Some? ==> (!PlainShape(s) <==> EndsInOneNewline(s))
    ensures PlainShape(s) ==> ParseInterval(s + "\n") == ParseInterval(s)
  {
    if ParsePlain(s).Some? {
      PlainExceptNewline(s);
    }
    if PlainShape(s) {
      NewlineReadsAlike(s);
    }
  }

  /** An interval below the documented two seconds, with a final newline, is accepted. */
  lemma HalfASecondAndNewline()
    ensures ParseInterval("0.5\n") == Some(500_000) && !PlainShape("0.5\n")
  {
    PlainText("0", "5");
    assert "0" + "." + "5" == "0.5" && "0" + "5" == "05" && "0.5" + "\n" == "0.5\n";
    assert "05"[..1] == "0" && "0"[..0] == "";
    assert DigitsValue("0") == 0 && DigitsValue("05") == 5;
    NewlineReadsAlike("0.5");
    PlainExceptNewline("0.5\n");
    assert Pow10(6) == 1_000_000 && Pow10(1) == 10;
    ParseIntervalExact("0.5\n", 500_000);
  }

  /** A missing, unparseable (`None`) or non-positive delay falls back to 60 seconds, any other
      is clamped to [60, 300]. */
  function ClampRetryAfter(raw: Option<int>): (seconds: int)
    ensures 60 <= seconds <= 300
    ensures raw.Some? && 60 <= raw.value <= 300 ==> seconds == raw.value
    ensures raw.Some? && raw.value > 300 ==> seconds == 300
    ensures raw.None? || raw.value < 60 ==> seconds == 60
  {
    if raw.None? || raw.value < 1 then 60
    else if raw.value < 60 then 60
    else if raw.value > 300 then 300
    else raw.value
  }
}
