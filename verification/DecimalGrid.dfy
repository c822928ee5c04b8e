/** The common quantity grid of two legs: integer gcd and lcm, and their decimal form. */
module DecimalGrid {
  import opened Options
  import opened Arithmetic
  import opened DecimalText

  // ------------------------------------------------------------------ integers

  function Gcd(a: nat, b: nat): (g: nat)
    ensures a > 0 || b > 0 ==> g > 0
    decreases b
  {
    if b == 0 then a else Gcd(b, a % b)
  }

  lemma {:induction false} GcdDivides(a: nat, b: nat) returns (s: nat, t: nat)
    requires a > 0 || b > 0
    ensures a == s * Gcd(a, b) && b == t * Gcd(a, b)
    decreases b
  {
    if b == 0 {
      s, t := 1, 0;
    } else {
      var q, r := DivMod(a, b);
      var s', t' := GcdDivides(b, r);
      var g := Gcd(b, r);
      assert q * (s' * g) + t' * g == (q * s' + t') * g;
      MulNonNeg(q, s');
      s, t := q * s' + t', s';
    }
  }

  /** The gcd is an integer combination of its arguments. */
  lemma {:induction false} Bezout(a: nat, b: nat) returns (x: int, y: int)
    ensures x * a + y * b == Gcd(a, b)
    decreases b
  {
    if b == 0 {
      x, y := 1, 0;
    } else {
      var q, r := DivMod(a, b);
      var x', y' := Bezout(b, r);
      assert y' * (q * b) == (q * y') * b;
      x, y := y', x' - q * y';
    }
  }

  function Lcm(a: nat, b: nat): nat
    requires a > 0 && b > 0
  {
    a * b / Gcd(a, b)
  }

  /** The cofactors: what each argument is multiplied by to reach the lcm. */
  lemma LcmCofactors(a: nat, b: nat) returns (s: nat, t: nat)
    requires a > 0 && b > 0
    ensures a == s * Gcd(a, b) && b == t * Gcd(a, b) && s > 0 && t > 0
    ensures Lcm(a, b) == t * a == s * b && Lcm(a, b) > 0
  {
    s, t := GcdDivides(a, b);
    var g := Gcd(a, b);
    assert a * b == (t * a) * g by {
      assert a * (t * g) == (t * a) * g;
    }
    DivModUnique(a * b, g, t * a, 0);
    assert t * (s * g) == s * (t * g);
    MulMono(1, t, a);
  }

  /** Every common multiple is a multiple of the lcm. */
  lemma LcmDividesCommonMultiples(a: nat, b: nat, i: nat, j: nat) returns (k: nat)
    requires a > 0 && b > 0 && i * a == j * b
    ensures i * a == k * Lcm(a, b)
  {
    var s, t := LcmCofactors(a, b);
    var x, y := Bezout(a, b);
    CancelGcd(x, s, y, t, Gcd(a, b));
    CancelBoth(i, s, j, t, Gcd(a, b));
    Combine(i, j, s, t, x, y);
    k := Quotient(x * j + y * i, i, t, a, Lcm(a, b));
  }

  lemma CancelBoth(i: nat, s: nat, j: nat, t: nat, g: nat)
    requires g > 0 && i * (s * g) == j * (t * g)
    ensures i * s == j * t
  {
    assert i * (s * g) == (i * s) * g && j * (t * g) == (j * t) * g;
    MulCancel(i * s, j * t, g);
  }

  lemma Quotient(n: int, i: nat, t: nat, a: nat, lcm: nat) returns (k: nat)
    requires i == n * t && lcm == t * a && lcm > 0
    ensures i * a == k * lcm
  {
    assert (n * t) * a == n * (t * a);
    if n < 0 {
      MulMono(n, -1, lcm);
      MulNonNeg(i, a);
      assert false;
    }
    k := n;
  }

  lemma CancelGcd(x: int, s: nat, y: int, t: nat, g: nat)
    requires g > 0 && x * (s * g) + y * (t * g) == g
    ensures x * s + y * t == 1
  {
    assert (x * s + y * t) * g == x * (s * g) + y * (t * g);
    MulCancel(x * s + y * t, 1, g);
  }

  lemma Combine(i: nat, j: nat, s: nat, t: nat, x: int, y: int)
    requires x * s + y * t == 1 && i * s == j * t
    ensures i == (x * j + y * i) * t
  {
    calc {
      i;
      i * (x * s + y * t);
      x * (i * s) + (y * i) * t;
      x * (j * t) + (y * i) * t;
      (x * j + y * i) * t;
    }
  }

  // ------------------------------------------------------------------ decimals

  /** `n` times a decimal. */
  function Multiple(n: nat, d: Dec): Dec {
    Dec(n * d.coef, d.exp)
  }

  /** `q` is a whole multiple of `d`, by value. */
  ghost predicate IsMultipleOf(q: Dec, d: Dec) {
    exists n: nat :: SameValue(q, Multiple(n, d))
  }

  function Finer(a: Dec, b: Dec): nat {
    if Places(a) > Places(b) then Places(a) else Places(b)
  }

  predicate AtMost(a: Dec, b: Dec) {
    Units(a, Finer(a, b)) <= Units(b, Finer(a, b))
  }

  lemma MultipleUnits(n: nat, d: Dec, p: nat)
    requires Places(d) <= p
    ensures Places(Multiple(n, d)) == Places(d) && Units(Multiple(n, d), p) == n * Units(d, p)
  {
    assert (n * d.coef) * Pow10(p + d.exp) == n * (d.coef * Pow10(p + d.exp));
  }

  /** Comparing in any unit fine enough for both gives the same answer. */
  lemma AtMostUnits(a: Dec, b: Dec, p: nat)
    requires Places(a) <= p && Places(b) <= p
    ensures AtMost(a, b) <==> Units(a, p) <= Units(b, p)
  {
    var m := Finer(a, b);
    UnitsScale(a, m, p);
    UnitsScale(b, m, p);
    ScaleOrder(Units(a, m), Units(b, m), Pow10(p - m));
  }

  lemma ScaleOrder(a: int, b: int, w: nat)
    requires w > 0
    ensures a <= b <==> a * w <= b * w
  {
    if a <= b {
      MulMono(a, b, w);
    } else {
      MulMono(b + 1, a, w);
    }
  }

  lemma MultipleFromUnits(q: Dec, d: Dec, p: nat, n: nat)
    requires Places(q) <= p && Places(d) <= p && Units(q, p) == n * Units(d, p)
    ensures SameValue(q, Multiple(n, d)) && IsMultipleOf(q, d)
  {
    MultipleUnits(n, d, p);
    SameValueUnits(q, Multiple(n, d), p);
  }

  lemma MultipleInUnits(q: Dec, d: Dec, p: nat) returns (n: nat)
    requires Places(q) <= p && Places(d) <= p && IsMultipleOf(q, d)
    ensures Units(q, p) == n * Units(d, p)
  {
    n :| SameValue(q, Multiple(n, d));
    MultipleUnits(n, d, p);
    SameValueUnits(q, Multiple(n, d), p);
  }

  lemma UnitsPositive(d: Dec, p: nat)
    requires Places(d) <= p
    ensures Units(d, p) > 0 <==> d.coef > 0
  {
    if d.coef > 0 {
      MulMono(1, d.coef, Pow10(p + d.exp));
    }
  }

  lemma SameValueTransfers(a: Dec, a': Dec, b: Dec)
    requires SameValue(a, a')
    ensures AtMost(a, b) == AtMost(a', b) && AtMost(b, a) == AtMost(b, a')
    ensures IsMultipleOf(a, b) == IsMultipleOf(a', b) && IsMultipleOf(b, a) == IsMultipleOf(b, a')
    ensures (a.coef > 0) == (a'.coef > 0)
  {
    var p := Places(a) + Places(a') + Places(b);
    SameValueUnits(a, a', p);
    AtMostUnits(a, b, p); AtMostUnits(a', b, p); AtMostUnits(b, a, p); AtMostUnits(b, a', p);
    UnitsPositive(a, p); UnitsPositive(a', p);
    if IsMultipleOf(a, b) { var n := MultipleInUnits(a, b, p); MultipleFromUnits(a', b, p, n); }
    if IsMultipleOf(a', b) { var n := MultipleInUnits(a', b, p); MultipleFromUnits(a, b, p, n); }
    if IsMultipleOf(b, a) { var n := MultipleInUnits(b, a, p); MultipleFromUnits(b, a', p, n); }
    if IsMultipleOf(b, a') { var n := MultipleInUnits(b, a', p); MultipleFromUnits(b, a, p, n); }
  }

  /** Both steps in their finer unit, and the integer lcm of the counts; `None` when a step is
      not positive. */
  function DecimalLcm(a: Dec, b: Dec): Option<Dec> {
    var p := Finer(a, b);
    var x, y := Units(a, p), Units(b, p);
    if x <= 0 || y <= 0 then None else Some(Dec(Lcm(x, y), 0 - p))
  }

  /** Round down to a multiple of the grid; `None` when the grid is not positive. */
  function FloorToGrid(amount: Dec, grid: Dec): Option<Dec> {
    if grid.coef == 0 then None
    else
      var p := Finer(amount, grid);
      UnitsPositive(grid, p);
      Some(Multiple(Units(amount, p) / Units(grid, p), grid))
  }

  lemma LcmUnits(a: Dec, b: Dec, p: nat)
    requires a.coef > 0 && b.coef > 0 && Finer(a, b) <= p
    ensures DecimalLcm(a, b).Some? && DecimalLcm(a, b).value.coef > 0
    ensures Places(DecimalLcm(a, b).value) == Finer(a, b)
    ensures Units(DecimalLcm(a, b).value, p) == Lcm(Units(a, Finer(a, b)), Units(b, Finer(a, b))) * Pow10(p - Finer(a, b))
  {
    var m := Finer(a, b);
    UnitsPositive(a, m);
    UnitsPositive(b, m);
    var s, t := LcmCofactors(Units(a, m), Units(b, m));
  }

  lemma LcmIsCommonMultiple(a: Dec, b: Dec)
    requires a.coef > 0 && b.coef > 0
    ensures DecimalLcm(a, b).Some? && DecimalLcm(a, b).value.coef > 0
    ensures IsMultipleOf(DecimalLcm(a, b).value, a) && IsMultipleOf(DecimalLcm(a, b).value, b)
  {
    var m := Finer(a, b);
    LcmUnits(a, b, m);
    UnitsPositive(a, m);
    UnitsPositive(b, m);
    var s, t := LcmCofactors(Units(a, m), Units(b, m));
    MultipleFromUnits(DecimalLcm(a, b).value, a, m, t);
    MultipleFromUnits(DecimalLcm(a, b).value, b, m, s);
  }

  lemma ScaledCommonMultiple(i: nat, j: nat, ua: nat, ub: nat, w: nat) returns (k: nat)
    requires ua > 0 && ub > 0 && w > 0 && i * (ua * w) == j * (ub * w)
    ensures i * (ua * w) == k * (Lcm(ua, ub) * w)
  {
    CancelBoth(i, ua, j, ub, w);
    k := LcmDividesCommonMultiples(ua, ub, i, j);
    Regroup(i, ua, k, Lcm(ua, ub), w);
  }

  lemma Regroup(i: nat, u: nat, k: nat, v: nat, w: nat)
    requires i * u == k * v
    ensures i * (u * w) == k * (v * w)
  {
    assert i * (u * w) == (i * u) * w && k * (v * w) == (k * v) * w;
  }

  /** Every common multiple of the two steps, however finely written, is a multiple of the lcm. */
  lemma CommonMultipleIsOnGrid(a: Dec, b: Dec, q: Dec)
    requires a.coef > 0 && b.coef > 0 && IsMultipleOf(q, a) && IsMultipleOf(q, b)
    ensures DecimalLcm(a, b).Some? && IsMultipleOf(q, DecimalLcm(a, b).value)
  {
    var m := Finer(a, b);
    var p := m + Places(q);
    LcmUnits(a, b, p);
    UnitsPositive(a, m);
    UnitsPositive(b, m);
    var i := MultipleInUnits(q, a, p);
    var j := MultipleInUnits(q, b, p);
    UnitsScale(a, m, p);
    UnitsScale(b, m, p);
    var k := ScaledCommonMultiple(i, j, Units(a, m), Units(b, m), Pow10(p - m));
    MultipleFromUnits(q, DecimalLcm(a, b).value, p, k);
  }

  /** `g` is the least positive common multiple of `a` and `b`. */
  ghost predicate LeastCommonMultiple(g: Dec, a: Dec, b: Dec) {
    && g.coef > 0 && IsMultipleOf(g, a) && IsMultipleOf(g, b)
    && forall q: Dec | q.coef > 0 && IsMultipleOf(q, a) && IsMultipleOf(q, b) :: AtMost(g, q) && IsMultipleOf(q, g)
  }

  lemma PositiveMultipleIsNoSmaller(q: Dec, g: Dec)
    requires q.coef > 0 && g.coef > 0 && IsMultipleOf(q, g)
    ensures AtMost(g, q)
  {
    var p := Places(q) + Places(g);
    var n := MultipleInUnits(q, g, p);
    UnitsPositive(q, p);
    if n > 0 {
      MulMono(1, n, Units(g, p));
    }
    AtMostUnits(g, q, p);
  }

  /** The grid is the least positive common multiple of the steps, and it exists exactly when
      both steps are positive. */
  lemma DecimalLcmIsLeast(a: Dec, b: Dec)
    ensures DecimalLcm(a, b).Some? <==> a.coef > 0 && b.coef > 0
    ensures DecimalLcm(a, b).Some? ==> LeastCommonMultiple(DecimalLcm(a, b).value, a, b)
  {
    UnitsPositive(a, Finer(a, b));
    UnitsPositive(b, Finer(a, b));
    if a.coef > 0 && b.coef > 0 {
      LcmIsCommonMultiple(a, b);
      var g := DecimalLcm(a, b).value;
      forall q: Dec | q.coef > 0 && IsMultipleOf(q, a) && IsMultipleOf(q, b)
        ensures AtMost(g, q) && IsMultipleOf(q, g)
      {
        CommonMultipleIsOnGrid(a, b, q);
        PositiveMultipleIsNoSmaller(q, g);
      }
    }
  }

  lemma LcmIsBelow(a: Dec, b: Dec, q: Dec)
    requires a.coef > 0 && b.coef > 0 && q.coef > 0 && IsMultipleOf(q, a) && IsMultipleOf(q, b)
    ensures DecimalLcm(a, b).Some? && AtMost(DecimalLcm(a, b).value, q)
  {
    LcmIsCommonMultiple(a, b);
    CommonMultipleIsOnGrid(a, b, q);
    PositiveMultipleIsNoSmaller(q, DecimalLcm(a, b).value);
  }

  /** Trailing zeros in the steps do not change the grid. */
  lemma {:induction false} GridIgnoresTrailingZeros(a: Dec, a': Dec, b: Dec, b': Dec)
    requires SameValue(a, a') && SameValue(b, b') && DecimalLcm(a, b).Some?
    ensures DecimalLcm(a', b').Some? && SameValue(DecimalLcm(a, b).value, DecimalLcm(a', b').value)
  {
    DecimalLcmIsLeast(a, b);
    SameValueTransfers(a, a', b);
    SameValueTransfers(b, b', a);
    LcmIsCommonMultiple(a', b');
    var g, h := DecimalLcm(a, b).value, DecimalLcm(a', b').value;
    SameValueTransfers(a, a', g); SameValueTransfers(b, b', g);
    SameValueTransfers(a, a', h); SameValueTransfers(b, b', h);
    LcmIsBelow(a, b, h);
    LcmIsBelow(a', b', g);
  }

  /** `q` is the greatest multiple of `grid` that is at most `amount`. */
  ghost predicate GreatestPoint(q: Dec, grid: Dec, amount: Dec) {
    && IsMultipleOf(q, grid) && AtMost(q, amount)
    && forall x: Dec | IsMultipleOf(x, grid) && AtMost(x, amount) :: AtMost(x, q)
  }

  lemma {:induction false} FloorToGridIsGreatest(amount: Dec, grid: Dec)
    requires grid.coef > 0
    ensures FloorToGrid(amount, grid).Some? && GreatestPoint(FloorToGrid(amount, grid).value, grid, amount)
  {
    var p := Finer(amount, grid);
    UnitsPositive(grid, p);
    var ua, ug := Units(amount, p), Units(grid, p);
    var k, r := DivMod(ua, ug);
    var q := FloorToGrid(amount, grid).value;
    MultipleUnits(k, grid, p);
    MultipleFromUnits(q, grid, p, k);
    AtMostUnits(q, amount, p);
    forall x: Dec | IsMultipleOf(x, grid) && AtMost(x, amount)
      ensures AtMost(x, q)
    {
      NoLargerPoint(x, q, amount, grid, p, k, r);
    }
  }

  lemma NoLargerPoint(x: Dec, q: Dec, amount: Dec, grid: Dec, p: nat, k: nat, r: nat)
    requires Places(amount) <= p && Places(grid) <= p && Places(q) <= p
    requires Units(q, p) == k * Units(grid, p) && Units(amount, p) == k * Units(grid, p) + r && r < Units(grid, p)
    requires IsMultipleOf(x, grid) && AtMost(x, amount)
    ensures AtMost(x, q)
  {
    var f := p + Places(x);
    var n := MultipleInUnits(x, grid, f);
    UnitsScale(amount, p, f);
    UnitsScale(grid, p, f);
    UnitsScale(q, p, f);
    AtMostUnits(x, amount, f);
    AtMostUnits(x, q, f);
    NoLargerMultiple(n, k, Units(grid, p), r, Pow10(f - p));
  }

  lemma NoLargerMultiple(n: nat, k: nat, g: nat, r: nat, w: nat)
    requires r < g && w > 0 && n * (g * w) <= (k * g + r) * w
    ensures n * (g * w) <= (k * g) * w
  {
    assert n * (g * w) == (n * g) * w;
    CancelAtMost(n * g, k * g + r, w);
    FewerMultiples(n, k, g, r);
    MulMono(n, k, g);
    MulMono(n * g, k * g, w);
  }

  lemma CancelAtMost(a: int, b: int, w: nat)
    requires w > 0 && a * w <= b * w
    ensures a <= b
  {
    if b < a {
      MulMono(b + 1, a, w);
    }
  }

  lemma FewerMultiples(n: nat, k: nat, g: nat, r: nat)
    requires r < g && n * g <= k * g + r
    ensures n <= k
  {
    if n > k {
      MulMono(k + 1, n, g);
    }
  }
}
