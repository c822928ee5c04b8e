/** Decimal text: canonical integers, plain fixed-point decimals, and the fixed-point printer. A
    decimal is a non-negative coefficient and a power of ten, as the source's `Decimal` holds it. */
module DecimalText {
  import opened Options
  import opened Arithmetic

  predicate IsDigit(c: char) { '0' <= c <= '9' }

  predicate AllDigits(s: string) {
    forall i | 0 <= i < |s| :: IsDigit(s[i])
  }

  function DigitValue(c: char): nat
    requires IsDigit(c)
  {
    c as int - '0' as int
  }

  function DigitChar(d: nat): (c: char)
    requires d < 10
    ensures IsDigit(c) && DigitValue(c) == d
  {
    ('0' as int + d) as char
  }

  function Pow10(n: nat): (r: nat)
    ensures r >= 1
  {
    if n == 0 then 1 else 10 * Pow10(n - 1)
  }

  /** The number a digit string stands for. */
  function DigitsValue(s: string): nat
    requires AllDigits(s)
  {
    if s == "" then 0 else 10 * DigitsValue(s[..|s| - 1]) + DigitValue(s[|s| - 1])
  }

  /** Canonical decimal text of a natural number. */
  function NatText(n: nat): (s: string)
    ensures s != "" && AllDigits(s)
  {
    if n < 10 then [DigitChar(n)] else NatText(n / 10) + [DigitChar(n % 10)]
  }

  lemma NatTextValue(n: nat)
    ensures DigitsValue(NatText(n)) == n
  {
    if n < 10 {
      assert [DigitChar(n)][..0] == "";
    } else {
      NatTextValue(n / 10);
      var s := NatText(n / 10);
      assert (s + [DigitChar(n % 10)])[..|s|] == s;
    }
  }

  /** No leading zero, except for zero itself. */
  lemma NatTextCanonical(n: nat)
    ensures NatText(n)[0] == '0' <==> n == 0
    ensures n == 0 ==> NatText(n) == "0"
  {
    if n >= 10 {
      NatTextCanonical(n / 10);
    }
  }

  // ------------------------------------------------------------------ decimals

  /** The value `coef * 10^exp`. */
  datatype Dec = Dec(coef: nat, exp: int)

  /** Decimal places the value is written with. */
  function Places(d: Dec): nat {
    if d.exp < 0 then -d.exp else 0
  }

  /** The value in units of `10^-p`. */
  function Units(d: Dec, p: nat): nat
    requires Places(d) <= p
  {
    d.coef * Pow10(p + d.exp)
  }

  lemma {:induction false} Pow10Add(a: nat, b: nat)
    ensures Pow10(a + b) == Pow10(a) * Pow10(b)
  {
    if a > 0 {
      Pow10Add(a - 1, b);
    }
  }

  /** A finer unit scales every value alike. */
  lemma UnitsScale(d: Dec, p: nat, q: nat)
    requires Places(d) <= p <= q
    ensures Units(d, q) == Units(d, p) * Pow10(q - p)
  {
    Pow10Add(p + d.exp, q - p);
    assert d.coef * (Pow10(p + d.exp) * Pow10(q - p)) == (d.coef * Pow10(p + d.exp)) * Pow10(q - p);
  }

  /** Two decimals with the same value, whatever their trailing zeros. */
  predicate SameValue(a: Dec, b: Dec) {
    var p := if Places(a) > Places(b) then Places(a) else Places(b);
    Units(a, p) == Units(b, p)
  }

  /** Equal values are equal in any unit fine enough for both. */
  lemma SameValueUnits(a: Dec, b: Dec, p: nat)
    requires Places(a) <= p && Places(b) <= p
    ensures SameValue(a, b) <==> Units(a, p) == Units(b, p)
  {
    var m := if Places(a) > Places(b) then Places(a) else Places(b);
    UnitsScale(a, m, p);
    UnitsScale(b, m, p);
    MulCancel(Units(a, m), Units(b, m), Pow10(p - m));
  }

  lemma MulCancel(a: int, b: int, n: int)
    requires n > 0
    ensures a * n == b * n <==> a == b
  {
    if a < b {
      MulMono(a + 1, b, n);
    } else if b < a {
      MulMono(b + 1, a, n);
    }
  }

  // ------------------------------------------------------------------- parsing

  /** Position of the first dot, or the length. */
  function FindDot(s: string): (k: nat)
    ensures k <= |s| && (k < |s| ==> s[k] == '.') && forall i | 0 <= i < k :: s[i] != '.'
  {
    if s == "" || s[0] == '.' then 0 else 1 + FindDot(s[1..])
  }

  /** `[0-9]+(\.[0-9]+)?` */
  predicate PlainShape(s: string) {
    var k := FindDot(s);
    && k > 0 && AllDigits(s[..k])
    && (k < |s| ==> k + 1 < |s| && AllDigits(s[k + 1..]))
  }

  function PlainValue(s: string): Dec
    requires PlainShape(s)
  {
    var k := FindDot(s);
    if k == |s| then Dec(DigitsValue(s[..k]), 0)
    else Dec(DigitsValue(s[..k] + s[k + 1..]), -(|s| - k - 1))
  }

  /** A source pattern ending in `$` also matches before one final newline. */
  function DropFinalNewline(s: string): string {
    if s != "" && s[|s| - 1] == '\n' then s[..|s| - 1] else s
  }

  /** What the source's shape check lets through, as a decimal. */
  function ParsePlain(s: string): Option<Dec> {
    var body := DropFinalNewline(s);
    if PlainShape(body) then Some(PlainValue(body)) else None
  }

  /** Exactly one newline, and that at the end. */
  predicate EndsInOneNewline(s: string) {
    s != "" && s[|s| - 1] == '\n' && '\n' !in s[..|s| - 1]
  }

  lemma PlainHasNoNewline(s: string)
    requires PlainShape(s)
    ensures '\n' !in s
  {
    var k := FindDot(s);
    forall i | 0 <= i < |s| ensures s[i] != '\n' {
      if i < k {
        assert s[..k][i] == s[i];
      } else if i > k {
        assert s[k + 1..][i - k - 1] == s[i];
      }
    }
  }

  /** What is read although it breaks the documented pattern is exactly what ends in one newline. */
  lemma PlainExceptNewline(s: string)
    requires ParsePlain(s).Some?
    ensures !PlainShape(s) <==> EndsInOneNewline(s)
  {
    PlainHasNoNewline(DropFinalNewline(s));
    if PlainShape(s) {
      PlainHasNoNewline(s);
    }
  }

  /** A final newline changes nothing of how a documented text is read. */
  lemma NewlineReadsAlike(s: string)
    requires PlainShape(s)
    ensures ParsePlain(s + "\n") == ParsePlain(s) == Some(PlainValue(s)) && EndsInOneNewline(s + "\n")
  {
    PlainHasNoNewline(s);
    assert (s + "\n")[..|s|] == s;
    assert s != "" ==> s[|s| - 1] in s;
  }

  lemma PlainText(ip: string, fp: string)
    requires ip != "" && AllDigits(ip) && AllDigits(fp)
    ensures PlainShape(ip) && PlainValue(ip) == Dec(DigitsValue(ip), 0)
    ensures fp != "" ==> PlainShape(ip + "." + fp) && PlainValue(ip + "." + fp) == Dec(DigitsValue(ip + fp), -|fp|)
    ensures DropFinalNewline(ip) == ip && (fp != "" ==> DropFinalNewline(ip + "." + fp) == ip + "." + fp)
  {
    assert FindDot(ip) == |ip|;
    assert ip[..|ip|] == ip;
    var s := ip + "." + fp;
    assert s[|ip|] == '.';
    assert FindDot(s) == |ip|;
    assert s[..|ip|] == ip && s[|ip| + 1..] == fp;
  }

  // ------------------------------------------------------------------ printing

  /** The low `p` digits of `n`, zero-padded. */
  function Padded(n: nat, p: nat): (s: string)
    ensures |s| == p && AllDigits(s)
  {
    if p == 0 then "" else Padded(n / 10, p - 1) + [DigitChar(n % 10)]
  }

  function PointText(whole: nat, rest: nat, p: nat): string {
    NatText(whole) + "." + Padded(rest, p)
  }

  /** Fixed-point text without scientific notation, trailing zeros kept. */
  function FixedText(d: Dec): string {
    if d.exp >= 0 then NatText(d.coef * Pow10(d.exp)) else SplitText(d.coef, Pow10(-d.exp), -d.exp)
  }

  /** `n` hundredths, thousandths and so on: `unit` is `10^p`. */
  function SplitText(n: nat, unit: nat, p: nat): string
    requires unit > 0
  {
    PointText(n / unit, n % unit, p)
  }

  function RStrip(s: string, c: char): string {
    if s != "" && s[|s| - 1] == c then RStrip(s[..|s| - 1], c) else s
  }

  /** Fixed-point text with trailing zeros, and a bare trailing dot, stripped. */
  function FmtDecimal(d: Dec): string {
    Stripped(FixedText(d))
  }

  function Stripped(text: string): string {
    var stripped := if '.' in text then RStrip(RStrip(text, '0'), '.') else text;
    if stripped != "" then stripped else "0"
  }

  lemma {:induction false} PaddedValue(n: nat, p: nat)
    requires n < Pow10(p)
    ensures DigitsValue(Padded(n, p)) == n
  {
    if p > 0 {
      PaddedValue(n / 10, p - 1);
      assert Padded(n, p)[..p - 1] == Padded(n / 10, p - 1);
    }
  }

  lemma ConcatStep(x: nat, pw: nat, y: nat, d: nat)
    ensures 10 * (x * pw + y) + d == x * (10 * pw) + (10 * y + d)
  {
  }

  lemma DigitsJoin(a: string, b: string)
    requires AllDigits(a) && AllDigits(b)
    ensures AllDigits(a + b)
  {
  }

  lemma DigitsSnoc(s: string, c: char)
    requires AllDigits(s) && IsDigit(c)
    ensures AllDigits(s + [c]) && DigitsValue(s + [c]) == 10 * DigitsValue(s) + DigitValue(c)
  {
    assert (s + [c])[..|s|] == s;
  }

  lemma {:induction false} DigitsConcat(a: string, b: string)
    requires AllDigits(a) && AllDigits(b)
    ensures AllDigits(a + b) && DigitsValue(a + b) == DigitsValue(a) * Pow10(|b|) + DigitsValue(b)
  {
    DigitsJoin(a, b);
    if b == "" {
      assert a + b == a;
    } else {
      var init, c := b[..|b| - 1], b[|b| - 1];
      DigitsConcat(a, init);
      DigitsSnoc(a + init, c);
      assert a + b == (a + init) + [c];
      ConcatStep(DigitsValue(a), Pow10(|init|), DigitsValue(init), DigitValue(c));
    }
  }

  lemma TenTimes(v: nat, w: nat)
    ensures v * (10 * w) == 10 * (v * w) && v * w >= 0
  {
    MulNonNeg(v, w);
  }

  /** Dropping trailing zeros divides the digits by a power of ten. */
  lemma {:induction false} StripZeros(s: string)
    requires AllDigits(s)
    ensures
      var t := RStrip(s, '0');
      && |t| <= |s| && t == s[..|t|] && AllDigits(t)
      && DigitsValue(s) == DigitsValue(t) * Pow10(|s| - |t|)
  {
    if s != "" && s[|s| - 1] == '0' {
      var init := s[..|s| - 1];
      StripZeros(init);
      var t := RStrip(init, '0');
      TenTimes(DigitsValue(t), Pow10(|init| - |t|));
      assert t == s[..|t|];
    }
  }

  /** Stripping zeros works on the fraction and stops at the dot. */
  lemma {:induction false} StripAfterDot(ip: string, fp: string)
    requires AllDigits(ip) && AllDigits(fp)
    ensures RStrip(ip + "." + fp, '0') == ip + "." + RStrip(fp, '0')
  {
    var s := ip + "." + fp;
    if fp != "" && fp[|fp| - 1] == '0' {
      assert s[..|s| - 1] == ip + "." + fp[..|fp| - 1];
      StripAfterDot(ip, fp[..|fp| - 1]);
    }
  }

  lemma NoDotToStrip(s: string)
    requires s == "" || s[|s| - 1] != '.'
    ensures RStrip(s, '.') == s
  {
  }

  function Joined(ip: string, fp: string): string {
    if fp == "" then ip else ip + "." + fp
  }

  predicate NoTrailingZero(fp: string) {
    fp == "" || fp[|fp| - 1] != '0'
  }

  lemma {:induction false} StripStops(s: string, c: char)
    ensures RStrip(s, c) == "" || RStrip(s, c)[|RStrip(s, c)| - 1] != c
  {
    if s != "" && s[|s| - 1] == c {
      StripStops(s[..|s| - 1], c);
    }
  }

  /** Stripping leaves a fraction whose digits, in the original unit, are the same number. */
  lemma FractionDigits(whole: nat, rest: nat, p: nat) returns (fp: string)
    requires p > 0 && rest < Pow10(p)
    ensures AllDigits(fp) && |fp| <= p && AllDigits(NatText(whole) + fp)
    ensures DigitsValue(NatText(whole) + fp) * Pow10(p - |fp|) == whole * Pow10(p) + rest
    ensures Stripped(PointText(whole, rest, p)) == Joined(NatText(whole), fp)
    ensures NoTrailingZero(fp)
  {
    var full := Padded(rest, p);
    fp := RStrip(full, '0');
    StripStops(full, '0');
    StripZeros(full);
    FractionText(NatText(whole), fp, full);
    PaddedValue(rest, p);
    FractionValue(whole, fp, p);
  }

  lemma FractionValue(whole: nat, fp: string, p: nat)
    requires AllDigits(fp) && |fp| <= p
    ensures AllDigits(NatText(whole) + fp)
    ensures DigitsValue(NatText(whole) + fp) * Pow10(p - |fp|) == whole * Pow10(p) + DigitsValue(fp) * Pow10(p - |fp|)
  {
    NatTextValue(whole);
    DigitsConcat(NatText(whole), fp);
    FractionUnits(whole, DigitsValue(fp), |fp|, p);
  }

  lemma FractionUnits(whole: nat, f: nat, k: nat, p: nat)
    requires k <= p
    ensures (whole * Pow10(k) + f) * Pow10(p - k) == whole * Pow10(p) + f * Pow10(p - k)
  {
    Pow10Add(k, p - k);
    StrippedUnits(whole, f, Pow10(k), Pow10(p - k));
  }

  lemma FractionText(ip: string, fp: string, full: string)
    requires ip != "" && AllDigits(ip) && AllDigits(full) && AllDigits(fp) && fp == RStrip(full, '0')
    ensures Stripped(ip + "." + full) == Joined(ip, fp)
  {
    StripAfterDot(ip, full);
    StrippedText(ip, fp, full);
  }

  lemma IntegerText(ip: string)
    requires ip != "" && AllDigits(ip)
    ensures Stripped(ip) == Joined(ip, "") && ip + "" == ip
  {
  }

  lemma DivMod(n: nat, m: nat) returns (q: nat, r: nat)
    requires m > 0
    ensures q == n / m && r == n % m && n == q * m + r && r < m
  {
    q, r := n / m, n % m;
  }

  /** The printed text: integer part, and the fraction without trailing zeros when one is left. */
  lemma FmtShape(d: Dec) returns (whole: nat, fp: string)
    ensures AllDigits(fp) && FmtDecimal(d) == Joined(NatText(whole), fp) && |fp| <= Places(d)
    ensures AllDigits(NatText(whole) + fp)
    ensures DigitsValue(NatText(whole) + fp) * Pow10(Places(d) - |fp|) == Units(d, Places(d))
    ensures NoTrailingZero(fp)
  {
    if d.exp >= 0 {
      whole, fp := Units(d, 0), "";
      NatTextValue(whole);
      IntegerText(NatText(whole));
    } else {
      var rest;
      whole, rest := DivMod(d.coef, Pow10(-d.exp));
      fp := FractionDigits(whole, rest, -d.exp);
      assert FixedText(d) == PointText(whole, rest, -d.exp);
      assert Units(d, Places(d)) == d.coef * Pow10(0);
    }
  }

  lemma StrippedUnits(ip: nat, f: nat, a: nat, b: nat)
    ensures (ip * a + f) * b == ip * (a * b) + f * b
  {
  }

  lemma StrippedText(ip: string, fp: string, full: string)
    requires ip != "" && AllDigits(ip) && AllDigits(fp)
    requires RStrip(ip + "." + full, '0') == ip + "." + fp
    ensures '.' in ip + "." + full
    ensures RStrip(RStrip(ip + "." + full, '0'), '.') == Joined(ip, fp)
  {
    assert (ip + "." + full)[|ip|] == '.';
    if fp == "" {
      var s := ip + "." + fp;
      assert s[..|s| - 1] == ip;
      NoDotToStrip(ip);
    } else {
      NoDotToStrip(ip + "." + fp);
    }
  }

  lemma JoinedValue(ip: nat, fp: string)
    requires AllDigits(fp)
    ensures AllDigits(NatText(ip) + fp)
    ensures ParsePlain(Joined(NatText(ip), fp)) == Some(Dec(DigitsValue(NatText(ip) + fp), -|fp|))
  {
    JoinedParses(NatText(ip), fp);
  }

  lemma JoinedParses(ip: string, fp: string)
    requires ip != "" && AllDigits(ip) && AllDigits(fp)
    ensures AllDigits(ip + fp) && ParsePlain(Joined(ip, fp)) == Some(Dec(DigitsValue(ip + fp), -|fp|))
  {
    PlainText(ip, fp);
    if fp == "" {
      assert ip + fp == ip;
    }
  }

  lemma ParsedUnits(v: nat, k: nat, d: Dec)
    requires k <= Places(d) && v * Pow10(Places(d) - k) == Units(d, Places(d))
    ensures SameValue(Dec(v, 0 - k), d)
  {
    assert Units(Dec(v, 0 - k), Places(d)) == v * Pow10(Places(d) - k);
    SameValueUnits(Dec(v, 0 - k), d, Places(d));
  }

  // ------------------------------------------------------------- one text a value

  lemma {:induction false} DigitsBound(s: string)
    requires AllDigits(s)
    ensures DigitsValue(s) < Pow10(|s|)
  {
    if s != "" {
      DigitsBound(s[..|s| - 1]);
    }
  }

  lemma {:induction false} SameDigits(a: string, b: string)
    requires AllDigits(a) && AllDigits(b) && |a| == |b| && DigitsValue(a) == DigitsValue(b)
    ensures a == b
  {
    if a != "" {
      var n := |a| - 1;
      assert DigitValue(a[n]) == DigitValue(b[n]);
      SameDigits(a[..n], b[..n]);
      assert a == a[..n] + [a[n]] && b == b[..n] + [b[n]];
    }
  }

  /** A number that is ten times another ends in a zero. */
  lemma EndsInZero(ip: string, fp: string, x: nat)
    requires fp != "" && AllDigits(ip + fp) && DigitsValue(ip + fp) == 10 * x
    ensures fp[|fp| - 1] == '0'
  {
    var s := ip + fp;
    assert s[|s| - 1] == fp[|fp| - 1];
    assert DigitValue(s[|s| - 1]) == 10 * (x - DigitsValue(s[..|s| - 1]));
  }

  /** A longer fraction would have to end in a zero. */
  lemma FractionNoLonger(v1: nat, k1: nat, ip: string, fp: string, p: nat)
    requires AllDigits(ip + fp) && NoTrailingZero(fp) && k1 <= p && |fp| <= p
    requires v1 * Pow10(p - k1) == DigitsValue(ip + fp) * Pow10(p - |fp|)
    ensures |fp| <= k1
  {
    if k1 < |fp| {
      var d := |fp| - k1;
      Pow10Add(d, p - |fp|);
      assert v1 * (Pow10(d) * Pow10(p - |fp|)) == (v1 * Pow10(d)) * Pow10(p - |fp|);
      MulCancel(v1 * Pow10(d), DigitsValue(ip + fp), Pow10(p - |fp|));
      TenTimes(v1, Pow10(d - 1));
      EndsInZero(ip, fp, v1 * Pow10(d - 1));
    }
  }

  /** Whole part and fraction of a given length are determined by the digits together. */
  lemma SplitUnique(w1: nat, f1: string, w2: nat, f2: string)
    requires AllDigits(f1) && AllDigits(f2) && |f1| == |f2|
    requires AllDigits(NatText(w1) + f1) && AllDigits(NatText(w2) + f2)
    requires DigitsValue(NatText(w1) + f1) == DigitsValue(NatText(w2) + f2)
    ensures w1 == w2 && f1 == f2
  {
    DigitsConcat(NatText(w1), f1);
    DigitsConcat(NatText(w2), f2);
    NatTextValue(w1);
    NatTextValue(w2);
    DigitsBound(f1);
    DigitsBound(f2);
    var v, m := DigitsValue(NatText(w1) + f1), Pow10(|f1|);
    DivModUnique(v, m, w1, DigitsValue(f1));
    DivModUnique(v, m, w2, DigitsValue(f2));
    SameDigits(f1, f2);
  }

  lemma SameUnitsSameShape(w1: nat, f1: string, w2: nat, f2: string, u: nat, p: nat)
    requires NoTrailingZero(f1) && NoTrailingZero(f2) && Writes(w1, f1, u, p) && Writes(w2, f2, u, p)
    ensures w1 == w2 && f1 == f2
  {
    FractionNoLonger(DigitsValue(NatText(w1) + f1), |f1|, NatText(w2), f2, p);
    FractionNoLonger(DigitsValue(NatText(w2) + f2), |f2|, NatText(w1), f1, p);
    MulCancel(DigitsValue(NatText(w1) + f1), DigitsValue(NatText(w2) + f2), Pow10(p - |f1|));
    SplitUnique(w1, f1, w2, f2);
  }

  lemma Rescale(v: nat, a: nat, b: nat, u: nat)
    requires v * a == u
    ensures v * (a * b) == u * b
  {
    assert v * (a * b) == (v * a) * b;
  }

  lemma ShapeUnits(d: Dec, v: nat, k: nat, p: nat)
    requires k <= Places(d) <= p && v * Pow10(Places(d) - k) == Units(d, Places(d))
    ensures v * Pow10(p - k) == Units(d, p)
  {
    UnitsScale(d, Places(d), p);
    Pow10Add(Places(d) - k, p - Places(d));
    Rescale(v, Pow10(Places(d) - k), Pow10(p - Places(d)), Units(d, Places(d)));
  }

  /** `whole` and `fp` write the value `u` counted in units of `10^-p`. */
  ghost predicate Writes(whole: nat, fp: string, u: nat, p: nat) {
    && AllDigits(fp) && |fp| <= p && AllDigits(NatText(whole) + fp)
    && DigitsValue(NatText(whole) + fp) * Pow10(p - |fp|) == u
  }

  lemma WritesFiner(d: Dec, whole: nat, fp: string, p: nat)
    requires Places(d) <= p && Writes(whole, fp, Units(d, Places(d)), Places(d))
    ensures Writes(whole, fp, Units(d, p), p)
  {
    ShapeUnits(d, DigitsValue(NatText(whole) + fp), |fp|, p);
  }

  /** The printed shape, in any unit fine enough for the value. */
  lemma FmtShapeIn(d: Dec, p: nat) returns (whole: nat, fp: string)
    requires Places(d) <= p
    ensures FmtDecimal(d) == Joined(NatText(whole), fp) && NoTrailingZero(fp) && Writes(whole, fp, Units(d, p), p)
  {
    whole, fp := FmtShape(d);
    assert Writes(whole, fp, Units(d, Places(d)), Places(d));
    WritesFiner(d, whole, fp, p);
  }

  lemma WritesParses(d: Dec, whole: nat, fp: string)
    requires Writes(whole, fp, Units(d, Places(d)), Places(d))
    ensures ParsePlain(Joined(NatText(whole), fp)).Some?
    ensures SameValue(ParsePlain(Joined(NatText(whole), fp)).value, d)
  {
    JoinedValue(whole, fp);
    ParsedUnits(DigitsValue(NatText(whole) + fp), |fp|, d);
  }

  /** Printing and parsing back gives the same value. */
  lemma FmtRoundTrip(d: Dec)
    ensures ParsePlain(FmtDecimal(d)).Some? && SameValue(ParsePlain(FmtDecimal(d)).value, d)
  {
    var whole, fp := FmtShapeIn(d, Places(d));
    WritesParses(d, whole, fp);
  }

  /** Decimals of the same value print the same, however many trailing zeros they carry. */
  lemma FmtDependsOnValue(a: Dec, b: Dec)
    requires SameValue(a, b)
    ensures FmtDecimal(a) == FmtDecimal(b)
  {
    var p := Places(a) + Places(b);
    SameValueUnits(a, b, p);
    var w1, f1 := FmtShapeIn(a, p);
    var w2, f2 := FmtShapeIn(b, p);
    SameUnitsSameShape(w1, f1, w2, f2, Units(a, p), p);
  }

  /** Two decimals print the same text exactly when they have the same value. */
  lemma FmtIdentifiesValue(a: Dec, b: Dec)
    ensures FmtDecimal(a) == FmtDecimal(b) <==> SameValue(a, b)
  {
    if SameValue(a, b) {
      FmtDependsOnValue(a, b);
    }
    if FmtDecimal(a) == FmtDecimal(b) {
      FmtRoundTrip(a);
      FmtRoundTrip(b);
      SameThrough(a, b, ParsePlain(FmtDecimal(a)).value);
    }
  }

  lemma SameThrough(a: Dec, b: Dec, r: Dec)
    requires SameValue(r, a) && SameValue(r, b)
    ensures SameValue(a, b)
  {
    var p := Places(a) + Places(b) + Places(r);
    SameValueUnits(r, a, p);
    SameValueUnits(r, b, p);
    SameValueUnits(a, b, p);
  }
}
