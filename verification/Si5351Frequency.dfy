/** How far the frequency that the programmed registers of an Si5351 produce is from the one
    asked for, end to end through patches/red_pitaya_fsbl_hooks.c. */
module Si5351Frequency {
  import opened Si5351Calc
  import opened Si5351Regs
  import Arith

  /** The default XREF_FREQ, and the reference for which 36 times it is the assumed 900 MHz. */
  const DEFAULT_XTAL: nat := 24_576_000
  const NOMINAL_XTAL: nat := 25_000_000

  /** Reference times PLL multiplier over output divider over R divider. */
  function Synthesized(xtal: nat, mult: real, div: real, rdiv: nat): real
    requires div > 0.0
  {
    xtal as real * mult / div / Arith.Power2(rdiv) as real
  }

  /** The frequency of an output whose two stages read back as these. */
  function Frequency(xtal: nat, pll: Stage, out: Stage): real
    requires pll.p3 > 0 && out.p3 > 0 && out.Ratio() > 0.0
  {
    Synthesized(xtal, pll.Ratio(), out.Ratio(), out.rdiv)
  }

  /** x + y/z. */
  function Mixed(x: nat, y: nat, z: nat): real
    requires z > 0
  {
    x as real + y as real / z as real
  }

  lemma Ratios(fclk: nat, xtal: nat)
    requires 0x10_0000 <= xtal <= 150_000_000
    ensures
      var (pll, out) := Calc(fclk, xtal);
      && pll.denom > 0 && out.denom > 0
      && PllFor(fclk, xtal).Ratio() == Mixed(pll.mult, pll.num, pll.denom)
      && OutputFor(fclk, xtal).Ratio() == Mixed(out.div, out.num, out.denom) >= 4.0
      && OutputFor(fclk, xtal).rdiv == RDiv(fclk)
  {
    CalcFits(fclk, xtal);
    StagesFit(fclk, xtal);
    var (pll, out) := Calc(fclk, xtal);
    if Scaled(fclk) >= LOW_LIMIT {
      MultiplierRange(Scaled(fclk), xtal);
    }
    ParametersFit(pll.mult, pll.num, pll.denom, 0);
    StageIsExact(pll.mult, pll.num, pll.denom, PllStage(pll));
    if out.div != 4 {
      ParametersFit(out.div, out.num, out.denom, out.rdiv);
      StageIsExact(out.div, out.num, out.denom, OutputStage(out));
    }
    assert out.num as real / out.denom as real >= 0.0;
  }

  function Output(fclk: nat, xtal: nat): real
    requires 0x10_0000 <= xtal <= 150_000_000
  {
    Ratios(fclk, xtal);
    Frequency(xtal, PllFor(fclk, xtal), OutputFor(fclk, xtal))
  }

  lemma OutputIs(fclk: nat, xtal: nat, pll: PllConfig, out: OutputConfig)
    requires 0x10_0000 <= xtal <= 150_000_000 && Calc(fclk, xtal) == (pll, out)
    ensures pll.denom > 0 && out.denom > 0 && Mixed(out.div, out.num, out.denom) >= 4.0
    ensures Output(fclk, xtal)
         == Synthesized(xtal, Mixed(pll.mult, pll.num, pll.denom), Mixed(out.div, out.num, out.denom), RDiv(fclk))
  {
    Ratios(fclk, xtal);
  }

  lemma WholeDivider(x: nat)
    ensures Mixed(x, 0, 1) == x as real && Arith.Power2(0) == 1
  {
  }

  // --------------------------------------------------------------- the high branch

  lemma MultiplesOf24(x: nat, f: nat)
    requires x in {4, 6, 8}
    ensures x * f % 24 == x * (f % (24 / x))
  {
  }

  lemma DivideBack(x: nat, k: nat)
    requires x > 0
    ensures (x * k) as real / x as real == k as real
  {
    assert (x * k) as real == x as real * k as real;
  }

  // ---------------------------------------------------------------- the low branch

  lemma MixedQuotient(x: nat, y: nat, z: nat)
    requires z > 0 && x > 0
    ensures x * z + y > 0
    ensures FPLL as real / Mixed(x, y, z) == (FPLL * z) as real / (x * z + y) as real
  {
    var a, b, c := x as real, y as real, z as real;
    assert x * z >= 1;
    assert c * Mixed(x, y, z) == a * c + b;
    assert (x * z + y) as real == a * c + b;
    var mixed := Mixed(x, y, z);
    assert mixed > 0.0;
    assert (FPLL as real * c) / (c * mixed) == FPLL as real / mixed;
  }

  /** n/m - f is strictly between -e and e exactly when n - f m is between -e m and e m. */
  lemma FractionBound(n: nat, f: nat, m: nat, e: nat)
    requires m > 0
    ensures (n - f * m < e * m && -(n - f * m) < e * m)
       <==> -(e as real) < n as real / m as real - f as real < e as real
  {
    var q, r := n as real / m as real, m as real;
    assert q * r == n as real;
    assert (n - f * m) as real == (q - f as real) * r;
    assert (e * m) as real == e as real * r;
    var d := q - f as real;
    assert d < e as real <==> d * r < e as real * r;
    assert -d < e as real <==> -(d * r) < e as real * r;
  }

  /** Times 900 MHz, the integer bound of Within is the bound on the real output frequency. */
  lemma WithinIsReal(f: nat, e: nat)
    requires 512_000 <= f < LOW_LIMIT
    ensures
      var s := TermsOf(f);
      && s.z > 0 && s.x >= 11
      && (Within(f, e) <==> -(e as real) < FPLL as real / Mixed(s.x, s.y, s.z) - f as real < e as real)
  {
    LowTerms(f);
    var s := TermsOf(f);
    MixedQuotient(s.x, s.y, s.z);
    var m := s.x * s.z + s.y;
    Arith.MulMonotone(s.z, 1, s.x);
    assert m > 0;
    var d := FPLL * s.z - f * m;
    FractionBound(FPLL * s.z, f, m, e);
  }

  lemma MixedAtLeast(x: nat, y: nat, z: nat)
    requires z > 0
    ensures Mixed(x, y, z) >= x as real
  {
  }

  lemma WholeMultiplier(xtal: nat, k: nat, m: real, rdiv: nat)
    requires m > 0.0
    ensures Synthesized(xtal, k as real, m, rdiv) == (k * xtal) as real / m / Arith.Power2(rdiv) as real
  {
    assert (k * xtal) as real == xtal as real * k as real;
  }

  lemma LowCalc(fclk: nat, xtal: nat, s: Terms)
    requires xtal > 0 && Scaled(fclk) < LOW_LIMIT && Scaled(fclk) > 0 && s == TermsOf(Scaled(fclk))
    ensures Calc(fclk, xtal) == (PllConfig(36, 0, 1), OutputConfig(true, s.x, s.y, s.z, RDiv(fclk)))
  {
  }

  /** In the low branch the PLL runs at 36 times the reference. */
  lemma LowOutput(fclk: nat, xtal: nat) returns (s: Terms)
    requires 0x10_0000 <= xtal <= 150_000_000 && Scaled(fclk) < LOW_LIMIT
    ensures s == TermsOf(Scaled(fclk)) && s.z > 0 && Mixed(s.x, s.y, s.z) >= 11.0
    ensures Output(fclk, xtal) == Synthesized(xtal, 36.0, Mixed(s.x, s.y, s.z), RDiv(fclk))
  {
    CalcFits(fclk, xtal);
    LowTerms(Scaled(fclk));
    s := TermsOf(Scaled(fclk));
    LowCalc(fclk, xtal, s);
    OutputIs(fclk, xtal, PllConfig(36, 0, 1), OutputConfig(true, s.x, s.y, s.z, RDiv(fclk)));
    WholeDivider(36);
    MixedAtLeast(s.x, s.y, s.z);
  }

  // ------------------------------------------------------- other reference frequencies

  lemma CastProduct(a: nat, b: nat)
    ensures (a * b) as real == a as real * b as real
  {
  }

  lemma CastTerms(xtal: nat, n: nat, a: nat, b: nat, c: nat, t: nat, g: nat, h: nat)
    requires xtal == t * c + h && n == xtal * a + t * b + g
    ensures xtal as real == t as real * c as real + h as real
    ensures n as real == xtal as real * a as real + t as real * b as real + g as real
  {
    CastProduct(t, c);
    CastProduct(xtal, a);
    CastProduct(t, b);
  }

  lemma UnitFraction(h: real, b: real, c: real)
    requires h >= 0.0 && 0.0 <= b <= c && c > 0.0
    ensures 0.0 <= h * (b / c) <= h
  {
    var q := b / c;
    assert q * c == b;
    assert 0.0 <= q <= 1.0;
  }

  /** The PLL is less than T away from N: T B + G was left of N, and X is T C + H. */
  lemma PllDeviation(X: real, N: real, A: real, B: real, C: real, T: real, G: real, H: real)
    requires C > 0.0 && 0.0 <= B <= C && 0.0 <= G < T && 0.0 <= H < T
    requires X == T * C + H && N == X * A + T * B + G
    ensures N - T < X * (A + B / C) < N + T
  {
    var q := B / C;
    calc {
      X * (A + q);
      X * A + X * q;
      X * A + (T * C + H) * q;
      { assert (T * C) * q == T * (C * q) && C * q == B; }
      X * A + T * B + H * q;
    }
    UnitFraction(H, B, C);
    assert X * (A + B / C) == N - G + H * q;
  }

  /** What the high branch works with: n = xtal * a + t * b + g and xtal = t * c + h. */
  datatype HighTerms = HighTerms(a: nat, b: nat, c: nat, t: nat, g: nat, h: nat) {

    ghost predicate Split(n: nat, xtal: nat) {
      && n == xtal * a + t * b + g && xtal == t * c + h
      && c > 0 && b <= c && g < t && h < t && t <= 24
    }
  }

  function HighTermsOf(n: nat, xtal: nat): HighTerms
    requires xtal > 0
  {
    var t, r := xtal / 0x10_0000 + 1, n % xtal;
    HighTerms(n / xtal, r / t, xtal / t, t, r % t, xtal % t)
  }

  lemma HighTermsSplit(n: nat, xtal: nat)
    requires 0x10_0000 <= xtal < 24 * 0x10_0000
    ensures HighTermsOf(n, xtal).Split(n, xtal)
  {
    var t, r := xtal / 0x10_0000 + 1, n % xtal;
    Quotients(xtal, r, t);
    assert n == xtal * (n / xtal) + r;
    assert r == t * (r / t) + r % t;
    assert xtal == t * (xtal / t) + xtal % t;
  }

  lemma HighPll(n: nat, xtal: nat, s: HighTerms)
    requires s.Split(n, xtal)
    ensures n as real - 24.0 < xtal as real * Mixed(s.a, s.b, s.c) < n as real + 24.0
  {
    CastTerms(xtal, n, s.a, s.b, s.c, s.t, s.g, s.h);
    PllDeviation(xtal as real, n as real, s.a as real, s.b as real, s.c as real,
                 s.t as real, s.g as real, s.h as real);
  }

  lemma HighCalc(fclk: nat, xtal: nat, s: HighTerms)
    requires LOW_LIMIT <= fclk <= 160_000_000 && xtal > 0
    requires s == HighTermsOf(Divider(fclk) * fclk, xtal)
    ensures Calc(fclk, xtal) == (PllConfig(s.a, s.b, s.c), OutputConfig(true, Divider(fclk), 0, 1, 0))
  {
  }

  lemma HighOutput(fclk: nat, xtal: nat, s: HighTerms)
    requires LOW_LIMIT <= fclk <= 160_000_000 && 0x10_0000 <= xtal <= 150_000_000
    requires s == HighTermsOf(Divider(fclk) * fclk, xtal) && s.c > 0
    ensures Output(fclk, xtal) == Synthesized(xtal, Mixed(s.a, s.b, s.c), Divider(fclk) as real, 0)
  {
    HighCalc(fclk, xtal, s);
    OutputIs(fclk, xtal, PllConfig(s.a, s.b, s.c), OutputConfig(true, Divider(fclk), 0, 1, 0));
    WholeDivider(Divider(fclk));
  }

  lemma HighSplit(fclk: nat, xtal: nat) returns (s: HighTerms)
    requires LOW_LIMIT <= fclk <= 160_000_000 && 0x10_0000 <= xtal < 24 * 0x10_0000
    ensures s == HighTermsOf(Divider(fclk) * fclk, xtal) && s.Split(Divider(fclk) * fclk, xtal)
    ensures s.t == xtal / 0x10_0000 + 1
  {
    s := HighTermsOf(Divider(fclk) * fclk, xtal);
    HighTermsSplit(Divider(fclk) * fclk, xtal);
  }

  lemma NearRange(n: nat, v: real)
    requires 600_000_000 <= n < 900_000_000 && n as real - 24.0 < v < n as real + 24.0
    ensures 599_999_976.0 < v < 900_000_024.0
  {
  }

  function PllRate(xtal: nat, c: PllConfig): real
    requires c.denom > 0
  {
    xtal as real * Mixed(c.mult, c.num, c.denom)
  }

  lemma RateNear(xtal: nat, c: PllConfig, s: HighTerms, n: nat)
    requires s.Split(n, xtal) && 600_000_000 <= n < 900_000_000 && c == PllConfig(s.a, s.b, s.c)
    ensures c.denom > 0 && 599_999_976.0 < PllRate(xtal, c) < 900_000_024.0
  {
    HighPll(n, xtal, s);
    NearRange(n, PllRate(xtal, c));
  }

  /** In the high branch the PLL runs within 24 Hz of the 600 to 900 MHz it is made for. */
  lemma PllInRange(fclk: nat, xtal: nat, c: PllConfig)
    requires 81_000_000 <= fclk <= 160_000_000 && 0x10_0000 <= xtal < 24 * 0x10_0000
    requires c == Calc(fclk, xtal).0
    ensures c.denom > 0 && 599_999_976.0 < PllRate(xtal, c) < 900_000_024.0
  {
    var s := HighSplit(fclk, xtal);
    HighCalc(fclk, xtal, s);
    PllAskedFor(fclk);
    RateNear(xtal, c, s, Divider(fclk) * fclk);
  }

  lemma DeviationOverDivider(pll: real, x: nat, f: nat)
    requires x in {4, 6, 8} && (x * f) as real - 24.0 < pll < (x * f) as real + 24.0
    ensures -6.0 < pll / x as real - f as real < 6.0
  {
    DivideBack(x, f);
  }

  lemma DividedPll(s: HighTerms, n: nat, xtal: nat, x: nat, f: nat)
    requires s.Split(n, xtal) && x in {4, 6, 8} && n == x * f
    ensures -6.0 < Synthesized(xtal, Mixed(s.a, s.b, s.c), x as real, 0) - f as real < 6.0
  {
    HighPll(n, xtal, s);
    DeviationOverDivider(xtal as real * Mixed(s.a, s.b, s.c), x, f);
    WholeDivider(x);
  }

  /** For every reference below 24 * 2^20 Hz the high branch is less than 6 Hz off. */
  lemma HighBranchWithin6(fclk: nat, xtal: nat)
    requires 81_000_000 <= fclk <= 160_000_000 && 0x10_0000 <= xtal < 24 * 0x10_0000
    ensures -6.0 < Output(fclk, xtal) - fclk as real < 6.0
  {
    var s := HighSplit(fclk, xtal);
    DividedPll(s, Divider(fclk) * fclk, xtal, Divider(fclk), fclk);
    HighOutput(fclk, xtal, s);
  }

  /** With the default reference, which is 24 * 1024000, nothing of the fraction is lost but n mod 24. */
  lemma DefaultPllIsExact(s: HighTerms, n: nat)
    requires s.Split(n, DEFAULT_XTAL) && s.t == 24
    ensures DEFAULT_XTAL as real * Mixed(s.a, s.b, s.c) == (n - n % 24) as real
  {
    assert s.c == 1_024_000 && s.h == 0;
    assert n == 24 * (1_024_000 * s.a + s.b) + s.g;
    Arith.DivModUnique(n, 24, 1_024_000 * s.a + s.b, s.g);
    assert DEFAULT_XTAL as real * Mixed(s.a, s.b, 1_024_000) == (DEFAULT_XTAL * s.a + 24 * s.b) as real;
  }

  lemma ExactOverDivider(pll: real, x: nat, f: nat)
    requires x in {4, 6, 8} && pll == (x * f - x * f % 24) as real
    ensures pll / x as real == (f - f % (24 / x)) as real
  {
    var k := f - f % (24 / x);
    MultiplesOf24(x, f);
    assert x * f - x * f % 24 == x * k by {
      Arith.MulDistributes(x, k, f % (24 / x));
    }
    DivideBack(x, k);
  }

  lemma DefaultHighBranch(s: HighTerms, n: nat, x: nat, f: nat)
    requires s.Split(n, DEFAULT_XTAL) && s.t == 24 && x in {4, 6, 8} && n == x * f
    ensures Synthesized(DEFAULT_XTAL, Mixed(s.a, s.b, s.c), x as real, 0) == (f - f % (24 / x)) as real
  {
    DefaultPllIsExact(s, n);
    ExactOverDivider(DEFAULT_XTAL as real * Mixed(s.a, s.b, s.c), x, f);
    WholeDivider(x);
  }

  /** With the default reference, in the high branch, the frequency decoded back from the
      registers is exactly the one asked for rounded down to a multiple of 24/x Hz. */
  lemma HighBranchIsExact(fclk: nat)
    requires 81_000_000 <= fclk <= 160_000_000
    ensures Output(fclk, DEFAULT_XTAL) == (fclk - fclk % (24 / Divider(fclk))) as real
    ensures fclk % (24 / Divider(fclk)) < 6
  {
    var s := HighSplit(fclk, DEFAULT_XTAL);
    HighOutput(fclk, DEFAULT_XTAL, s);
    DefaultHighBranch(s, Divider(fclk) * fclk, Divider(fclk), fclk);
  }

  lemma RDivScales(fclk: nat)
    requires 8000 <= fclk <= 160_000_000
    ensures Scaled(fclk) == Arith.Power2(RDiv(fclk)) * fclk && Arith.Power2(RDiv(fclk)) in {1, 64}
  {
    assert Arith.Power2(6) == 64 && Arith.Power2(0) == 1;
  }

  lemma ScaledDown(v: real, fclk: nat, p: nat)
    requires p in {1, 64}
    ensures v / p as real - fclk as real == (v - (p * fclk) as real) / p as real
  {
  }

  lemma NominalPll(m: real, fclk: nat, rdiv: nat, e: nat)
    requires m > 0.0 && rdiv == RDiv(fclk) && 8000 <= fclk <= 160_000_000
    requires -(e as real) < FPLL as real / m - Scaled(fclk) as real < e as real
    ensures -(e as real) < Synthesized(NOMINAL_XTAL, 36.0, m, rdiv) - fclk as real < e as real
  {
    WholeMultiplier(NOMINAL_XTAL, 36, m, rdiv);
    RDivScales(fclk);
    ScaledDown(FPLL as real / m, fclk, Arith.Power2(rdiv));
  }

  lemma NominalLowBranch(fclk: nat, e: nat)
    requires 8000 <= fclk <= 160_000_000 && Scaled(fclk) < LOW_LIMIT && Within(Scaled(fclk), e)
    ensures -(e as real) < Output(fclk, NOMINAL_XTAL) - fclk as real < e as real
  {
    var s := LowOutput(fclk, NOMINAL_XTAL);
    var m := Mixed(s.x, s.y, s.z);
    WithinIsReal(Scaled(fclk), e);
    NominalPll(m, fclk, RDiv(fclk), e);
  }

  /** With a 25 MHz reference the comment's 6 Hz bound holds below and above the gap between
      78000007 Hz and 81 MHz, and in the gap the deviation is still less than 7 Hz. */
  lemma NominalReferenceClaim(fclk: nat)
    requires 8000 <= fclk <= 160_000_000
    ensures
      var d := Output(fclk, NOMINAL_XTAL) - fclk as real;
      && -7.0 < d < 7.0
      && (Scaled(fclk) < FIRST_MISS || Scaled(fclk) >= 81_000_000 ==> -6.0 < d < 6.0)
  {
    var f := Scaled(fclk);
    if f >= LOW_LIMIT {
      HighBranchWithin6(fclk, NOMINAL_XTAL);
    } else {
      LowBranchWithin7(f);
      NominalLowBranch(fclk, 7);
      if f < FIRST_MISS {
        SixHertzFrontier(f);
        NominalLowBranch(fclk, 6);
      }
    }
  }

  /** With a 25 MHz reference and no R division the bound is that on the real output. */
  lemma WithinIsOutput(f: nat, e: nat)
    requires 1_000_000 <= f < LOW_LIMIT
    ensures Within(f, e) <==> -(e as real) < Output(f, NOMINAL_XTAL) - f as real < e as real
  {
    assert Scaled(f) == f && RDiv(f) == 0;
    var s := LowOutput(f, NOMINAL_XTAL);
    var m := Mixed(s.x, s.y, s.z);
    WithinIsReal(f, e);
    WholeMultiplier(NOMINAL_XTAL, 36, m, 0);
    assert Arith.Power2(0) == 1;
  }

  lemma FirstMissIsReal()
    ensures !(-6.0 < Output(FIRST_MISS, NOMINAL_XTAL) - FIRST_MISS as real < 6.0)
  {
    MissesAtFirst();
    WithinIsOutput(FIRST_MISS, 6);
  }

  /** At which frequencies exactly the promised 6 Hz hold with a 25 MHz reference. */
  lemma NominalReferenceExactly(fclk: nat)
    requires 8000 <= fclk <= 160_000_000
    ensures -6.0 < Output(fclk, NOMINAL_XTAL) - fclk as real < 6.0
       <==> fclk < FIRST_MISS || fclk >= 81_000_000 || NotTooHigh(fclk)
  {
    NominalReferenceClaim(fclk);
    if FIRST_MISS <= fclk < LOW_LIMIT {
      SixHertzInGap(fclk);
      WithinIsOutput(fclk, 6);
    }
  }

  ghost predicate OutputsWithin6(limit: nat) {
    forall fclk {:trigger Output(fclk, NOMINAL_XTAL)} :: 8000 <= fclk <= limit ==>
      -6.0 < Output(fclk, NOMINAL_XTAL) - fclk as real < 6.0
  }

  /** So the promised 6 Hz hold for the output frequencies up to a limit exactly when the limit
      is below 78000007 Hz. */
  lemma OutputFrontier(limit: nat)
    ensures OutputsWithin6(limit) <==> limit < FIRST_MISS
  {
    if limit < FIRST_MISS {
      forall fclk {:trigger Output(fclk, NOMINAL_XTAL)} | 8000 <= fclk <= limit
        ensures -6.0 < Output(fclk, NOMINAL_XTAL) - fclk as real < 6.0
      {
        NominalReferenceClaim(fclk);
      }
    } else {
      FirstMissIsReal();
    }
  }

  /** 884.736 MHz instead of 900 MHz is 1.7 percent low. */
  lemma SlowPll(m: real, f: nat)
    requires m > 0.0 && f >= 512_000 && FPLL as real / m < f as real + 7.0
    ensures (36 * DEFAULT_XTAL) as real / m - f as real < -0.016 * f as real
  {
    var v := FPLL as real / m;
    assert v * m == FPLL as real;
    assert (36 * DEFAULT_XTAL) as real == 0.98304 * FPLL as real;
    assert (0.98304 * FPLL as real) / m == 0.98304 * v;
  }

  /** With the default 24.576 MHz reference the promise of the source, an actual frequency
      less than 6 Hz from the given one, holds exactly when the high branch is taken: the low
      branch takes the PLL to run at 900 MHz, but it runs at 36 times the reference. */
  lemma DefaultReferenceClaim(fclk: nat)
    requires 8000 <= fclk <= 160_000_000
    ensures -6.0 < Output(fclk, DEFAULT_XTAL) - fclk as real < 6.0 <==> Scaled(fclk) >= 81_000_000
  {
    var f := Scaled(fclk);
    if f >= LOW_LIMIT {
      HighBranchIsExact(fclk);
    } else {
      var s := LowOutput(fclk, DEFAULT_XTAL);
      var m := Mixed(s.x, s.y, s.z);
      WithinIsReal(f, 7);
      LowBranchWithin7(f);
      SlowPll(m, f);
      WholeMultiplier(DEFAULT_XTAL, 36, m, RDiv(fclk));
      RDivScales(fclk);
      ScaledDown((36 * DEFAULT_XTAL) as real / m, fclk, Arith.Power2(RDiv(fclk)));
    }
  }

  /** The PLL the chip takes for an output, by the control register. */
  ghost function PllBase(regs: Registers, output: nat): nat
    requires 16 + output in regs
  {
    if ReadControl(regs[16 + output]).fromPllB then 34 else 26
  }

  /** The same, read back from the chip's own register bytes after si5351_SetupCLK0 or
      si5351_SetupCLK2 has succeeded for the default reference: the frequency of the output,
      from the PLL its control register names. */
  lemma ProgrammedFrequency(regs: Registers, output: nat, fclk: nat, drive: nat)
    requires output in {0, 2} && 8000 <= fclk <= 160_000_000
    requires Configured(regs, output, fclk, DEFAULT_XTAL, drive)
    ensures
      && Readable(regs, PllBase(regs, output)) && Readable(regs, 42 + 8 * output)
      && var pll, out := StageAt(regs, PllBase(regs, output)), StageAt(regs, 42 + 8 * output);
         && pll.p3 > 0 && out.p3 > 0 && out.Ratio() > 0.0
         && (-6.0 < Frequency(DEFAULT_XTAL, pll, out) - fclk as real < 6.0 <==> Scaled(fclk) >= 81_000_000)
         && (fclk >= 81_000_000 ==>
               Frequency(DEFAULT_XTAL, pll, out) == (fclk - fclk % (24 / Divider(fclk))) as real)
  {
    ConfiguredReadsBack(regs, output, fclk, DEFAULT_XTAL, drive);
    Ratios(fclk, DEFAULT_XTAL);
    DefaultReferenceClaim(fclk);
    if fclk >= LOW_LIMIT {
      HighBranchIsExact(fclk);
    }
  }
}
