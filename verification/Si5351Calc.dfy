/** si5351_Calc of patches/red_pitaya_fsbl_hooks.c: which PLL multiplier and output divider
    approximate a frequency, and how well. The correction term is zero. */
module Si5351Calc {
  import opened Arith

  /** mult + num/denom. */
  datatype PllConfig = PllConfig(mult: nat, num: nat, denom: nat)

  /** div + num/denom, then a division by 2^rdiv. */
  datatype OutputConfig = OutputConfig(allowIntegerMode: bool, div: nat, num: nat, denom: nat, rdiv: nat)

  /** The PLL frequency the low branch assumes. */
  const FPLL: nat := 900_000_000

  const LOW_LIMIT: nat := 81_000_000

  function Clamp(fclk: nat): nat {
    if fclk < 8000 then 8000 else if fclk > 160_000_000 then 160_000_000 else fclk
  }

  /** Below 1 MHz the output is divided by 64, so 64 times the frequency is looked for. */
  function RDiv(fclk: nat): nat { if Clamp(fclk) < 1_000_000 then 6 else 0 }

  function Scaled(fclk: nat): nat {
    if Clamp(fclk) < 1_000_000 then Clamp(fclk) * 64 else Clamp(fclk)
  }

  function Divider(f: nat): nat {
    if f >= 150_000_000 then 4 else if f >= 100_000_000 then 6 else 8
  }

  /** What numerators and denominators are divided by to fit 20 bits: (v >> 20) + 1. */
  function Shrink(v: nat): (t: nat)
    ensures t > 0
  {
    v / 0x10_0000 + 1
  }

  function LowConfig(f: nat, rdiv: nat): (PllConfig, OutputConfig)
    requires f > 0
  {
    var t := Shrink(f);
    (PllConfig(36, 0, 1),
     OutputConfig(true, Quotient(FPLL, f), Quotient(Remainder(FPLL, f), t), Quotient(f, t), rdiv))
  }

  function HighConfig(f: nat, xtal: nat, rdiv: nat): (PllConfig, OutputConfig)
    requires xtal > 0
  {
    var x := Divider(f);
    var numerator := x * f;
    var t := Shrink(xtal);
    (PllConfig(Quotient(numerator, xtal), Quotient(Remainder(numerator, xtal), t), Quotient(xtal, t)),
     OutputConfig(true, x, 0, 1, rdiv))
  }

  /** `xtal` is the reference frequency XREF_FREQ, which a boot variable may replace. */
  function Calc(fclk: nat, xtal: nat): (PllConfig, OutputConfig)
    requires xtal > 0
  {
    var f := Scaled(fclk);
    if f < LOW_LIMIT then LowConfig(f, RDiv(fclk)) else HighConfig(f, xtal, RDiv(fclk))
  }

  /** Frequencies the chip cannot make are taken for the nearest that it can. */
  lemma OutOfRange(fclk: nat, xtal: nat)
    requires xtal > 0
    ensures fclk < 8000 ==> Calc(fclk, xtal) == Calc(8000, xtal)
    ensures fclk > 160_000_000 ==> Calc(fclk, xtal) == Calc(160_000_000, xtal)
  {
  }

  /** The high branch asks the PLL for 600 to 900 MHz and divides it by 4, 6 or 8. */
  lemma PllAskedFor(f: nat)
    requires LOW_LIMIT <= f <= 160_000_000
    ensures Divider(f) in {4, 6, 8} && 600_000_000 <= Divider(f) * f < 900_000_000
  {
  }

  /** Both parts of a fraction scaled down by the same t fit into 20 bits. */
  lemma Quotients(n: nat, r: nat, t: nat)
    requires 0 < n < 0x1_0000_0000 && r < n && t == n / 0x10_0000 + 1
    ensures 0 < n / t < 0x10_0000 && r / t <= n / t
  {
    Arith.DivAtLeast(n, t, 1);
    Arith.DivLess(n, t, 0x10_0000);
    Arith.DivMonotone(r, n, t);
  }

  lemma LowRange(f: nat)
    requires 512_000 <= f < LOW_LIMIT
    ensures 11 <= FPLL / f <= 1757
  {
    Arith.DivLess(FPLL, f, 1758);
    Arith.DivAtLeast(FPLL, f, 11);
  }

  /** The steps of the source stay within u32, and the fractions have the ranges its comments
      name: numerators at most their denominators, denominators positive and of 20 bits. */
  lemma CalcFits(fclk: nat, xtal: nat)
    requires 0 < xtal < 0x1_0000_0000
    ensures
      var (pll, out) := Calc(fclk, xtal);
      && 512_000 <= Scaled(fclk) <= 160_000_000
      && Divider(Scaled(fclk)) * Scaled(fclk) < 0x1_0000_0000
      && 0 < pll.denom < 0x10_0000 && pll.num <= pll.denom
      && 0 < out.denom < 0x10_0000 && out.num <= out.denom
      && ((out.div in {4, 6, 8} && out.num == 0) || 11 <= out.div <= 1757)
  {
    var f := Scaled(fclk);
    if f < LOW_LIMIT {
      LowRange(f);
      Quotients(f, Remainder(FPLL, f), Shrink(f));
    } else {
      Quotients(xtal, Remainder(Divider(f) * f, xtal), Shrink(xtal));
    }
  }

  // ---------------------------------------------------------------- the low branch

  /** What the low branch works with: quotients and remainders of FPLL by f, and of the
      remainder and f by t. */
  datatype Terms = Terms(x: nat, r: nat, t: nat, y: nat, z: nat, g: nat, h: nat) {

    ghost predicate Split(f: nat) {
      && FPLL == f * x + r && r < f
      && r == t * y + g && g < t
      && f == t * z + h && h < t
      && y <= z && z > 0
    }

    /** The output FPLL / (x + y/z) is less than e away from f. */
    predicate Close(f: nat, e: nat) {
      var m := x * z + y;
      var d := FPLL * z - f * m;
      d < e * m && -d < e * m
    }
  }

  function TermsOf(f: nat): Terms
    requires f > 0
  {
    var t := Shrink(f);
    var r := Remainder(FPLL, f);
    Terms(Quotient(FPLL, f), r, t, Quotient(r, t), Quotient(f, t), Remainder(r, t), Remainder(f, t))
  }

  predicate Within(f: nat, e: nat)
    requires f > 0
  {
    TermsOf(f).Close(f, e)
  }

  lemma LowParts(f: nat, r: nat, t: nat)
    requires 512_000 <= f < LOW_LIMIT && t == Shrink(f) && r < f
    ensures Quotient(r, t) <= Quotient(f, t) && Quotient(f, t) > 0
  {
    Quotients(f, r, t);
  }

  lemma LowTerms(f: nat)
    requires 512_000 <= f < LOW_LIMIT
    ensures TermsOf(f).Split(f) && 11 <= TermsOf(f).x && TermsOf(f).t == f / 0x10_0000 + 1
  {
    var t, r := Shrink(f), Remainder(FPLL, f);
    LowRange(f);
    DivMod(FPLL, f);
    LowParts(f, r, t);
    DivMod(r, t);
    DivMod(f, t);
  }

  /** The deviation comes from the two remainders by t alone. */
  lemma Deviation(s: Terms, f: nat)
    requires s.Split(f)
    ensures FPLL * s.z - f * (s.x * s.z + s.y) == s.g * s.z - s.h * s.y
  {
    var x, r, t, y, z, g, h := s.x, s.r, s.t, s.y, s.z, s.g, s.h;
    calc {
      (f * x + r) * z - f * (x * z + y);
      (f * x) * z + r * z - f * (x * z) - f * y;
      { assert (f * x) * z == f * (x * z); }
      r * z - f * y;
      (t * y + g) * z - (t * z + h) * y;
      (t * y) * z + g * z - (t * z) * y - h * y;
      { assert (t * y) * z == (t * z) * y; }
      g * z - h * y;
    }
  }

  /** e (x z + y) is at least (e x) z. */
  lemma LeastRoom(x: nat, y: nat, z: nat, e: nat)
    ensures (e * x) * z <= e * (x * z + y)
  {
    Arith.MulDistributes(e, x * z, y);
    Arith.MulAssoc(e, x, z);
    Arith.MulNonneg(e, y);
  }

  lemma Under(u: nat, v: nat, z: nat, k: nat)
    requires u < k && v <= z
    ensures 0 <= u * v && u * v + z <= k * z
  {
    Arith.MulNonneg(u, v);
    Arith.MulMonotone(u, v, z);
    Arith.MulSucc(u, z);
    Arith.MulMonotone(z, u + 1, k);
  }

  /** So with remainders below e x it is below e. */
  lemma SmallRemainders(s: Terms, f: nat, e: nat)
    requires s.Split(f) && s.t - 1 < e * s.x
    ensures s.Close(f, e)
  {
    Deviation(s, f);
    LeastRoom(s.x, s.y, s.z, e);
    Under(s.g, s.z, s.z, e * s.x);
    Under(s.h, s.y, s.z, e * s.x);
  }

  /** Up to 75 MHz the low branch is less than 6 Hz off, as its comment says. */
  lemma LowBranchWithin6(f: nat)
    requires 512_000 <= f <= 75_000_000
    ensures Within(f, 6)
  {
    LowTerms(f);
    Arith.DivAtLeast(FPLL, f, 12);
    SmallRemainders(TermsOf(f), f, 6);
  }

  lemma QuotientIsEleven(f: nat)
    requires 75_000_000 < f < LOW_LIMIT
    ensures FPLL / f == 11
  {
    Arith.DivAtLeast(FPLL, f, 11);
    Arith.DivLess(FPLL, f, 12);
  }

  lemma SevenTimesEleven(s: Terms, f: nat)
    requires 512_000 <= f < LOW_LIMIT && s == TermsOf(f) && s.Split(f) && 7 * s.x <= s.t - 1 && 11 <= s.x
    requires s.t == f / 0x10_0000 + 1
    ensures s.Close(f, 7)
  {
    assert f > 75_000_000 && s.t == 78;
    QuotientIsEleven(f);
    assert s.y > 0;
    Deviation(s, f);
    Arith.MulMonotone(s.z, s.g, 77);
    Arith.MulMonotone(s.y, s.h, 77);
    Arith.MulNonneg(s.g, s.z);
    Arith.MulNonneg(s.h, s.y);
  }

  /** And up to 81 MHz, where it is used, less than 7 Hz. */
  lemma LowBranchWithin7(f: nat)
    requires 512_000 <= f < LOW_LIMIT
    ensures Within(f, 7)
  {
    LowTerms(f);
    var s := TermsOf(f);
    if s.t - 1 < 7 * s.x {
      SmallRemainders(s, f, 7);
    } else {
      SevenTimesEleven(s, f);
    }
  }

  // ------------------------------------------------------- where 6 Hz is first missed

  const FIRST_MISS: nat := 78_000_007

  /** If A (g - 66) <= B (6 + h) and B z < A y, the deviation stays below 6 (11 z + y). */
  lemma AboveBound(g: nat, h: nat, y: nat, z: nat, A: nat, B: nat)
    requires A > 0 && A * (g - 66) <= B * (6 + h) && B * z < A * y
    ensures g * z - h * y < 66 * z + 6 * y
  {
    var u, v := g - 66, 6 + h;
    calc {
      A * (u * z);
      { Arith.MulAssoc(A, u, z); }
      (A * u) * z;
    <= { Arith.MulMonotone(z, A * u, B * v); }
      (B * v) * z;
      { Arith.MulAssoc(v, B, z); }
      v * (B * z);
    <  { Arith.MulMonotone(v, B * z + 1, A * y); Arith.MulSucc(B * z, v); }
      v * (A * y);
      { Arith.MulAssoc(v, A, y); Arith.MulAssoc(A, v, y); }
      A * (v * y);
    }
    if u * z >= v * y {
      Arith.MulMonotone(A, v * y, u * z);
      assert false;
    }
  }

  /** The remainders g and h are tied together, because 11 f + r is FPLL. */
  lemma Table73(g: nat, h: nat, m: nat)
    requires g < 73 && h < 73 && FPLL == 73 * m + 11 * h + g
    ensures 7 * (g - 66) <= 5 * (6 + h)
  {
  }

  lemma Table74(g: nat, h: nat, m: nat)
    requires g < 74 && h < 74 && FPLL == 74 * m + 11 * h + g
    ensures 7 * (g - 66) <= 3 * (6 + h)
  {
  }

  lemma Table75(g: nat, h: nat, m: nat)
    requires g < 75 && h < 75 && FPLL == 75 * m + 11 * h + g
    ensures 4 * (g - 66) <= 6 + h || (g == 73 && h == 7)
  {
  }

  /** Quotients by t compare as what was divided does, up to one t. */
  lemma QuotientRatio(t: nat, y: nat, r: nat, g: nat, z: nat, f: nat, h: nat, A: nat, B: nat)
    requires r == t * y + g && g < t && f == t * z + h && A > 0
    requires A * (r - t) >= B * f
    ensures B * z < A * y
  {
    calc {
      t * (B * z);
      { Arith.MulAssoc(B, t, z); Arith.MulAssoc(t, B, z); }
      B * (t * z);
    <= { Arith.MulMonotone(B, t * z, f); }
      B * f;
    <= A * (r - t);
    <  { Arith.MulMonotone(A, r - t + 1, t * y); Arith.MulDistributes(A, r - t, 1); }
      A * (t * y);
      { Arith.MulAssoc(A, t, y); Arith.MulAssoc(t, A, y); }
      t * (A * y);
    }
    if B * z >= A * y {
      Arith.MulMonotone(t, A * y, B * z);
      assert false;
    }
  }

  lemma BelowBound(g: nat, h: nat, y: nat, z: nat)
    requires z > 0 && y <= z && (h <= 71 || (h <= 74 && 34 * y < 33 * z))
    ensures h * y - g * z < 66 * z + 6 * y
  {
    Arith.MulNonneg(g, z);
    Arith.MulMonotone(y, h, if h <= 71 then 71 else 74);
  }

  /** The right pair of constants for f, if there is one with its remainders below the bound. */
  lemma SixHertz(s: Terms, f: nat, A: nat, B: nat)
    requires s.Split(f) && s.x == 11 && A > 0
    requires A * (s.g - 66) <= B * (6 + s.h) && A * (s.r - s.t) >= B * f
    requires s.h <= 71 || (s.h <= 74 && 33 * (f - s.t) >= 34 * s.r)
    ensures s.Close(f, 6)
  {
    Deviation(s, f);
    QuotientRatio(s.t, s.y, s.r, s.g, s.z, f, s.h, A, B);
    AboveBound(s.g, s.h, s.y, s.z, A, B);
    if s.h > 71 {
      QuotientRatio(s.t, s.z, f, s.h, s.y, s.r, s.g, 33, 34);
    }
    BelowBound(s.g, s.h, s.y, s.z);
  }

  lemma RemaindersTied(s: Terms, f: nat)
    requires s.Split(f)
    ensures FPLL == s.t * (s.x * s.z + s.y) + s.x * s.h + s.g
  {
    var t, x, y, z := s.t, s.x, s.y, s.z;
    assert f * x == t * (x * z) + x * s.h by {
      Arith.MulDistributes(x, t * z, s.h);
      Arith.MulAssoc(x, t, z);
      Arith.MulAssoc(t, x, z);
    }
    Arith.MulDistributes(t, x * z, y);
  }

  lemma SixHertzAt75(s: Terms, f: nat, m: nat)
    requires 77_594_624 <= f < FIRST_MISS && s.Split(f) && s.x == 11 && s.t == 75
    requires FPLL == 75 * m + 11 * s.h + s.g
    ensures s.Close(f, 6)
  {
    Table75(s.g, s.h, m);
    assert FPLL == 11 * f + s.r;
    if s.g == 73 && s.h == 7 {
      assert f <= 77_999_932;
      SixHertz(s, f, 13, 7);
    } else {
      SixHertz(s, f, 4, 1);
    }
  }

  lemma BelowFirstMiss(f: nat)
    requires 75_000_000 < f < FIRST_MISS
    ensures Within(f, 6)
  {
    LowTerms(f);
    QuotientIsEleven(f);
    var s := TermsOf(f);
    var m := 11 * s.z + s.y;
    RemaindersTied(s, f);
    assert 72 <= s.t <= 75 && (s.t == 75 ==> f >= 77_594_624);
    if s.t == 72 {
      SixHertz(s, f, 6, 5);
    } else if s.t == 73 {
      Table73(s.g, s.h, m);
      SixHertz(s, f, 7, 5);
    } else if s.t == 74 {
      Table74(s.g, s.h, m);
      SixHertz(s, f, 7, 3);
    } else {
      SixHertzAt75(s, f, m);
    }
  }

  lemma MissesAtFirst()
    ensures !Within(FIRST_MISS, 6)
  {
    var s := TermsOf(FIRST_MISS);
    assert s.x == 11 && s.t == 75;
    assert s.y == 559_998 && s.z == 1_040_000;
  }

  predicate AllWithin6(limit: nat) {
    forall f :: 512_000 <= f <= limit ==> f > 0 && Within(f, 6)
  }

  /** The comment in the source promises 6 Hz wherever the low branch is used. It holds for
      all frequencies up to a limit exactly when the limit is below 78000007. */
  lemma SixHertzFrontier(limit: nat)
    ensures AllWithin6(limit) <==> limit < FIRST_MISS
  {
    if limit < FIRST_MISS {
      forall f | 512_000 <= f <= limit ensures f > 0 && Within(f, 6) {
        if f <= 75_000_000 {
          LowBranchWithin6(f);
        } else {
          BelowFirstMiss(f);
        }
      }
    } else {
      MissesAtFirst();
    }
  }

  // -------------------------------------------------- and at which frequencies exactly

  /** What the two divisions by t round away of FPLL. */
  function Lost(x: nat, h: nat, g: nat): nat { x * h + g }

  lemma TimesDeviation(n: int, t: int, z: int, m: int, f: int, h: int, lost: int)
    requires t * m == n - lost && t * z == f - h
    ensures t * (n * z - f * m) == f * lost - n * h
  {
    calc {
      t * (n * z - f * m);
      { MulDistributes(t, n * z, -(f * m)); assert t * -(f * m) == -(t * (f * m)); }
      t * (n * z) - t * (f * m);
      { MulAssoc(t, n, z); MulAssoc(n, t, z); MulAssoc(t, f, m); MulAssoc(f, t, m); }
      n * (t * z) - f * (t * m);
      n * (f - h) - f * (n - lost);
      { MulDistributes(n, f, -h); MulDistributes(f, n, -lost); assert n * -h == -(n * h) && f * -lost == -(f * lost); }
      n * f - n * h - f * n + f * lost;
    }
  }

  lemma TimesT(s: Terms, f: nat)
    requires s.Split(f)
    ensures var m := s.x * s.z + s.y;
      && s.t * m == FPLL - Lost(s.x, s.h, s.g)
      && s.t * (FPLL * s.z - f * m) == f * Lost(s.x, s.h, s.g) - FPLL * s.h
  {
    RemaindersTied(s, f);
    TimesDeviation(FPLL, s.t, s.z, s.x * s.z + s.y, f, s.h, Lost(s.x, s.h, s.g));
  }

  lemma LessTimes(t: nat, a: int, b: int)
    requires t > 0
    ensures a < b <==> t * a < t * b
  {
    if a < b {
      MulMonotone(t, a + 1, b);
    } else {
      MulMonotone(t, b, a);
    }
  }

  /** u < e (n - lost) with u = f lost - n h says that (f + e) lost < n (h + e). */
  lemma Rearranged(f: int, n: int, lost: int, h: int, e: int)
    ensures f * lost - n * h < e * (n - lost) <==> (f + e) * lost < n * (h + e)
    ensures n * h - f * lost < e * (n - lost) <==> n * (h - e) < (f - e) * lost
  {
    assert (f + e) * lost == f * lost + e * lost && n * (h + e) == n * h + n * e;
    assert (f - e) * lost == f * lost - e * lost && n * (h - e) == n * h - n * e;
    assert e * (n - lost) == n * e - e * lost;
  }

  /** The output is FPLL (f - h) / (FPLL - lost), with h = f mod t; this says that it is less
      than e away from f. */
  predicate Balanced(f: nat, h: nat, lost: nat, e: nat) {
    FPLL * (h - e) < (f - e) * lost && (f + e) * lost < FPLL * (h + e)
  }

  lemma CloseIsBalanced(s: Terms, f: nat, e: nat)
    requires s.Split(f)
    ensures s.Close(f, e) <==> Balanced(f, s.h, Lost(s.x, s.h, s.g), e)
  {
    var m, lost := s.x * s.z + s.y, Lost(s.x, s.h, s.g);
    var d := FPLL * s.z - f * m;
    TimesT(s, f);
    LessTimes(s.t, d, e * m);
    LessTimes(s.t, -d, e * m);
    assert s.t * -d == -(s.t * d);
    assert s.t * (e * m) == e * (s.t * m) by {
      MulAssoc(s.t, e, m);
      MulAssoc(e, s.t, m);
    }
    Rearranged(f, FPLL, lost, s.h, e);
  }

  /** Wherever the low branch is used: less than e Hz off exactly when the remainders of f and
      of FPLL mod f by t balance. */
  lemma WithinExactly(f: nat, e: nat)
    requires 512_000 <= f < LOW_LIMIT
    ensures
      var t := f / 0x10_0000 + 1;
      Within(f, e) <==> Balanced(f, f % t, Lost(FPLL / f, f % t, FPLL % f % t), e)
  {
    LowTerms(f);
    CloseIsBalanced(TermsOf(f), f, e);
  }

  /** The output 900 MHz (f - h) / (900 MHz - 11 h - g) is less than f + 6. */
  predicate NotTooHigh(f: nat)
    requires f < LOW_LIMIT
  {
    var t := f / 0x10_0000 + 1;
    var h, g := f % t, (FPLL - 11 * f) % t;
    (f + 6) * (11 * h + g) < FPLL * (h + 6)
  }

  lemma NotTooLow(s: Terms, f: nat)
    requires FIRST_MISS <= f < LOW_LIMIT && s.Split(f) && s.x == 11 && s.t <= 78
    ensures FPLL * (s.h - 6) < (f - 6) * Lost(11, s.h, s.g)
  {
    var d, m := FPLL * s.z - f * (11 * s.z + s.y), 11 * s.z + s.y;
    Deviation(s, f);
    QuotientRatio(s.t, s.z, f, s.h, s.y, s.r, s.g, 66, 71);
    MulNonneg(s.g, s.z);
    MulMonotone(s.y, s.h, 77);
    assert -d < 6 * m;
    TimesT(s, f);
    LessTimes(s.t, -d, 6 * m);
    assert s.t * -d == -(s.t * d);
    Rearranged(f, FPLL, Lost(11, s.h, s.g), s.h, 6);
  }

  /** In the gap between the first frequency that misses 6 Hz and the high branch only outputs
      that are too high miss it. */
  lemma SixHertzInGap(f: nat)
    requires FIRST_MISS <= f < LOW_LIMIT
    ensures Within(f, 6) <==> NotTooHigh(f)
  {
    LowTerms(f);
    QuotientIsEleven(f);
    var s := TermsOf(f);
    CloseIsBalanced(s, f, 6);
    NotTooLow(s, f);
    assert s.r == FPLL - 11 * f;
  }
}
