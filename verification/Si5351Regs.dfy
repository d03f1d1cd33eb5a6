/** The register side of patches/red_pitaya_fsbl_hooks.c: si5351_writeBulk, si5351_SetupPLL,
    si5351_SetupOutput and the two si5351_SetupCLK functions, on the chip's byte registers. */
module Si5351Regs {
  import opened Si5351Calc
  import Arith

  /** The three parameters of a synthesizer stage with its divide-by-4 and output divider fields. */
  datatype Stage = Stage(p1: nat, p2: nat, p3: nat, divBy4: nat, rdiv: nat) {

    predicate Fits() {
      p1 < 0x4_0000 && p2 < 0x10_0000 && 0 < p3 < 0x10_0000 && divBy4 < 4 && rdiv < 8
    }

    /** The ratio the chip makes of it (section 3.2 and 4.1.3 of Silicon Labs AN619). */
    function Ratio(): real
      requires p3 > 0
    {
      if divBy4 == 3 then 4.0 else ((p1 + 512) as real + p2 as real / p3 as real) / 128.0
    }
  }

  /** The arithmetic of the source is that of u32. */
  function U32(v: int): (u: nat)
    ensures u < 0x1_0000_0000
  {
    v % 0x1_0000_0000
  }

  /** P1, P2 and P3 for whole + num/denom. */
  function Parameters(whole: nat, num: nat, denom: nat, rdiv: nat): Stage
    requires denom > 0
  {
    var n := U32(128 * num);
    Stage(U32(128 * whole + Arith.Quotient(n, denom) - 512), Arith.Remainder(n, denom), denom, 0, rdiv)
  }

  function PllStage(c: PllConfig): Stage
    requires c.denom > 0
  {
    Parameters(c.mult, c.num, c.denom, 0)
  }

  /** Dividing by 4 needs the chip's special case. */
  function OutputStage(c: OutputConfig): Stage
    requires c.div == 4 || c.denom > 0
  {
    if c.div == 4 then Stage(0, 0, 1, 3, c.rdiv) else Parameters(c.div, c.num, c.denom, c.rdiv)
  }

  // ---------------------------------------------------------- packing into bytes

  /** The eight bytes si5351_writeBulk writes. */
  function Pack(s: Stage): (bytes: seq<nat>)
    ensures |bytes| == 8 && forall k :: 0 <= k < 8 ==> bytes[k] < 256
  {
    [s.p3 / 0x100 % 0x100,
     s.p3 % 0x100,
     s.p1 / 0x1_0000 % 4 + s.divBy4 % 4 * 4 + s.rdiv % 8 * 16,
     s.p1 / 0x100 % 0x100,
     s.p1 % 0x100,
     s.p3 / 0x1_0000 % 16 * 16 + s.p2 / 0x1_0000 % 16,
     s.p2 / 0x100 % 0x100,
     s.p2 % 0x100]
  }

  /** The fields or-ed into one byte do not overlap, so or is plus. */
  lemma FieldsDoNotOverlap(p1: bv32, p2: bv32, p3: bv32, divBy4: bv32, rdiv: bv32)
    ensures ((p1 >> 16) & 3) | ((divBy4 & 3) << 2) | ((rdiv & 7) << 4)
         == ((p1 >> 16) & 3) + ((divBy4 & 3) << 2) + ((rdiv & 7) << 4)
    ensures ((p3 >> 12) & 0xF0) | ((p2 >> 16) & 0xF) == (((p3 >> 16) & 0xF) << 4) + ((p2 >> 16) & 0xF)
  {
  }

  /** What the chip reads out of eight bytes (section 4 of AN619). */
  function Unpack(b: seq<nat>): Stage
    requires |b| == 8
  {
    Stage(b[2] % 4 * 0x1_0000 + b[3] * 0x100 + b[4],
          b[5] % 16 * 0x1_0000 + b[6] * 0x100 + b[7],
          b[5] / 16 * 0x1_0000 + b[0] * 0x100 + b[1],
          b[2] / 4 % 4,
          b[2] / 16 % 8)
  }

  lemma BytesOf(v: nat)
    requires v < 0x10_0000
    ensures v / 0x1_0000 * 0x1_0000 + v / 0x100 % 0x100 * 0x100 + v % 0x100 == v
    ensures v / 0x1_0000 < 16
    ensures v < 0x4_0000 ==> v / 0x1_0000 < 4
  {
  }

  lemma FieldsOf(u: nat, v: nat, w: nat)
    requires u < 4 && v < 4 && w < 8
    ensures var b := u % 4 + v % 4 * 4 + w % 8 * 16;
      b % 4 == u && b / 4 % 4 == v && b / 16 % 8 == w
  {
    var b := u + 4 * v + 16 * w;
    assert u % 4 == u && v % 4 == v && w % 8 == w;
    assert b / 4 == v + 4 * w && b / 16 == w;
  }

  lemma NibblesOf(u: nat, v: nat)
    requires u < 16 && v < 16
    ensures var b := u % 16 * 16 + v % 16; b % 16 == v && b / 16 == u
  {
  }

  /** Unpacking recovers all five fields exactly. */
  lemma PackRoundTrip(s: Stage)
    requires s.Fits()
    ensures Unpack(Pack(s)) == s
  {
    var u, v, w, b := s.p1 / 0x1_0000, s.p2 / 0x1_0000, s.p3 / 0x1_0000, Pack(s);
    BytesOf(s.p1);
    BytesOf(s.p2);
    BytesOf(s.p3);
    FieldsOf(u, s.divBy4, s.rdiv);
    NibblesOf(w, v);
    var f, n := b[2], b[5];
    assert f % 4 == u && f / 4 % 4 == s.divBy4 && f / 16 % 8 == s.rdiv;
    assert n % 16 == v && n / 16 == w;
  }

  // ------------------------------------------------------------ what the stages mean

  lemma CancelFactor(d: real, a: real, b: real)
    requires d > 0.0 && d * a == d * b
    ensures a == b
  {
    assert a == (d * a) / d && b == (d * b) / d;
  }

  lemma FractionSplits(num: nat, denom: nat, q: nat, r: nat)
    requires denom > 0 && 128 * num == denom * q + r
    ensures (q as real + r as real / denom as real) / 128.0 == num as real / denom as real
  {
    var n, d, x, y := num as real, denom as real, q as real, r as real;
    assert 128.0 * n == d * x + y;
    assert d * (x + y / d) == d * x + y;
    assert d * (128.0 * (n / d)) == 128.0 * n;
    CancelFactor(d, x + y / d, 128.0 * (n / d));
  }

  /** The parameters stand for exactly mult + num/denom. */
  lemma StageIsExact(mult: nat, num: nat, denom: nat, s: Stage)
    requires denom > 0 && s.divBy4 != 3 && s.p3 == denom
    requires s.p1 + 512 == 128 * mult + 128 * num / denom && s.p2 == 128 * num % denom
    ensures s.p3 * (s.p1 + 512) + s.p2 == 128 * (mult * denom + num)
    ensures s.Ratio() == mult as real + num as real / denom as real
    ensures s.p2 < s.p3
  {
    var q, r := 128 * num / denom, 128 * num % denom;
    assert 128 * num == denom * q + r;
    assert denom * (128 * mult + q) + r == 128 * (mult * denom + num) by {
      Arith.MulDistributes(denom, 128 * mult, q);
    }
    FractionSplits(num, denom, q, r);
  }

  /** For ratios the chip can make, nothing wraps around and every field fits. */
  lemma ParametersFit(whole: nat, num: nat, denom: nat, rdiv: nat)
    requires 4 <= whole < 2000 && num <= denom && 0 < denom < 0x10_0000 && rdiv < 8
    ensures
      var s := Parameters(whole, num, denom, rdiv);
      && s.Fits() && s.p3 == denom && s.divBy4 == 0 && s.rdiv == rdiv
      && s.p1 + 512 == 128 * whole + 128 * num / denom && s.p2 == 128 * num % denom
  {
    Arith.DivLess(128 * num, denom, 129);
  }

  lemma MultiplierRange(f: nat, xtal: nat)
    requires LOW_LIMIT <= f <= 160_000_000 && 0x10_0000 <= xtal <= 150_000_000
    ensures 4 <= Divider(f) * f / xtal < 2000
  {
    var numerator := Divider(f) * f;
    assert 600_000_000 <= numerator <= 900_000_000;
    Arith.DivAtLeast(numerator, xtal, 4);
    Arith.DivLess(numerator, xtal, 2000);
  }

  /** Every stage made from a calculated configuration fits its register fields. */
  lemma StagesFit(fclk: nat, xtal: nat)
    requires 0x10_0000 <= xtal <= 150_000_000
    ensures
      var (pll, out) := Calc(fclk, xtal);
      && pll.denom > 0 && out.denom > 0
      && PllStage(pll).Fits() && OutputStage(out).Fits()
  {
    CalcFits(fclk, xtal);
    var (pll, out) := Calc(fclk, xtal);
    if Scaled(fclk) >= LOW_LIMIT {
      MultiplierRange(Scaled(fclk), xtal);
    }
    ParametersFit(pll.mult, pll.num, pll.denom, 0);
    ParametersFit(out.div, out.num, out.denom, out.rdiv);
  }

  /** The references whose multiples the chip can make for every output frequency. */
  predicate Usual(xtal: nat) { 0x10_0000 <= xtal <= 150_000_000 }

  /** The two stages programmed for a frequency. */
  function PllFor(fclk: nat, xtal: nat): (s: Stage)
    requires 0 < xtal < 0x1_0000_0000
    ensures Usual(xtal) ==> s.Fits()
  {
    CalcFits(fclk, xtal);
    if Usual(xtal) then StagesFit(fclk, xtal); PllStage(Calc(fclk, xtal).0)
    else PllStage(Calc(fclk, xtal).0)
  }

  function OutputFor(fclk: nat, xtal: nat): (s: Stage)
    requires 0 < xtal < 0x1_0000_0000
    ensures Usual(xtal) ==> s.Fits()
  {
    CalcFits(fclk, xtal);
    if Usual(xtal) then StagesFit(fclk, xtal); OutputStage(Calc(fclk, xtal).1)
    else OutputStage(Calc(fclk, xtal).1)
  }

  // ------------------------------------------------------------------ the chip

  type Registers = map<nat, nat>

  datatype Pll = PLL_A | PLL_B {
    function Base(): nat { if PLL_A? then 26 else 34 }
  }

  /** The return codes: 0, XST_FAILURE, and 1 and 2 of si5351_SetupOutput. */
  datatype Status = Success | Failure | BadOutput | BadDivider

  /** A stage is programmed at `base`. */
  ghost predicate Holds(regs: Registers, base: nat, s: Stage) {
    forall a: nat :: base <= a < base + 8 ==> a in regs && regs[a] == Pack(s)[a - base]
  }

  predicate Readable(regs: Registers, base: nat) { forall a :: base <= a < base + 8 ==> a in regs }

  /** What the chip reads at `base`. */
  function StageAt(regs: Registers, base: nat): Stage
    requires Readable(regs, base)
  {
    Unpack(seq(8, k requires 0 <= k < 8 => regs[base + k]))
  }

  lemma HoldsReadsBack(regs: Registers, base: nat, s: Stage)
    requires Holds(regs, base, s) && s.Fits()
    ensures Readable(regs, base) && StageAt(regs, base) == s
  {
    PackRoundTrip(s);
    assert seq(8, k requires 0 <= k < 8 => regs[base + k]) == Pack(s);
  }

  lemma HoldsKept(before: Registers, regs: Registers, base: nat, s: Stage)
    requires Holds(before, base, s)
    requires forall a: nat :: base <= a < base + 8 ==> a in regs && a in before && regs[a] == before[a]
    ensures Holds(regs, base, s)
  {
  }

  /** The chip reads back this very stage. */
  ghost predicate Programmed(regs: Registers, base: nat, s: Stage) {
    Readable(regs, base) && StageAt(regs, base) == s
  }

  /** How the chip reads the control register of an output (registers 16 to 23 of AN619). */
  datatype Control = Control(powerDown: bool, integerMode: bool, fromPllB: bool, inverted: bool,
                             source: nat, drive: nat)

  function ReadControl(b: nat): Control {
    Control(b / 0x80 % 2 == 1, b / 0x40 % 2 == 1, b / 0x20 % 2 == 1, b / 0x10 % 2 == 1, b / 4 % 4, b % 4)
  }

  lemma ControlReads(drive: nat, fromPllB: bool, integerMode: bool)
    requires drive < 4
    ensures ReadControl(0x0C + drive + (if fromPllB then 0x20 else 0) + (if integerMode then 0x40 else 0))
         == Control(false, integerMode, fromPllB, false, 3, drive)
  {
  }

  /** The registers are set for a frequency: the stages of a PLL and of the output, the output up,
      from that PLL, with its own divider and not inverted, and no phase offset. */
  ghost predicate Configured(regs: Registers, output: nat, fclk: nat, xtal: nat, drive: nat)
    requires 0 < xtal < 0x1_0000_0000
  {
    var out := Calc(fclk, xtal).1;
    && Holds(regs, if output == 0 then 26 else 34, PllFor(fclk, xtal))
    && Holds(regs, 42 + 8 * output, OutputFor(fclk, xtal))
    && 16 + output in regs && 165 + output in regs && regs[165 + output] == 0
    && ReadControl(regs[16 + output])
       == Control(false, out.num == 0 || out.div == 4, output == 2, false, 3, drive)
  }

  lemma ConfiguredBy(regs: Registers, output: nat, fclk: nat, xtal: nat, drive: nat, pll: PllConfig, out: OutputConfig)
    requires 0 < xtal < 0x1_0000_0000 && Calc(fclk, xtal) == (pll, out) && pll.denom > 0 && out.denom > 0
    requires Holds(regs, if output == 0 then 26 else 34, PllStage(pll))
    requires Holds(regs, 42 + 8 * output, OutputStage(out))
    requires 16 + output in regs && 165 + output in regs && regs[165 + output] == 0
    requires ReadControl(regs[16 + output])
          == Control(false, out.num == 0 || out.div == 4, output == 2, false, 3, drive)
    ensures Configured(regs, output, fclk, xtal, drive)
  {
  }

  lemma ConfiguredReadsBack(regs: Registers, output: nat, fclk: nat, xtal: nat, drive: nat)
    requires Usual(xtal) && Configured(regs, output, fclk, xtal, drive)
    ensures Programmed(regs, if output == 0 then 26 else 34, PllFor(fclk, xtal))
    ensures Programmed(regs, 42 + 8 * output, OutputFor(fclk, xtal))
  {
    HoldsReadsBack(regs, if output == 0 then 26 else 34, PllFor(fclk, xtal));
    HoldsReadsBack(regs, 42 + 8 * output, OutputFor(fclk, xtal));
  }

  /** What only concerns one output leaves the other one as it was. */
  ghost predicate OthersKept(before: Registers, regs: Registers, output: nat) {
    forall a: nat ::
      && !((if output == 0 then 26 else 34) <= a < (if output == 0 then 34 else 42))
      && !(42 + 8 * output <= a < 50 + 8 * output) && a !in {16 + output, 165 + output, 177} ==>
        (a in regs <==> a in before) && (a in regs ==> regs[a] == before[a])
  }

  lemma OtherClockStays(before: Registers, regs: Registers, output: nat, other: nat, fclk: nat, xtal: nat, drive: nat)
    requires output in {0, 2} && other in {0, 2} && output != other && 0 < xtal < 0x1_0000_0000
    requires OthersKept(before, regs, output) && Configured(before, other, fclk, xtal, drive)
    ensures Configured(regs, other, fclk, xtal, drive)
  {
    HoldsKept(before, regs, if other == 0 then 26 else 34, PllFor(fclk, xtal));
    HoldsKept(before, regs, 42 + 8 * other, OutputFor(fclk, xtal));
  }

  class Si5351 {
    var regs: Registers

    constructor ()
      ensures regs == map[]
    {
      regs := map[];
    }

    /** One polled I2C transfer, which may fail. */
    method Write(addr: nat, value: nat) returns (ok: bool)
      modifies this
      ensures regs == if ok then old(regs)[addr := value] else old(regs)
    {
      ok := *;
      if ok {
        regs := regs[addr := value];
      }
    }

    /** Writes the eight bytes of a stage, one transfer after the other until one fails. */
    method WriteBulk(base: nat, s: Stage) returns (ok: bool)
      modifies this
      ensures ok ==> Holds(regs, base, s)
      ensures forall a: nat :: !(base <= a < base + 8) ==>
        (a in regs <==> a in old(regs)) && (a in regs ==> regs[a] == old(regs)[a])
    {
      ok := Write(base, s.p3 / 0x100 % 0x100);
      if !ok { return; }
      ok := Write(base + 1, s.p3 % 0x100);
      if !ok { return; }
      ok := Write(base + 2, s.p1 / 0x1_0000 % 4 + s.divBy4 % 4 * 4 + s.rdiv % 8 * 16);
      if !ok { return; }
      ok := Write(base + 3, s.p1 / 0x100 % 0x100);
      if !ok { return; }
      ok := Write(base + 4, s.p1 % 0x100);
      if !ok { return; }
      ok := Write(base + 5, s.p3 / 0x1_0000 % 16 * 16 + s.p2 / 0x1_0000 % 16);
      if !ok { return; }
      ok := Write(base + 6, s.p2 / 0x100 % 0x100);
      if !ok { return; }
      ok := Write(base + 7, s.p2 % 0x100);
    }

    /** P1, P2 and P3 in u32 arithmetic. */
    method Fraction(whole: nat, num: nat, denom: nat) returns (p1: nat, p2: nat, p3: nat)
      requires denom > 0
      ensures forall rdiv :: Parameters(whole, num, denom, rdiv) == Stage(p1, p2, p3, 0, rdiv)
    {
      var n := 128 * num % 0x1_0000_0000;
      p1 := (128 * whole + n / denom - 512) % 0x1_0000_0000;
      p2 := n % denom;
      p3 := denom;
    }

    /** The same for an output, with the special case of a division by 4. */
    method Divide(c: OutputConfig) returns (stage: Stage)
      requires c.div == 4 || c.denom > 0
      ensures stage == OutputStage(c)
    {
      stage := Stage(0, 0, 1, 3, c.rdiv);
      if c.div != 4 {
        var p1, p2, p3 := Fraction(c.div, c.num, c.denom);
        stage := Stage(p1, p2, p3, 0, c.rdiv);
      }
    }

    /** Programs a PLL and resets both PLLs. */
    method SetupPLL(pll: Pll, c: PllConfig) returns (status: Status)
      requires c.denom > 0
      modifies this
      ensures status in {Success, Failure}
      ensures status == Success ==> Holds(regs, pll.Base(), PllStage(c)) && 177 in regs && regs[177] == 0xA0
      ensures forall a: nat :: !(pll.Base() <= a < pll.Base() + 8) && a != 177 ==>
        (a in regs <==> a in old(regs)) && (a in regs ==> regs[a] == old(regs)[a])
    {
      var p1, p2, p3 := Fraction(c.mult, c.num, c.denom);
      var ok := WriteBulk(pll.Base(), Stage(p1, p2, p3, 0, 0));
      if !ok {
        return Failure;
      }
      ok := Write(177, 0xA0);
      return if ok then Success else Failure;
    }

    /** clkControl: fields or-ed together, which do not overlap. */
    method ClkControl(pll: Pll, drive: nat, c: OutputConfig) returns (clkControl: nat)
      requires drive < 4
      ensures ReadControl(clkControl)
           == Control(false, c.allowIntegerMode && (c.num == 0 || c.div == 4), pll.PLL_B?, false, 3, drive)
    {
      ControlReads(drive, pll.PLL_B?, c.allowIntegerMode && (c.num == 0 || c.div == 4));
      clkControl := 0x0C + drive;
      if pll == PLL_B {
        clkControl := clkControl + 0x20;
      }
      if c.allowIntegerMode && (c.num == 0 || c.div == 4) {
        clkControl := clkControl + 0x40;
      }
    }

    /** Programs an output: its control register, its divider and its phase offset. */
    method SetupOutput(output: nat, pll: Pll, drive: nat, c: OutputConfig, phaseOffset: nat) returns (status: Status)
      requires
        || c.denom > 0 || c.div == 4 || output > 2
        || (!c.allowIntegerMode && (c.div < 8 || (c.div == 8 && c.num == 0)))
      requires drive < 4
      modifies this
      ensures status == BadOutput <==> output > 2
      ensures status == BadDivider <==>
        output <= 2 && !c.allowIntegerMode && (c.div < 8 || (c.div == 8 && c.num == 0))
      ensures status in {BadOutput, BadDivider} ==> regs == old(regs)
      ensures status == Success ==>
        && Holds(regs, 42 + 8 * output, OutputStage(c))
        && 16 + output in regs && 165 + output in regs
        && ReadControl(regs[16 + output])
           == Control(false, c.allowIntegerMode && (c.num == 0 || c.div == 4), pll.PLL_B?, false, 3, drive)
        && regs[165 + output] == phaseOffset % 128
      ensures forall a: nat :: !(42 + 8 * output <= a < 50 + 8 * output) && a != 16 + output && a != 165 + output ==>
        (a in regs <==> a in old(regs)) && (a in regs ==> regs[a] == old(regs)[a])
    {
      if output > 2 {
        return BadOutput;
      }
      if !c.allowIntegerMode && (c.div < 8 || (c.div == 8 && c.num == 0)) {
        return BadDivider;
      }
      var stage := Divide(c);
      var clkControl := ClkControl(pll, drive, c);
      var ok := Write(16 + output, clkControl);
      if !ok {
        return Failure;
      }
      ok := WriteBulk(42 + 8 * output, stage);
      if !ok {
        return Failure;
      }
      ok := Write(165 + output, phaseOffset % 128);
      return if ok then Success else Failure;
    }

    /** si5351_SetupCLK0 and si5351_SetupCLK2: output 0 from PLL A, output 2 from PLL B. After
        a success the registers are set for the frequency, and with a usual reference the chip
        reads back exactly the stages calculated; either way the other output is left alone. */
    method SetupClk(output: nat, fclk: nat, xtal: nat, drive: nat) returns (status: Status)
      requires output in {0, 2} && drive < 4 && 0 < xtal < 0x1_0000_0000
      modifies this
      ensures status in {Success, Failure}
      ensures status == Success ==> Configured(regs, output, fclk, xtal, drive)
      ensures status == Success && Usual(xtal) ==>
        && Programmed(regs, if output == 0 then 26 else 34, PllFor(fclk, xtal))
        && Programmed(regs, 42 + 8 * output, OutputFor(fclk, xtal))
      ensures OthersKept(old(regs), regs, output)
    {
      var (pllConf, outConf) := Calc(fclk, xtal);
      var pll := if output == 0 then PLL_A else PLL_B;
      CalcFits(fclk, xtal);
      status := SetupPLL(pll, pllConf);
      if status != Success {
        return Failure;
      }
      ghost var before, base := regs, pll.Base();
      status := SetupOutput(output, pll, drive, outConf, 0);
      if status != Success {
        return Failure;
      }
      HoldsKept(before, regs, base, PllStage(pllConf));
      ConfiguredBy(regs, output, fclk, xtal, drive, pllConf, outConf);
      if Usual(xtal) {
        ConfiguredReadsBack(regs, output, fclk, xtal, drive);
      }
    }
  }
}
