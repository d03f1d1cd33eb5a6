/** cores/axis_bram_reader.v: streams BRAM words 0..cfg_data with tlast on the final one,
    once or over and over. */
module BramReader {
  import opened Handshake
  import opened BramPipe
  import Arith
  import Runs

  /** Generics of the core and what is constant during a run: the RAM contents (one word for
      every address of BRAM_ADDR_WIDTH bits) and the value on cfg_data. */
  datatype Params = Params(mem: seq<Word>, cfg: nat, continuous: bool) {
    predicate Valid() { cfg < |mem| }
  }

  /** An address counter of as many bits as the RAM has address lines. */
  function Succ(addr: nat, depth: nat): nat
    requires addr < depth
  {
    if addr + 1 == depth then 0 else addr + 1
  }

  datatype Regs = Regs(addr: nat, cfgReg: nat, enbl: bool, pipe: PipeRegs<bool>) {

    predicate Comp() { addr < cfgReg }

    /** The two generate branches differ only in what the last word does. */
    function NextAddr(depth: nat, continuous: bool): (next: nat)
      requires addr < depth
      ensures next < depth
    {
      if !(pipe.InReady() && enbl) then addr
      else if Comp() then Succ(addr, depth)
      else if continuous then 0
      else addr
    }

    predicate NextEnbl(continuous: bool) {
      if !enbl then Comp() else !pipe.InReady() || Comp() || continuous
    }

    function Next(p: Params, resetn: bool, outReady: bool): Regs
      requires addr < |p.mem|
    {
      var pipe' := pipe.Next(resetn, !Comp(), enbl, p.mem[addr], outReady);
      if !resetn then Regs(0, 0, false, pipe')
      else Regs(NextAddr(|p.mem|, p.continuous), p.cfg, NextEnbl(p.continuous), pipe')
    }
  }

  // ------------------------------------------------------------------ the class

  class AxisBramReader {
    const mem: seq<Word>
    const continuous: bool
    var addrReg: nat
    var dataReg: nat
    var enblReg: bool
    const bufs: ReadPipe<bool>

    ghost predicate Valid()
      reads this, bufs
    {
      addrReg < |mem| && bufs.Valid()
    }

    function State(): Regs
      reads this, bufs, bufs.buf0, bufs.buf1, bufs.buf2
    {
      Regs(addrReg, dataReg, enblReg, bufs.Regs())
    }

    constructor (mem: seq<Word>, continuous: bool, undefined: Word)
      requires mem != []
      ensures this.mem == mem && this.continuous == continuous
      ensures Valid() && State() == Regs(0, 0, false, PipeReset(false, undefined))
    {
      this.mem, this.continuous := mem, continuous;
      addrReg, dataReg, enblReg := 0, 0, false;
      bufs := new ReadPipe<bool>(false, undefined);
    }

    /** The combinational block: int_addr_next and int_enbl_next. */
    method Comb(ready0: bool) returns (addrNext: nat, enblNext: bool)
      requires Valid() && ready0 == State().pipe.InReady()
      ensures addrNext == State().NextAddr(|mem|, continuous) && enblNext == State().NextEnbl(continuous)
    {
      var comp := addrReg < dataReg;
      addrNext, enblNext := addrReg, enblReg;
      if !enblReg && comp {
        enblNext := true;
      }
      if ready0 && enblReg && comp {
        addrNext := Succ(addrReg, |mem|);
      }
      if ready0 && enblReg && !comp {
        if continuous {
          addrNext := 0;
        } else {
          enblNext := false;
        }
      }
    }

    method Clock(resetn: bool, cfgData: nat, outReady: bool)
      requires Valid() && cfgData < |mem|
      modifies this, bufs, bufs.buf0, bufs.buf1, bufs.buf2
      ensures Valid()
      ensures State() == old(State()).Next(Params(mem, cfgData, continuous), resetn, outReady)
    {
      var ready0 := !bufs.buf0.valid || bufs.buf1.ready;
      var addrNext, enblNext := Comb(ready0);
      bufs.Clock(resetn, !(addrReg < dataReg), enblReg, mem[addrReg], outReady);
      if !resetn {
        addrReg, dataReg, enblReg := 0, 0, false;
      } else {
        addrReg, dataReg, enblReg := addrNext, cfgData, enblNext;
      }
    }
  }

  // ---------------------------------------------------------------- runs

  /** What the documentation of the core promises as its i-th word: address i modulo the
      pass length, flagged when it closes a pass. */
  function Item(p: Params, i: nat): (bool, Word)
    requires p.Valid()
  {
    (i % (p.cfg + 1) == p.cfg, p.mem[i % (p.cfg + 1)])
  }

  function Expected(p: Params, n: nat): seq<(bool, Word)>
    requires p.Valid()
  {
    seq(n, i requires 0 <= i < n => Item(p, i))
  }

  datatype In = In(resetn: bool, outReady: bool)

  /** The core with the items that entered and left its pipeline since the last reset. */
  datatype State = State(p: Params, addr: nat, cfgReg: nat, enbl: bool, flow: Flow<bool>) {
    function Core(): Regs { Regs(addr, cfgReg, enbl, flow.pipe) }
  }

  ghost function Step(s: State, i: In): State {
    if s.addr >= |s.p.mem| then s
    else
      var r := s.Core();
      var next := r.Next(s.p, i.resetn, i.outReady);
      State(s.p, next.addr, next.cfgReg, next.enbl,
            s.flow.Step(i.resetn, !r.Comp(), r.enbl, s.p.mem[r.addr], i.outReady))
  }

  ghost function Init(p: Params, undefined: Word): State {
    State(p, 0, 0, false, FlowReset(false, undefined))
  }

  /** The monitored pipeline is the pipeline of the core. */
  lemma StepIsNext(s: State, i: In)
    requires s.addr < |s.p.mem|
    ensures Step(s, i).Core() == s.Core().Next(s.p, i.resetn, i.outReady)
  {
  }

  /** The address counter always points at the next word of the promised stream. */
  ghost predicate Counts(p: Params, r: Regs, issued: nat) {
    && r.addr <= p.cfg < |p.mem|
    && (r.cfgReg == p.cfg || (r.cfgReg == 0 && issued == 0 && !r.enbl))
    && (r.enbl ==> p.cfg > 0 && r.addr == issued % (p.cfg + 1))
    && (r.enbl && !p.continuous ==> issued == r.addr)
    && (r.enbl || (issued == 0 && r.addr == 0)
        || (!p.continuous && p.cfg > 0 && issued == p.cfg + 1 && r.addr == p.cfg))
  }

  ghost predicate Inv(s: State) {
    && s.flow.Inv()
    && Counts(s.p, s.Core(), |s.flow.issued|)
    && s.flow.issued == Expected(s.p, |s.flow.issued|)
  }

  lemma CountsKept(p: Params, r: Regs, issued: nat, outReady: bool)
    requires Counts(p, r, issued)
    ensures Counts(p, r.Next(p, true, outReady), if r.enbl && r.pipe.InReady() then issued + 1 else issued)
    ensures r.enbl ==> (!r.Comp(), p.mem[r.addr]) == Item(p, issued)
  {
    Arith.ModSucc(issued, p.cfg + 1);
  }

  lemma ExpectedSucc(p: Params, n: nat)
    requires p.Valid()
    ensures Expected(p, n + 1) == Expected(p, n) + [Item(p, n)]
  {
  }

  lemma StepKeeps(s: State, i: In)
    requires Inv(s)
    ensures Inv(Step(s, i))
  {
    var r, n := s.Core(), |s.flow.issued|;
    FlowConserves(s.flow, i.resetn, !r.Comp(), r.enbl, s.p.mem[r.addr], i.outReady);
    if i.resetn {
      CountsKept(s.p, r, n, i.outReady);
      ExpectedSucc(s.p, n);
    }
  }

  lemma {:induction false} ParamsStay(s: State, ins: seq<In>)
    ensures Runs.Run(Step, s, ins).p == s.p
  {
    if ins != [] {
      ParamsStay(s, ins[..|ins| - 1]);
    }
  }

  /** Whatever the consumer's tready does and whenever reset strikes, the words delivered
      since reset are the promised stream in order, each with its own tlast flag; a
      one-shot core stops after one pass and a zero cfg_data delivers nothing at all. */
  lemma DeliversThePromisedStream(p: Params, undefined: Word, ins: seq<In>)
    requires p.Valid()
    ensures
      var delivered := Runs.Run(Step, Init(p, undefined), ins).flow.delivered;
      && delivered == Expected(p, |delivered|)
      && (!p.continuous ==> |delivered| <= p.cfg + 1)
      && (p.cfg == 0 ==> delivered == [])
  {
    forall s, i | Inv(s) ensures Inv(Step(s, i)) {
      StepKeeps(s, i);
    }
    Runs.Invariant(Step, Inv, Init(p, undefined), ins);
    ParamsStay(Init(p, undefined), ins);
    var s := Runs.Run(Step, Init(p, undefined), ins);
    var n := |s.flow.delivered|;
    assert s.flow.delivered == Expected(p, |s.flow.issued|)[..n] == Expected(p, n);
  }

  /** Words of the stream that are out once n could have been issued. */
  function Total(p: Params, n: int): nat {
    if p.cfg == 0 || n < 0 then 0 else if p.continuous || n <= p.cfg + 1 then n else p.cfg + 1
  }

  /** What an always-ready consumer sees of the registers after n cycles. */
  ghost predicate Streaming(s: State, n: nat) {
    && (n > 0 ==> s.cfgReg == s.p.cfg)
    && (s.enbl <==> n >= 2 && s.p.cfg > 0 && (s.p.continuous || n - 2 <= s.p.cfg))
    && s.flow.pipe.tail.front.ready
    && (s.flow.pipe.tag.valid <==> Total(s.p, n - 2) > Total(s.p, n - 3))
    && (s.flow.pipe.tail.back.valid <==> Total(s.p, n - 3) > Total(s.p, n - 4))
    && |s.flow.issued| == Total(s.p, n - 2)
    && |s.flow.delivered| == Total(s.p, n - 4)
  }

  lemma StreamingStep(s: State, n: nat)
    requires Inv(s) && Streaming(s, n)
    requires n == 0 ==> s.cfgReg == 0
    ensures Streaming(Step(s, In(true, true)), n + 1)
  {
  }

  /** Completeness: with a consumer that is always ready, n cycles after reset exactly n - 4
      words have been delivered, up to the single pass of a one-shot core. */
  lemma {:induction false} DeliversEverything(p: Params, undefined: Word, ins: seq<In>)
    requires p.Valid()
    requires forall k :: 0 <= k < |ins| ==> ins[k] == In(true, true)
    ensures
      var s := Runs.Run(Step, Init(p, undefined), ins);
      && s.p == p && Inv(s) && Streaming(s, |ins|)
      && |s.flow.delivered| == Total(p, |ins| - 4)
  {
    if ins != [] {
      var front := ins[..|ins| - 1];
      DeliversEverything(p, undefined, front);
      var s := Runs.Run(Step, Init(p, undefined), front);
      StepKeeps(s, In(true, true));
      StreamingStep(s, |front|);
    }
  }
}
