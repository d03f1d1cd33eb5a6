/** cores/axis_histogram.v: a three-state read-modify-write machine that counts samples in
    the bins of a BRAM. */
module Histogram {
  import Runs

  /** Bin numbers and counts; `top` is the all-ones word of BRAM_DATA_WIDTH bits. */
  datatype Regs = Regs(addr: nat, data: nat, stage: nat, tready: bool, we: bool, rdata: nat, mem: seq<nat>, top: nat) {

    predicate Fits() {
      && mem != [] && top > 0
      && (forall b :: 0 <= b < |mem| ==> mem[b] <= top)
      && addr < |mem| && data <= top && rdata <= top && stage < 3
    }
  }

  /** The bin a sample selects: its low BRAM_ADDR_WIDTH bits. */
  function Bin(tdata: nat, depth: nat): (b: nat)
    requires depth > 0
    ensures b < depth
  {
    tdata % depth
  }

  /** The combinational block. */
  function Control(r: Regs, tdata: nat, tvalid: bool): Regs
    requires r.Fits()
  {
    if r.stage == 0 then
      if tvalid then r.(addr := Bin(tdata, |r.mem|), tready := false, stage := 1) else r
    else if r.stage == 1 then
      r.(data := if r.rdata == r.top then 0 else r.rdata + 1, we := r.rdata != r.top, stage := 2)
    else
      r.(tready := true, we := false, stage := 0)
  }

  /** One clock of the state machine and of the RAM it drives. A RAM that is not enabled keeps
      its output register; `rw` is what it outputs when it is written or reset, which depends on
      its mode. A write in progress is not held up by a reset. */
  function Next(r: Regs, resetn: bool, tdata: nat, tvalid: bool, rw: nat): Regs
    requires r.Fits() && rw <= r.top
  {
    var c :=
      if resetn then Control(r, tdata, tvalid)
      else r.(addr := 0, data := 0, stage := 0, tready := true, we := false);
    c.(rdata := if r.we || !resetn then rw else if tvalid then r.mem[Bin(tdata, |r.mem|)] else r.rdata,
       mem := if r.we then r.mem[r.addr := r.data] else r.mem)
  }

  // ------------------------------------------------------------------ the class

  class AxisHistogram {
    var addrReg: nat
    var dataReg: nat
    var caseReg: nat
    var treadyReg: bool
    var weReg: bool
    var rdata: nat
    const ram: array<nat>
    const top: nat

    function State(): Regs
      reads this, ram
    {
      Regs(addrReg, dataReg, caseReg, treadyReg, weReg, rdata, ram[..], top)
    }

    constructor (ram: array<nat>, top: nat)
      ensures this.ram == ram && this.top == top
      ensures State() == Regs(0, 0, 0, true, false, 0, ram[..], top)
    {
      this.ram, this.top := ram, top;
      addrReg, dataReg, caseReg, treadyReg, weReg, rdata := 0, 0, 0, true, false, 0;
    }

    method ClockControl(resetn: bool, bin: nat, tvalid: bool)
      requires State().Fits() && bin < ram.Length
      modifies this`addrReg, this`dataReg, this`caseReg, this`treadyReg, this`weReg
      ensures resetn ==> forall tdata {:trigger Control(old(State()), tdata, tvalid)} ::
        Bin(tdata, ram.Length) == bin ==> State() == Control(old(State()), tdata, tvalid)
      ensures !resetn ==>
        State() == old(State()).(addr := 0, data := 0, stage := 0, tready := true, we := false)
      ensures State().Fits()
    {
      var addrNext, dataNext, caseNext := addrReg, dataReg, caseReg;
      var treadyNext, weNext := treadyReg, weReg;
      if caseReg == 0 {
        if tvalid {
          addrNext, treadyNext, caseNext := bin, false, 1;
        }
      } else if caseReg == 1 {
        dataNext := if rdata == top then 0 else rdata + 1;
        weNext, caseNext := rdata != top, 2;
      } else if caseReg == 2 {
        treadyNext, weNext, caseNext := true, false, 0;
      }
      if !resetn {
        addrReg, dataReg, caseReg, treadyReg, weReg := 0, 0, 0, true, false;
      } else {
        addrReg, dataReg, caseReg, treadyReg, weReg := addrNext, dataNext, caseNext, treadyNext, weNext;
      }
    }

    method Clock(resetn: bool, tdata: nat, tvalid: bool, rw: nat)
      requires State().Fits() && rw <= top
      modifies this, ram
      ensures State() == Next(old(State()), resetn, tdata, tvalid, rw)
      ensures State().Fits()
    {
      ghost var before := State();
      var bin := tdata % ram.Length;
      var we, addr, data := weReg, addrReg, dataReg;
      ClockControl(resetn, bin, tvalid);
      if we {
        ram[addr] := data;
        assert ram[..] == before.mem[before.addr := before.data];
      }
      if we || !resetn {
        rdata := rw;
      } else if tvalid {
        rdata := ram[bin];
      }
    }
  }

  // ---------------------------------------------------------------- runs

  datatype In = In(resetn: bool, tdata: nat, tvalid: bool, rw: nat)

  /** The core, with the samples it took over the stream port: all of them, except
      that a reset in the cycle after a sample was taken, while its bin is read, forgets it. */
  datatype State = State(regs: Regs, initial: seq<nat>, taken: seq<nat>)

  ghost function Step(s: State, i: In): State {
    if !s.regs.Fits() || i.rw > s.regs.top then s
    else
      State(Next(s.regs, i.resetn, i.tdata, i.tvalid, i.rw), s.initial,
            if !i.resetn then if s.regs.stage == 1 && s.taken != [] then s.taken[..|s.taken| - 1] else s.taken
            else if i.tvalid && s.regs.tready then s.taken + [i.tdata] else s.taken)
  }

  ghost function Init(initial: seq<nat>, top: nat): State {
    State(Regs(0, 0, 0, true, false, 0, initial, top), initial, [])
  }

  /** How many of the samples have the number of bin b in their low bits. */
  function Count(taken: seq<nat>, b: nat, depth: nat): nat
    requires depth > 0
  {
    if taken == [] then 0
    else Count(taken[..|taken| - 1], b, depth) + if taken[|taken| - 1] % depth == b then 1 else 0
  }

  function Saturate(n: nat, top: nat): nat { if n < top then n else top }

  /** What bin b should hold: its initial count plus its samples, stuck at all ones. */
  function Tally(s: State, taken: seq<nat>, b: nat): nat
    requires b < |s.initial|
  {
    Saturate(s.initial[b] + Count(taken, b, |s.initial|), s.regs.top)
  }

  /** While the machine is busy the last sample taken is still on its way into the RAM. */
  ghost predicate Inv(s: State) {
    var r := s.regs;
    && r.Fits()
    && |r.mem| == |s.initial|
    && (r.tready <==> r.stage == 0)
    && (r.stage < 2 ==> !r.we)
    && (r.stage > 0 ==> s.taken != [] && r.addr == s.taken[|s.taken| - 1] % |r.mem|)
    && (var done := if r.stage == 0 then s.taken else s.taken[..|s.taken| - 1];
        && (forall b :: 0 <= b < |r.mem| ==> r.mem[b] == Tally(s, done, b))
        && (r.stage == 1 ==> r.rdata == r.mem[r.addr])
        && (r.stage == 2 ==> if r.we then r.data == Tally(s, s.taken, r.addr)
                                     else r.mem[r.addr] == Tally(s, s.taken, r.addr)))
  }

  lemma StepKeeps(s: State, i: In)
    requires Inv(s)
    ensures Inv(Step(s, i))
  {
    var r, t := s.regs, Step(s, i);
    if i.resetn && r.stage == 0 && i.tvalid && i.rw <= r.top {
      assert t.taken[..|t.taken| - 1] == s.taken;
    }
  }

  lemma {:induction false} ConstantsStay(s: State, ins: seq<In>)
    ensures Runs.Run(Step, s, ins).initial == s.initial && Runs.Run(Step, s, ins).regs.top == s.regs.top
  {
    if ins != [] {
      ConstantsStay(s, ins[..|ins| - 1]);
    }
  }

  /** Samples and resets may arrive at any time, also while the machine is busy: only those
      taken count, and whenever the machine is idle every bin holds exactly its saturated tally. */
  lemma BinsHoldTheirTallies(initial: seq<nat>, top: nat, ins: seq<In>)
    requires Init(initial, top).regs.Fits()
    ensures
      var s := Runs.Run(Step, Init(initial, top), ins);
      && s.initial == initial && s.regs.top == top
      && |s.regs.mem| == |initial|
      && (s.regs.tready ==>
            forall b :: 0 <= b < |initial| ==>
              s.regs.mem[b] == Saturate(initial[b] + Count(s.taken, b, |initial|), top))
  {
    forall s, i | Inv(s) ensures Inv(Step(s, i)) {
      StepKeeps(s, i);
    }
    Runs.Invariant(Step, Inv, Init(initial, top), ins);
    ConstantsStay(Init(initial, top), ins);
  }

  /** A sample waiting at an idle machine is in the RAM three clocks later, and the machine
      is ready again. */
  lemma ThreeClocksASample(s: State, i0: In, i1: In, i2: In)
    requires Inv(s) && s.regs.tready && i0.tvalid && i0.resetn && i1.resetn && i2.resetn
    requires i0.rw <= s.regs.top && i1.rw <= s.regs.top && i2.rw <= s.regs.top
    ensures
      var t := Step(Step(Step(s, i0), i1), i2);
      && t.regs.tready
      && t.taken == s.taken + [i0.tdata]
      && |t.regs.mem| == |s.initial|
      && (forall b :: 0 <= b < |s.initial| ==> t.regs.mem[b] == Tally(s, t.taken, b))
  {
    StepKeeps(s, i0);
    StepKeeps(Step(s, i0), i1);
    StepKeeps(Step(Step(s, i0), i1), i2);
  }
}
