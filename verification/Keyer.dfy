/** cores/axis_keyer.v: reads a key-shaping envelope out of a BRAM, upwards while the key is
    down and back while it is up. */
module Keyer {
  import opened Handshake
  import opened Lists
  import opened BramPipe
  import Runs

  /** The envelope (one word for every address) and the constant value on cfg_data. */
  datatype Params = Params(mem: seq<Word>, cfg: nat) {
    predicate Valid() { cfg < |mem| }
  }

  datatype Regs = Regs(addr: nat, cfgReg: nat, enbl: bool, pipe: PipeRegs<()>) {

    function NextAddr(depth: nat): (next: nat)
      requires addr < depth
      ensures next < depth
    {
      if !pipe.InReady() then addr
      else if enbl then (if addr < cfgReg then (if addr + 1 == depth then 0 else addr + 1) else addr)
      else if addr != 0 then addr - 1
      else addr
    }

    predicate NextEnbl(key: bool) {
      if enbl then !pipe.InReady() || addr < cfgReg || key else addr == 0 && key
    }

    function Next(p: Params, resetn: bool, key: bool, outReady: bool): Regs
      requires addr < |p.mem|
    {
      var pipe' := pipe.Next(resetn, (), true, p.mem[addr], outReady);
      if !resetn then Regs(0, 0, false, pipe') else Regs(NextAddr(|p.mem|), p.cfg, NextEnbl(key), pipe')
    }
  }

  // ------------------------------------------------------------------ the class

  class AxisKeyer {
    const mem: seq<Word>
    var addrReg: nat
    var dataReg: nat
    var enblReg: bool
    const bufs: ReadPipe<()>

    ghost predicate Valid()
      reads this, bufs
    {
      addrReg < |mem| && bufs.Valid()
    }

    function State(): Regs
      reads this, bufs, bufs.buf0, bufs.buf1, bufs.buf2
    {
      Regs(addrReg, dataReg, enblReg, bufs.Regs())
    }

    constructor (mem: seq<Word>, undefined: Word)
      requires mem != []
      ensures this.mem == mem && Valid()
      ensures State() == Regs(0, 0, false, PipeReset((), undefined))
    {
      this.mem := mem;
      addrReg, dataReg, enblReg := 0, 0, false;
      bufs := new ReadPipe<()>((), undefined);
    }

    /** The combinational block: int_addr_next and int_enbl_next. */
    method Comb(ready0: bool, key: bool) returns (addrNext: nat, enblNext: bool)
      requires Valid() && ready0 == State().pipe.InReady()
      ensures addrNext == State().NextAddr(|mem|) && enblNext == State().NextEnbl(key)
    {
      var below, nonzero := addrReg < dataReg, addrReg != 0;
      addrNext, enblNext := addrReg, enblReg;
      if !enblReg && !nonzero && key {
        enblNext := true;
      }
      if ready0 && enblReg && below {
        addrNext := if addrReg + 1 == |mem| then 0 else addrReg + 1;
      }
      if ready0 && enblReg && !below && !key {
        enblNext := false;
      }
      if ready0 && !enblReg && nonzero {
        addrNext := addrReg - 1;
      }
    }

    method Clock(resetn: bool, cfgData: nat, key: bool, outReady: bool)
      requires Valid() && cfgData < |mem|
      modifies this, bufs, bufs.buf0, bufs.buf1, bufs.buf2
      ensures Valid()
      ensures State() == old(State()).Next(Params(mem, cfgData), resetn, key, outReady)
    {
      var ready0 := !bufs.buf0.valid || bufs.buf1.ready;
      var addrNext, enblNext := Comb(ready0, key);
      bufs.Clock(resetn, (), true, mem[addrReg], outReady);
      if !resetn {
        addrReg, dataReg, enblReg := 0, 0, false;
      } else {
        addrReg, dataReg, enblReg := addrNext, cfgData, enblNext;
      }
    }
  }

  // ---------------------------------------------------------------- runs

  datatype In = In(resetn: bool, key: bool, outReady: bool)

  /** The core, its monitored pipeline, and the addresses read since the last reset. */
  datatype State = State(p: Params, addr: nat, cfgReg: nat, enbl: bool, flow: Flow<()>, addrs: seq<int>) {
    function Core(): Regs { Regs(addr, cfgReg, enbl, flow.pipe) }
  }

  ghost function Step(s: State, i: In): State {
    if s.addr >= |s.p.mem| then s
    else
      var r := s.Core();
      var next := r.Next(s.p, i.resetn, i.key, i.outReady);
      State(s.p, next.addr, next.cfgReg, next.enbl,
            s.flow.Step(i.resetn, (), true, s.p.mem[r.addr], i.outReady),
            if !i.resetn then [] else if r.pipe.InReady() then s.addrs + [r.addr] else s.addrs)
  }

  ghost function Init(p: Params, undefined: Word): State {
    State(p, 0, 0, false, FlowReset((), undefined), [])
  }

  /** From x to y to z: a step is at most one address, and strictly between 0 and the top
      it is exactly the step before it. */
  predicate Straight(x: int, y: int, z: int, top: int) {
    0 < y < top ==> z - y == y - x && z != y
  }

  /** The i-th read goes on from the ones before it. */
  predicate Smooth(a: seq<int>, i: nat, top: int)
    requires i < |a|
  {
    && 0 <= a[i] <= top
    && (i == 0 ==> a[i] == 0)
    && (i >= 1 ==> a[i - 1] - 1 <= a[i] <= a[i - 1] + 1)
    && (i >= 2 ==> Straight(a[i - 2], a[i - 1], a[i], top))
  }

  /** Complete monotone ramps: reading starts at 0, moves by at most one address, and strictly
      between 0 and the top it neither pauses nor turns round. */
  ghost predicate Ramps(a: seq<int>, top: int) {
    forall i :: 0 <= i < |a| ==> Smooth(a, i, top)
  }

  lemma RampsAppend(a: seq<int>, x: int, top: int)
    requires Ramps(a, top) && Smooth(a + [x], |a|, top)
    ensures Ramps(a + [x], top)
  {
    forall i | 0 <= i < |a + [x]| ensures Smooth(a + [x], i, top) {
      assert i < |a| ==> Smooth(a, i, top);
    }
  }

  function Words(p: Params, a: seq<int>): seq<((), Word)> {
    seq(|a|, i requires 0 <= i < |a| => ((), if 0 <= a[i] < |p.mem| then p.mem[a[i]] else 0))
  }

  /** The address register continues the ramp in the direction int_enbl_reg names. */
  ghost predicate Heading(p: Params, r: Regs, a: seq<int>) {
    && r.addr <= p.cfg < |p.mem|
    && (r.cfgReg == p.cfg || (r.cfgReg == 0 && r.addr == 0 && !r.enbl))
    && (a == [] ==> r.addr == 0)
    && (a != [] ==>
          var last := a[|a| - 1];
          && last - 1 <= r.addr <= last + 1
          && (0 < r.addr < p.cfg ==> r.addr == if r.enbl then last + 1 else last - 1)
          && (|a| >= 2 ==> Straight(a[|a| - 2], last, r.addr, p.cfg)))
  }

  ghost predicate Inv(s: State) {
    && s.flow.Inv()
    && Heading(s.p, s.Core(), s.addrs)
    && Ramps(s.addrs, s.p.cfg)
    && s.flow.issued == Words(s.p, s.addrs)
  }

  lemma HeadingKept(p: Params, r: Regs, a: seq<int>, key: bool, outReady: bool)
    requires Heading(p, r, a)
    ensures Smooth(a + [r.addr], |a|, p.cfg)
    ensures
      var a' := if r.pipe.InReady() then a + [r.addr] else a;
      Heading(p, r.Next(p, true, key, outReady), a')
  {
  }

  lemma WordsAppend(p: Params, a: seq<int>, x: nat)
    requires x < |p.mem|
    ensures Words(p, a + [x]) == Words(p, a) + [((), p.mem[x])]
  {
  }

  lemma StepKeeps(s: State, i: In)
    requires Inv(s)
    ensures Inv(Step(s, i))
  {
    var r := s.Core();
    FlowConserves(s.flow, i.resetn, (), true, s.p.mem[r.addr], i.outReady);
    if i.resetn {
      HeadingKept(s.p, r, s.addrs, i.key, i.outReady);
      RampsAppend(s.addrs, r.addr, s.p.cfg);
      WordsAppend(s.p, s.addrs, r.addr);
    }
  }

  lemma {:induction false} ParamsStay(s: State, ins: seq<In>)
    ensures Runs.Run(Step, s, ins).p == s.p
  {
    if ins != [] {
      ParamsStay(s, ins[..|ins| - 1]);
    }
  }

  /** For every key pattern and every stalling of the consumer, the samples delivered since
      reset are the envelope read along complete ramps between 0 and cfg_data. */
  lemma DeliversRamps(p: Params, undefined: Word, ins: seq<In>)
    requires p.Valid()
    ensures
      var s := Runs.Run(Step, Init(p, undefined), ins);
      && Ramps(s.addrs, p.cfg)
      && |s.flow.delivered| <= |s.addrs|
      && s.flow.delivered == Words(p, s.addrs[..|s.flow.delivered|])
  {
    forall s, i | Inv(s) ensures Inv(Step(s, i)) {
      StepKeeps(s, i);
    }
    Runs.Invariant(Step, Inv, Init(p, undefined), ins);
    ParamsStay(Init(p, undefined), ins);
    var s := Runs.Run(Step, Init(p, undefined), ins);
    assert s.flow.delivered == Words(p, s.addrs)[..|s.flow.delivered|];
  }

  /** n addresses of a ramp upwards, with the bottom read twice. */
  function Up(n: nat, top: nat): seq<int> {
    seq(n, k => if k == 0 then 0 else if k - 1 < top then k - 1 else top)
  }

  /** n addresses of a ramp downwards, with the top read twice. */
  function Down(n: nat, top: nat): seq<int> {
    seq(n, k => if k == 0 then top else if k - 1 < top then top - (k - 1) else 0)
  }

  lemma UpSucc(n: nat, top: nat)
    ensures Up(n + 1, top) == Up(n, top) + [Up(n + 1, top)[n]]
  {
  }

  /** One cycle with the key down. */
  lemma OneFurtherUp(t: State, n: nat)
    requires t.p.Valid() && t.flow.pipe.tail.front.ready && t.addr == Up(n + 1, t.p.cfg)[n]
    requires if n == 0 then !t.enbl else t.enbl && t.cfgReg == t.p.cfg
    ensures
      var u := Step(t, In(true, true, true));
      && u.p == t.p && u.cfgReg == t.p.cfg && u.flow.pipe.tail.front.ready && u.enbl
      && u.addr == Up(n + 2, t.p.cfg)[n + 1] && u.addrs == t.addrs + [t.addr]
  {
  }

  /** A key pressed at address 0 and held, with a consumer that is always ready: two reads of
      address 0, then one address further a cycle, and it stays at the top. */
  lemma {:induction false} PressedKeyRampsUp(s: State, ins: seq<In>)
    requires s.p.Valid() && s.addr == 0 && !s.enbl && s.flow.pipe.tail.front.ready
    requires forall k :: 0 <= k < |ins| ==> ins[k] == In(true, true, true)
    ensures
      var t := Runs.Run(Step, s, ins);
      var n := |ins|;
      && t.p == s.p && t.flow.pipe.tail.front.ready
      && (if n == 0 then !t.enbl else t.enbl && t.cfgReg == s.p.cfg)
      && t.addr == Up(n + 1, s.p.cfg)[n]
      && t.addrs == s.addrs + Up(n, s.p.cfg)
  {
    if ins == [] {
      assert s.addrs + Up(0, s.p.cfg) == s.addrs;
    } else {
      var n := |ins| - 1;
      PressedKeyRampsUp(s, ins[..n]);
      OneFurtherUp(Runs.Run(Step, s, ins[..n]), n);
      UpSucc(n, s.p.cfg);
      Associates(s.addrs, Up(n, s.p.cfg), [Up(n + 1, s.p.cfg)[n]]);
    }
  }

  /** A held key from reset: the same, from the first cycle on. */
  lemma HeldKeyRampsUp(p: Params, undefined: Word, ins: seq<In>)
    requires p.Valid()
    requires forall k :: 0 <= k < |ins| ==> ins[k] == In(true, true, true)
    ensures
      var s := Runs.Run(Step, Init(p, undefined), ins);
      var n := |ins|;
      && s.p == p && s.flow.pipe.tail.front.ready
      && (if n == 0 then !s.enbl && s.cfgReg == s.addr == 0
          else s.enbl && s.cfgReg == p.cfg && s.addr == Up(n + 1, p.cfg)[n])
      && s.addrs == Up(n, p.cfg)
  {
    PressedKeyRampsUp(Init(p, undefined), ins);
    assert [] + Up(|ins|, p.cfg) == Up(|ins|, p.cfg);
  }

  lemma DownSucc(n: nat, top: nat)
    ensures Down(n + 1, top) == Down(n, top) + [Down(n + 1, top)[n]]
  {
  }

  /** One cycle with the key up. */
  lemma OneFurtherDown(t: State, n: nat)
    requires t.p.Valid() && t.cfgReg == t.p.cfg && t.flow.pipe.tail.front.ready
    requires (t.enbl <==> n == 0) && t.addr == Down(n + 1, t.p.cfg)[n]
    ensures
      var u := Step(t, In(true, false, true));
      && u.p == t.p && u.cfgReg == t.p.cfg && u.flow.pipe.tail.front.ready && !u.enbl
      && u.addr == Down(n + 2, t.p.cfg)[n + 1] && u.addrs == t.addrs + [t.addr]
  {
  }

  /** A key released at the top: the top is read once more, then one address less a cycle
      down to 0, where the keyer rests. */
  lemma {:induction false} ReleasedKeyRampsDown(s: State, ins: seq<In>)
    requires s.p.Valid() && s.addr == s.cfgReg == s.p.cfg && s.enbl && s.flow.pipe.tail.front.ready
    requires forall k :: 0 <= k < |ins| ==> ins[k] == In(true, false, true)
    ensures
      var t := Runs.Run(Step, s, ins);
      var n := |ins|;
      && t.p == s.p && t.cfgReg == s.p.cfg && t.flow.pipe.tail.front.ready
      && (t.enbl <==> n == 0)
      && t.addr == Down(n + 1, s.p.cfg)[n]
      && t.addrs == s.addrs + Down(n, s.p.cfg)
  {
    if ins == [] {
      assert s.addrs + Down(0, s.p.cfg) == s.addrs;
    } else {
      var n := |ins| - 1;
      ReleasedKeyRampsDown(s, ins[..n]);
      OneFurtherDown(Runs.Run(Step, s, ins[..n]), n);
      DownSucc(n, s.p.cfg);
      Associates(s.addrs, Down(n, s.p.cfg), [Down(n + 1, s.p.cfg)[n]]);
    }
  }
}
