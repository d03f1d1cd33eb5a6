/** cores/axis_ram_writer.v: drains a stream FIFO into memory in 16-beat write bursts at
    wrapping addresses. */
module RamWriter {
  import opened Handshake
  import opened RamRegion
  import Runs

  type Word = bv64

  /** The W stage carries (wlast, wdata). */
  datatype Regs = Regs(awvalid: bool, wvalid: bool, cntr: nat, addr: nat,
                       aw: OutputRegs<nat>, w: OutputRegs<(bool, Word)>, fifo: seq<Word>) {

    /** int_valid_wire: a whole burst is waiting and none is being written. */
    predicate Start() { |fifo| > 15 && !wvalid }

    predicate AwValid() { Start() || awvalid }

    predicate WValid() { Start() || wvalid }

    predicate AwTaken(awready: bool) { AwValid() && aw.InReady(awready) }

    /** int_rden_wire: the beat at the head of the FIFO enters the W stage. */
    predicate Read(wready: bool) { WValid() && w.InReady(wready) }

    function Beat(): (bool, Word) { (cntr == 15, if fifo == [] then 0 else fifo[0]) }

    function Next(p: Params, resetn: bool, awready: bool, wready: bool, data: Word, tvalid: bool): Regs
      requires p.Valid()
    {
      var aw' := aw.Next(resetn, p.Address(addr), AwValid(), awready);
      var w' := w.Next(resetn, Beat(), WValid(), wready);
      if !resetn then Regs(false, false, 0, 0, aw', w', [])
      else
        Regs(
          !AwTaken(awready) && AwValid(),
          !(w.InReady(wready) && cntr == 15) && WValid(),
          if Read(wready) then (cntr + 1) % 16 else cntr,
          if !AwTaken(awready) then addr else NextBlock(p, addr),
          aw', w',
          FifoNext(fifo, p.depth, tvalid, data, Read(wready)))
    }
  }

  // ------------------------------------------------------------------ the class

  class AxisRamWriter {
    const p: Params
    var awvalidReg: bool
    var wvalidReg: bool
    var cntrReg: nat
    var addrReg: nat
    const fifo0: Fifo<Word>
    const buf0: OutputBuffer<nat>
    const buf1: OutputBuffer<(bool, Word)>

    ghost predicate Valid() {
      p.Valid() && fifo0.depth == p.depth && buf0 as object != buf1
    }

    function State(): Regs
      reads this, buf0, buf1, fifo0
    {
      Regs(awvalidReg, wvalidReg, cntrReg, addrReg, buf0.Regs(), buf1.Regs(), fifo0.items)
    }

    constructor (p: Params)
      requires p.Valid()
      ensures this.p == p && Valid()
      ensures State() == Regs(false, false, 0, 0, OutputRegs(false, 0), OutputRegs(false, (false, 0)), [])
    {
      this.p := p;
      awvalidReg, wvalidReg, cntrReg, addrReg := false, false, 0, 0;
      fifo0 := new Fifo<Word>(p.depth);
      buf0 := new OutputBuffer<nat>(0);
      buf1 := new OutputBuffer<(bool, Word)>((false, 0));
    }

    /** The submodules: the FIFO and the address and data stages. */
    method ClockStages(resetn: bool, awready: bool, wready: bool, data: Word, tvalid: bool)
      requires Valid()
      modifies buf0, buf1, fifo0
      ensures var next := old(State()).Next(p, resetn, awready, wready, data, tvalid);
        buf0.Regs() == next.aw && buf1.Regs() == next.w && fifo0.items == next.fifo
    {
      var start := |fifo0.items| > 15 && !wvalidReg;
      var wvalid := start || wvalidReg;
      var read := wvalid && (!buf1.valid || wready);
      var head := if fifo0.items == [] then 0 else fifo0.items[0];
      var address := p.Address(addrReg);
      buf0.Clock(resetn, address, start || awvalidReg, awready);
      buf1.Clock(resetn, (cntrReg == 15, head), wvalid, wready);
      fifo0.Clock(!resetn, tvalid, data, read);
    }

    /** What the clocked block assigns to its registers out of reset. */
    method Control(awready: bool, wready: bool) returns (awvalid: bool, wvalid: bool, cntr: nat, addr: nat)
      requires Valid()
      ensures var next := State().Next(p, true, awready, wready, 0, false);
        awvalid == next.awvalid && wvalid == next.wvalid && cntr == next.cntr && addr == next.addr
    {
      var start := |fifo0.items| > 15 && !wvalidReg;
      var stageReady := !buf1.valid || wready;
      awvalid, wvalid, cntr, addr := awvalidReg, wvalidReg, cntrReg, addrReg;
      if start {
        awvalid, wvalid := true, true;
      }
      if (start || awvalidReg) && (!buf0.valid || awready) {
        awvalid := false;
        addr := NextBlock(p, addrReg);
      }
      if (start || wvalidReg) && stageReady {
        cntr := (cntrReg + 1) % 16;
      }
      if stageReady && cntrReg == 15 {
        wvalid := false;
      }
    }

    method Clock(resetn: bool, awready: bool, wready: bool, data: Word, tvalid: bool)
      requires Valid()
      modifies this, buf0, buf1, fifo0
      ensures State() == old(State()).Next(p, resetn, awready, wready, data, tvalid)
    {
      var awvalid, wvalid, cntr, addr := Control(awready, wready);
      ClockStages(resetn, awready, wready, data, tvalid);
      if !resetn {
        awvalidReg, wvalidReg, cntrReg, addrReg := false, false, 0, 0;
      } else {
        awvalidReg, wvalidReg, cntrReg, addrReg := awvalid, wvalid, cntr, addr;
      }
    }
  }

  // ---------------------------------------------------------------- runs

  /** One cycle of the outside world: reset, the memory's two channels are ready, the stream
      offers a word. */
  datatype In = In(resetn: bool, awready: bool, wready: bool, data: Word, tvalid: bool)

  /** The core with what passed since the last reset: stream words accepted, beats that entered
      the W stage and left on the W channel, addresses that entered the AW stage and left on the
      AW channel, bursts started, starts whose request fell on one still in int_awvalid_reg, and
      starts that found two earlier addresses not yet taken by the memory. */
  datatype State = State(p: Params, regs: Regs, accepted: seq<Word>,
                         beats: seq<(bool, Word)>, written: seq<(bool, Word)>,
                         issued: seq<nat>, taken: seq<nat>,
                         started: nat, merged: nat, late: nat)

  /** The addresses asked for and not yet taken by the memory. */
  function Waiting(s: State): int {
    |s.issued| + (if s.regs.awvalid then 1 else 0) - |s.taken|
  }

  ghost function Step(s: State, i: In): State {
    if !s.p.Valid() then s
    else if !i.resetn then
      State(s.p, s.regs.Next(s.p, false, i.awready, i.wready, i.data, i.tvalid), [], [], [], [], [], 0, 0, 0)
    else
      var r := s.regs;
      State(s.p, r.Next(s.p, true, i.awready, i.wready, i.data, i.tvalid),
            if i.tvalid && |r.fifo| < s.p.depth then s.accepted + [i.data] else s.accepted,
            if r.Read(i.wready) then s.beats + [r.Beat()] else s.beats,
            if r.w.valid && i.wready then s.written + [r.w.data] else s.written,
            if r.AwTaken(i.awready) then s.issued + [s.p.Address(r.addr)] else s.issued,
            if r.aw.valid && i.awready then s.taken + [r.aw.data] else s.taken,
            if r.Start() then s.started + 1 else s.started,
            if r.Start() && r.awvalid then s.merged + 1 else s.merged,
            if r.Start() && Waiting(s) >= 2 then s.late + 1 else s.late)
  }

  ghost function Init(p: Params): State {
    State(p, Regs(false, false, 0, 0, OutputRegs(false, 0), OutputRegs(false, (false, 0)), []),
          [], [], [], [], [], 0, 0, 0)
  }

  /** The words as bursts of 16, the 16th beat of each flagged. */
  function Framed(words: seq<Word>): seq<(bool, Word)> {
    seq(|words|, i requires 0 <= i < |words| => (i % 16 == 15, words[i]))
  }

  ghost predicate Addressing(s: State)
    requires s.p.Valid()
  {
    && s.issued == Blocks(s.p, |s.issued|)
    && s.regs.addr == |s.issued| % (s.p.cfg + 1)
    && s.issued == s.taken + s.regs.aw.Held()
  }

  /** A started burst finds all its remaining beats in the FIFO. */
  ghost predicate Bursts(s: State) {
    var owed := 16 * s.started - |s.beats|;
    && s.regs.cntr == |s.beats| % 16
    && (if s.regs.wvalid then 0 < owed <= 16 && owed <= |s.regs.fifo| else owed == 0)
  }

  /** Every started burst has its address issued, pending in int_awvalid_reg, or lost. */
  ghost predicate Requests(s: State) {
    && |s.issued| + (if s.regs.awvalid then 1 else 0) + s.merged == s.started
    && (s.regs.awvalid ==> s.regs.aw.valid)
    && s.merged == s.late
  }

  /** The words that are beats are framed, the others are in the FIFO. */
  ghost predicate Words(accepted: seq<Word>, beats: seq<(bool, Word)>, fifo: seq<Word>) {
    && |beats| <= |accepted|
    && beats == Framed(accepted[..|beats|])
    && fifo == accepted[|beats|..]
  }

  ghost predicate Inv(s: State) {
    && s.p.Valid()
    && Addressing(s)
    && Bursts(s)
    && Requests(s)
    && s.beats == s.written + s.regs.w.Held()
    && Words(s.accepted, s.beats, s.regs.fifo)
  }

  lemma AddressingKept(s: State, i: In)
    requires s.p.Valid() && Addressing(s)
    ensures Addressing(Step(s, i))
  {
    BlocksSucc(s.p, s.regs.addr, |s.issued|);
    if i.resetn {
      OutputConserves(s.regs.aw, s.p.Address(s.regs.addr), s.regs.AwValid(), i.awready, s.issued, s.taken);
    }
  }

  /** The counter's view of the beats still owed to the started bursts. */
  lemma Owed(started: nat, beats: nat)
    ensures (beats % 16 + 1) % 16 == (beats + 1) % 16
    ensures 0 < 16 * started - beats <= 16 ==> (beats % 16 == 15 <==> 16 * started - beats == 1)
  {
    var q, r := beats / 16, beats % 16;
    assert beats == 16 * q + r;
    if 0 < 16 * started - beats <= 16 {
      assert started == q + 1;
    }
  }

  lemma BurstsKept(s: State, i: In)
    requires s.p.Valid() && Bursts(s)
    ensures Bursts(Step(s, i))
    ensures i.resetn && s.regs.Read(i.wready) ==> s.regs.fifo != []
  {
    Owed(s.started, |s.beats|);
    if s.regs.Start() {
      Owed(s.started + 1, |s.beats|);
    }
  }

  lemma RequestsKept(s: State, i: In)
    requires s.p.Valid() && Addressing(s) && Requests(s)
    ensures Requests(Step(s, i))
  {
  }

  lemma FramedSucc(words: seq<Word>, n: nat)
    requires n < |words|
    ensures Framed(words[..n + 1]) == Framed(words[..n]) + [(n % 16 == 15, words[n])]
  {
  }

  /** The queue of accepted words that are not beats yet moves with the FIFO. */
  lemma WordsMove(accepted: seq<Word>, beats: seq<(bool, Word)>, fifo: seq<Word>, depth: nat,
                  push: bool, item: Word, pop: bool)
    requires Words(accepted, beats, fifo) && (pop ==> fifo != [])
    ensures
      Words(if push && |fifo| < depth then accepted + [item] else accepted,
            if pop then beats + [(|beats| % 16 == 15, fifo[0])] else beats,
            FifoNext(fifo, depth, push, item, pop))
  {
    var n, more := |beats|, if push && |fifo| < depth then accepted + [item] else accepted;
    assert more[..n] == accepted[..n];
    if pop {
      assert fifo[0] == more[n];
      FramedSucc(more, n);
    }
  }

  lemma WordsKept(s: State, i: In)
    requires Inv(s)
    ensures var t := Step(s, i); Words(t.accepted, t.beats, t.regs.fifo)
  {
    BurstsKept(s, i);
    if i.resetn {
      WordsMove(s.accepted, s.beats, s.regs.fifo, s.p.depth, i.tvalid, i.data, s.regs.Read(i.wready));
    }
  }

  lemma StepKeeps(s: State, i: In)
    requires Inv(s)
    ensures Inv(Step(s, i))
  {
    AddressingKept(s, i);
    BurstsKept(s, i);
    RequestsKept(s, i);
    WordsKept(s, i);
    if i.resetn {
      OutputConserves(s.regs.w, s.regs.Beat(), s.regs.WValid(), i.wready, s.beats, s.written);
    }
  }

  lemma {:induction false} Reachable(p: Params, ins: seq<In>)
    requires p.Valid()
    ensures var s := Runs.Run(Step, Init(p), ins); Inv(s) && s.p == p
  {
    if ins != [] {
      Reachable(p, ins[..|ins| - 1]);
      StepKeeps(Runs.Run(Step, Init(p), ins[..|ins| - 1]), ins[|ins| - 1]);
    }
  }

  /** In every reachable state: the FIFO is never read while empty, and what left on the W
      channel is the accepted stream in order with wlast on exactly every 16th beat. */
  lemma WritesTheStreamInBursts(p: Params, ins: seq<In>)
    requires p.Valid()
    ensures
      var s := Runs.Run(Step, Init(p), ins);
      && (forall wready :: s.regs.Read(wready) ==> s.regs.fifo != [])
      && |s.written| <= |s.accepted|
      && s.written == Framed(s.accepted[..|s.written|])
      && |s.regs.fifo| + |s.beats| == |s.accepted|
      && (if s.regs.wvalid then 16 * s.started - 16 <= |s.beats| < 16 * s.started else |s.beats| == 16 * s.started)
  {
    Reachable(p, ins);
    var s := Runs.Run(Step, Init(p), ins);
    assert s.written == s.beats[..|s.written|];
  }

  /** Which bursts get an address: of those started, all but the ones that started while two
      earlier addresses were still waiting for the AW channel, and those get none - their request
      falls on the one pending in int_awvalid_reg. So every burst has its address exactly when
      none started like that. The addresses themselves wrap around the region in order. */
  lemma AddressPerBurst(p: Params, ins: seq<In>)
    requires p.Valid()
    ensures
      var s := Runs.Run(Step, Init(p), ins);
      var pending := if s.regs.awvalid then 1 else 0;
      && Walks(p, s.issued)
      && s.taken <= s.issued
      && |s.issued| + pending + s.late == s.started
      && s.merged == s.late
      && (|s.issued| + pending == s.started <==> s.late == 0)
  {
    Reachable(p, ins);
    BlocksWalk(p, |Runs.Run(Step, Init(p), ins).issued|);
  }

  /** The state after n cycles of a full stream, a memory that takes every beat, and an
      address channel that never moves. */
  ghost predicate Stalled(s: State, n: nat) {
    && s.p.Valid() && s.p.depth >= 32
    && |s.regs.fifo| == (if n < 16 then n else 16)
    && s.regs.cntr == (if n < 16 then 0 else n % 16)
    && (s.regs.wvalid <==> n > 16 && n % 16 != 0)
    && s.started == (if n == 0 then 0 else (n - 1) / 16)
    && (s.regs.aw.valid <==> n > 16)
    && (s.regs.awvalid <==> n > 32)
    && s.merged == (if n <= 48 then 0 else (n - 1) / 16 - 2)
  }

  lemma StalledStep(s: State, n: nat)
    requires Stalled(s, n)
    ensures Stalled(Step(s, In(true, false, true, 0, true)), n + 1)
  {
  }

  /** The merge does happen: with the address channel stalled, three bursts are started by the
      49th cycle with two addresses between them, and every further burst loses one more. */
  lemma {:induction false} StalledAddressMerges(p: Params, ins: seq<In>)
    requires p.Valid() && p.depth >= 32
    requires forall k :: 0 <= k < |ins| ==> ins[k] == In(true, false, true, 0, true)
    ensures
      var s := Runs.Run(Step, Init(p), ins);
      && Stalled(s, |ins|)
      && (|ins| > 48 ==> s.started >= 3 && s.merged == s.started - 2)
  {
    if ins != [] {
      var front := ins[..|ins| - 1];
      StalledAddressMerges(p, front);
      StalledStep(Runs.Run(Step, Init(p), front), |front|);
    }
  }
}
