/** cores/axis_ram_reader.v: reads a region of memory over and over in 16-beat bursts into a
    FIFO that feeds a stream. */
module RamReader {
  import opened Handshake
  import opened RamRegion
  import Runs

  type Word = bv64

  datatype Regs = Regs(arvalid: bool, rvalid: bool, addr: nat, ar: OutputRegs<nat>, fifo: seq<Word>) {

    /** int_valid_wire: there is room for a whole burst and none is outstanding. */
    predicate Start(p: Params) { |fifo| < p.depth - 15 && !rvalid }

    predicate ArValid(p: Params) { Start(p) || arvalid }

    predicate ArTaken(p: Params, arready: bool) { ArValid(p) && ar.InReady(arready) }

    /** `beat`, `last` and `data` are m_axi_rvalid, m_axi_rlast and m_axi_rdata. */
    function Next(p: Params, resetn: bool, arready: bool, beat: bool, last: bool, data: Word, tready: bool): Regs
      requires p.Valid()
    {
      var ar' := ar.Next(resetn, p.Address(addr), ArValid(p), arready);
      if !resetn then Regs(false, false, 0, ar', [])
      else
        Regs(
          !ArTaken(p, arready) && ArValid(p),
          !last && (Start(p) || rvalid),
          if !ArTaken(p, arready) then addr else NextBlock(p, addr),
          ar',
          FifoNext(fifo, p.depth, beat, data, tready))
    }
  }

  // ------------------------------------------------------------------ the class

  class AxisRamReader {
    const p: Params
    var arvalidReg: bool
    var rvalidReg: bool
    var addrReg: nat
    const fifo0: Fifo<Word>
    const buf0: OutputBuffer<nat>

    function State(): Regs
      reads this, buf0, fifo0
    {
      Regs(arvalidReg, rvalidReg, addrReg, buf0.Regs(), fifo0.items)
    }

    constructor (p: Params)
      ensures this.p == p && fifo0.depth == p.depth
      ensures State() == Regs(false, false, 0, OutputRegs(false, 0), [])
    {
      this.p := p;
      arvalidReg, rvalidReg, addrReg := false, false, 0;
      fifo0 := new Fifo<Word>(p.depth);
      buf0 := new OutputBuffer<nat>(0);
    }

    method Clock(resetn: bool, arready: bool, beat: bool, last: bool, data: Word, tready: bool)
      requires p.Valid() && fifo0.depth == p.depth
      modifies this, buf0, fifo0
      ensures State() == old(State()).Next(p, resetn, arready, beat, last, data, tready)
    {
      var start := |fifo0.items| < p.depth - 15 && !rvalidReg;
      var arvalid := start || arvalidReg;
      var taken := arvalid && (!buf0.valid || arready);
      var address := p.Address(addrReg);
      buf0.Clock(resetn, address, arvalid, arready);
      fifo0.Clock(!resetn, beat, data, tready);
      if !resetn {
        arvalidReg, rvalidReg, addrReg := false, false, 0;
      } else {
        if start {
          arvalidReg, rvalidReg := true, true;
        }
        if taken {
          arvalidReg := false;
          addrReg := NextBlock(p, addrReg);
        }
        if last {
          rvalidReg := false;
        }
      }
    }
  }

  // ---------------------------------------------------------------- runs

  /** Word k of the block at an address. */
  type Memory = (nat, nat) -> Word

  /** One cycle of the outside world: reset, the memory's address channel is ready, the memory
      would like to return a beat, what it holds now, and the word if that beat belongs to a
      burst from before the last reset; the stream consumer is ready. */
  datatype In = In(resetn: bool, arready: bool, beat: bool, mem: Memory, stale: Word, tready: bool)

  /** The core with a memory that knows nothing of its resets and answers every request it took
      with the 16 words of that block, in order. Since the last reset: what was issued and taken
      on the address channel, the beats returned for it and what the memory held when it
      returned them, and the words delivered to the stream. The memory still owes `stale` beats
      of earlier requests; `mixed` are those of them that have come since. */
  datatype State = State(p: Params, regs: Regs, issued: seq<nat>, taken: seq<nat>,
                         beats: seq<Word>, held: seq<Memory>, delivered: seq<Word>, stale: nat, mixed: seq<Word>)

  ghost predicate BeatNow(s: State, i: In) { i.beat && s.stale == 0 && |s.beats| / 16 < |s.taken| }

  ghost predicate StaleNow(s: State, i: In) { i.beat && s.stale > 0 }

  /** The beats the memory owes. */
  ghost function Owed(s: State): nat {
    s.stale + if |s.beats| < 16 * |s.taken| then 16 * |s.taken| - |s.beats| else 0
  }

  ghost predicate LastNow(s: State, i: In) { BeatNow(s, i) && |s.beats| % 16 == 15 }

  ghost function Data(s: State, i: In): Word {
    if |s.beats| / 16 < |s.taken| then i.mem(s.taken[|s.beats| / 16], |s.beats| % 16) else 0
  }

  /** It may take a request or return a beat in the very cycle of the reset, too. */
  ghost function OwedNext(s: State, i: In): nat {
    var owed := Owed(s) + if s.regs.ar.valid && i.arready then 16 else 0;
    if i.beat && Owed(s) > 0 then owed - 1 else owed
  }

  ghost function Step(s: State, i: In): State {
    var r := s.regs;
    if !s.p.Valid() then s
    else if !i.resetn then
      State(s.p, r.Next(s.p, false, i.arready, false, false, 0, i.tready), [], [], [], [], [],
            OwedNext(s, i), [])
    else
      State(s.p,
            if StaleNow(s, i) then r.Next(s.p, true, i.arready, true, s.stale == 1, i.stale, i.tready)
            else r.Next(s.p, true, i.arready, BeatNow(s, i), LastNow(s, i), Data(s, i), i.tready),
            if r.ArTaken(s.p, i.arready) then s.issued + [s.p.Address(r.addr)] else s.issued,
            if r.ar.valid && i.arready then s.taken + [r.ar.data] else s.taken,
            if BeatNow(s, i) then s.beats + [Data(s, i)] else s.beats,
            if BeatNow(s, i) then s.held + [i.mem] else s.held,
            if i.tready && r.fifo != [] then s.delivered + [r.fifo[0]] else s.delivered,
            if StaleNow(s, i) then s.stale - 1 else s.stale,
            if StaleNow(s, i) then s.mixed + [i.stale] else s.mixed)
  }

  ghost function Init(p: Params): State {
    State(p, Regs(false, false, 0, OutputRegs(false, 0), []), [], [], [], [], [], 0, [])
  }

  /** The n first words of the bursts issued, each as the memory held it. */
  ghost function Stream(issued: seq<nat>, held: seq<Memory>, n: nat): seq<Word>
    requires n <= |held| && n <= 16 * |issued|
  {
    seq(n, i requires 0 <= i < n => held[i](issued[i / 16], i % 16))
  }

  ghost predicate Addressing(s: State)
    requires s.p.Valid()
  {
    && s.issued == Blocks(s.p, |s.issued|)
    && s.regs.addr == |s.issued| % (s.p.cfg + 1)
    && s.issued == s.taken + s.regs.ar.Held()
  }

  /** At most one burst is outstanding, and the FIFO has room for all of its beats. */
  ghost predicate Room(s: State) {
    var n := 16 * |s.issued|;
    && !s.regs.arvalid
    && (if s.regs.rvalid then s.issued != [] && n - 16 <= |s.beats| < n else |s.beats| == n && !s.regs.ar.valid)
    && |s.regs.fifo| + n - |s.beats| <= s.p.depth
  }

  ghost predicate Streaming(s: State) {
    |s.held| == |s.beats| <= 16 * |s.issued| && s.beats == Stream(s.issued, s.held, |s.beats|)
  }

  ghost predicate Pure(s: State) {
    && s.p.Valid() && s.p.depth >= 16
    && Addressing(s)
    && Room(s)
    && s.beats == s.delivered + s.regs.fifo
    && Streaming(s)
    && (s.stale > 0 ==> s.beats == [])
  }

  lemma AddressingKept(s: State, i: In)
    requires s.p.Valid() && Addressing(s) && !StaleNow(s, i)
    ensures Addressing(Step(s, i))
  {
    BlocksSucc(s.p, s.regs.addr, |s.issued|);
    if i.resetn {
      OutputConserves(s.regs.ar, s.p.Address(s.regs.addr), s.regs.ArValid(s.p), i.arready, s.issued, s.taken);
    }
  }

  /** Only an outstanding burst returns beats, and its 16th is the last one owed. */
  lemma RoomKept(s: State, i: In)
    requires s.p.Valid() && s.p.depth >= 16 && Addressing(s) && Room(s) && !StaleNow(s, i)
    ensures Room(Step(s, i))
    ensures BeatNow(s, i) ==> s.regs.rvalid && |s.regs.fifo| < s.p.depth
  {
  }

  lemma StreamSucc(issued: seq<nat>, held: seq<Memory>, mem: Memory)
    requires |held| < 16 * |issued|
    ensures var n := |held|;
      Stream(issued, held + [mem], n + 1) == Stream(issued, held, n) + [mem(issued[n / 16], n % 16)]
  {
  }

  lemma StreamExtends(issued: seq<nat>, more: seq<nat>, held: seq<Memory>, n: nat)
    requires n <= |held| && n <= 16 * |issued| && issued <= more
    ensures Stream(more, held, n) == Stream(issued, held, n)
  {
  }

  /** The memory answers the k-th request with the words at the k-th address. */
  lemma StreamingKept(s: State, i: In)
    requires s.p.Valid() && Addressing(s) && Streaming(s) && !StaleNow(s, i)
    ensures Streaming(Step(s, i))
  {
    var n := |s.beats|;
    if i.resetn {
      if BeatNow(s, i) {
        assert s.taken[n / 16] == s.issued[n / 16];
        StreamSucc(s.issued, s.held, i.mem);
      }
      var t := Step(s, i);
      StreamExtends(s.issued, t.issued, t.held, |t.beats|);
    }
  }

  lemma FifoKept(s: State, i: In)
    requires s.p.Valid() && s.beats == s.delivered + s.regs.fifo && !StaleNow(s, i)
    requires BeatNow(s, i) ==> |s.regs.fifo| < s.p.depth
    ensures var t := Step(s, i); t.beats == t.delivered + t.regs.fifo
  {
    if i.resetn {
      FifoConserves(s.regs.fifo, s.p.depth, BeatNow(s, i), Data(s, i), i.tready, s.beats, s.delivered);
    }
  }

  /** With every reset the core starts over, whatever was mixed up before. */
  lemma ResetCleans(s: State, i: In)
    requires s.p.Valid() && s.p.depth >= 16 && !i.resetn
    ensures Pure(Step(s, i)) && Step(s, i).mixed == []
  {
  }

  /** Stale beats come before any other, so one of them is at the head of the stream. */
  ghost predicate Spoiled(s: State) {
    s.mixed != [] && s.delivered + s.regs.fifo != [] && (s.delivered + s.regs.fifo)[0] == s.mixed[0]
  }

  lemma FirstStays(fifo: seq<Word>, depth: nat, push: bool, item: Word, pop: bool, delivered: seq<Word>)
    requires delivered + fifo != []
    ensures
      var out := if pop && fifo != [] then delivered + [fifo[0]] else delivered;
      var after := out + FifoNext(fifo, depth, push, item, pop);
      after != [] && after[0] == (delivered + fifo)[0]
  {
  }

  lemma SpoiledStays(s: State, i: In)
    requires s.p.Valid() && i.resetn && Spoiled(s)
    ensures Spoiled(Step(s, i))
  {
    if StaleNow(s, i) {
      FirstStays(s.regs.fifo, s.p.depth, true, i.stale, i.tready, s.delivered);
    } else {
      FirstStays(s.regs.fifo, s.p.depth, BeatNow(s, i), Data(s, i), i.tready, s.delivered);
    }
  }

  lemma FirstSpoils(s: State, i: In)
    requires Pure(s) && s.mixed == [] && i.resetn && StaleNow(s, i)
    ensures Spoiled(Step(s, i))
  {
    assert s.delivered == [] && s.regs.fifo == [];
  }

  lemma StepKeeps(s: State, i: In)
    requires s.p.Valid() && s.p.depth >= 16 && (if s.mixed == [] then Pure(s) else Spoiled(s))
    ensures var t := Step(s, i); t.p == s.p && (if t.mixed == [] then Pure(t) else Spoiled(t))
  {
    if !i.resetn {
      ResetCleans(s, i);
    } else if s.mixed != [] {
      SpoiledStays(s, i);
    } else if StaleNow(s, i) {
      FirstSpoils(s, i);
    } else {
      AddressingKept(s, i);
      RoomKept(s, i);
      FifoKept(s, i);
      StreamingKept(s, i);
    }
  }

  ghost function After(p: Params, ins: seq<In>): State { Runs.Run(Step, Init(p), ins) }

  lemma {:induction false} Reachable(p: Params, ins: seq<In>)
    requires p.Valid() && p.depth >= 16
    ensures var s := After(p, ins); s.p == p && (if s.mixed == [] then Pure(s) else Spoiled(s))
  {
    if ins != [] {
      Reachable(p, ins[..|ins| - 1]);
      StepKeeps(After(p, ins[..|ins| - 1]), ins[|ins| - 1]);
    }
  }

  /** Since the last reset no beat of a burst from before it has come. */
  ghost predicate ResetsWait(p: Params, ins: seq<In>) {
    ins == []
    || (var front, i := ins[..|ins| - 1], ins[|ins| - 1];
        !i.resetn || (ResetsWait(p, front) && !StaleNow(After(p, front), i)))
  }

  lemma {:induction false} MixedMeans(p: Params, ins: seq<In>)
    requires p.Valid()
    ensures After(p, ins).p == p && (After(p, ins).mixed == [] <==> ResetsWait(p, ins))
  {
    if ins != [] {
      MixedMeans(p, ins[..|ins| - 1]);
    }
  }

  /** Although m_axi_rready is tied high the FIFO never overflows: in every reachable state a
      returned beat finds a free place. The stream is the region's words, block after block
      and over again, each as the memory held it when it returned it, and the bursts are
      requested at the wrapping block addresses, the next one as soon as none is outstanding
      and the FIFO has room. All this unless the core was last reset in the middle of a burst
      and for so short a time that the memory has gone on with it afterwards: then the first
      word of the stream is one of that burst. */
  lemma NeverOverflows(p: Params, ins: seq<In>)
    requires p.Valid() && p.depth >= 16
    ensures
      var s := After(p, ins);
      if !ResetsWait(p, ins) then Spoiled(s)
      else
        && (forall i :: BeatNow(s, i) ==> |s.regs.fifo| < p.depth)
        && |s.regs.fifo| <= p.depth
        && |s.delivered| <= |s.held| == |s.beats| && |s.delivered| <= 16 * |s.issued|
        && s.delivered == Stream(s.issued, s.held, |s.delivered|) && Walks(p, s.issued)
        && 16 * |s.issued| - 16 <= |s.beats| <= 16 * |s.issued|
        && (|s.beats| == 16 * |s.issued| && |s.regs.fifo| < p.depth - 15 ==> s.regs.ArTaken(p, false))
  {
    Reachable(p, ins);
    MixedMeans(p, ins);
    var s := After(p, ins);
    BlocksWalk(p, |s.issued|);
    if ResetsWait(p, ins) {
      forall i | BeatNow(s, i) ensures |s.regs.fifo| < p.depth {
        RoomKept(s, i);
      }
      assert s.delivered == Stream(s.issued, s.held, |s.beats|)[..|s.delivered|];
    }
  }

  lemma AfterOneMore(p: Params, ins: seq<In>, i: In)
    ensures After(p, ins + [i]) == Step(After(p, ins), i)
  {
    assert (ins + [i])[..|ins|] == ins;
  }

  lemma Cut(s0: State, go: In, stale: Word)
    requires s0 == Init(s0.p) && s0.p.Valid() && s0.p.depth >= 16
    requires go.resetn && go.arready && !go.beat && go.tready && go.stale == stale
    ensures
      var s2 := Step(Step(s0, go), go);
      var s5 := Step(Step(Step(s2, go.(resetn := false)), go.(beat := true)), go);
      s5.delivered == [stale] && s5.beats == []
  {
    var s2 := Step(Step(s0, go), go);
    assert |s2.taken| == 1 && s2.beats == [] && s2.stale == 0;
    var s3 := Step(s2, go.(resetn := false));
    assert s3.stale == 16 && s3.regs.fifo == [];
    var s4 := Step(s3, go.(beat := true));
    assert s4.regs.fifo == [stale] && s4.delivered == [] && s4.beats == [] && s4.taken == [];
  }

  /** And then it fails: after a reset of one cycle a word of the old burst is delivered first,
      though no beat has been returned for any request made since. */
  lemma StaleWordIsDelivered(p: Params, mem: Memory, stale: Word)
    requires p.Valid() && p.depth >= 16
    ensures
      var go := In(true, true, false, mem, stale, true);
      var s := After(p, [go] + [go] + [go.(resetn := false)] + [go.(beat := true)] + [go]);
      s.delivered == [stale] && s.beats == []
  {
    var go := In(true, true, false, mem, stale, true);
    AfterOneMore(p, [], go);
    assert [] + [go] == [go];
    AfterOneMore(p, [go], go);
    AfterOneMore(p, [go] + [go], go.(resetn := false));
    AfterOneMore(p, [go] + [go] + [go.(resetn := false)], go.(beat := true));
    AfterOneMore(p, [go] + [go] + [go.(resetn := false)] + [go.(beat := true)], go);
    Cut(Init(p), go, stale);
  }
}
