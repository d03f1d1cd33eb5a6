/** cores/axi_hub.v as a whole: both halves and the m_axis outputs on one clock, the read
    multiplexer seeing the config registers, the BRAM ports and the outputs the write beats. */
module AxiHub {
  import opened AxiMap
  import opened Handshake
  import opened HubRams
  import opened Lists
  import HubPorts
  import HubRead
  import HubWrite
  import Runs

  /** What the outside world presents in one cycle. */
  datatype In = In(resetn: bool,
                   awValid: bool, aw: HubWrite.Aw, wValid: bool, beat: HubWrite.Beat, bReady: bool,
                   arValid: bool, ar: HubRead.Ar, rReady: bool,
                   sts: seq<Word>, svalid: Bits, sdata: Words, rw: Word, mready: Bits)

  function WriteIn(i: In): HubWrite.In {
    HubWrite.In(i.resetn, i.awValid, i.aw, i.wValid, i.beat, i.bReady)
  }

  /** The wires from the write half to the read half. */
  function ReadIn(w: HubWrite.Regs, i: In): HubRead.In {
    var addr, beat := w.aw.OutData().addr, w.w.OutData();
    HubRead.In(i.resetn, i.arValid, i.ar, i.rReady, w.cfg, i.sts, i.svalid, i.sdata,
               w.We(i.bReady), Port(addr), Offset(addr, w.cntr), beat.strb, beat.data, i.rw)
  }

  /** int_mvalid_wire: which output the beat written in this cycle goes to. */
  function Sel(w: HubWrite.Regs, bReady: bool): Bits {
    seq(HUB_SIZE, j requires 0 <= j < HUB_SIZE => w.We(bReady) && Port(w.aw.OutData().addr) == j + 2)
  }

  // ------------------------------------------------------------------ the class

  class Hub {
    const writing: HubWrite.WriteHalf
    const reading: HubRead.ReadHalf
    const outputs: HubPorts.Outputs

    ghost predicate Valid() {
      && writing.Valid() && reading.Valid() && outputs.Valid()
      && writing.Stages() !! reading.Stages()
      && outputs.stages !! writing.Stages() && outputs.stages !! reading.Stages()
      && writing !in outputs.stages && reading !in outputs.stages
    }

    constructor (cfgSize: nat, aw: HubWrite.Aw, beat: HubWrite.Beat, ar: HubRead.Ar, undefined: Word)
      ensures Valid()
      ensures writing.State() == HubWrite.Reset(cfgSize, aw, beat)
      ensures reading.State() == HubRead.Reset(ar)
      ensures forall j :: 0 <= j < HUB_SIZE ==> outputs.mbufs[j].Regs() == InoutReset(undefined)
    {
      writing := new HubWrite.WriteHalf(cfgSize, aw, beat);
      reading := new HubRead.ReadHalf(ar);
      outputs := new HubPorts.Outputs(undefined);
    }

    method ClockHalves(i: In)
      requires Valid()
      modifies writing, writing.Stages(), reading, reading.Stages()
      ensures writing.State() == old(writing.State()).Next(WriteIn(i))
      ensures reading.State() == old(reading.State()).Next(old(ReadIn(writing.State(), i)))
    {
      var wires := ReadIn(writing.State(), i);
      ghost var r := reading.State();
      writing.Clock(WriteIn(i));
      assert reading.State() == r;
      ghost var w := writing.State();
      reading.Clock(wires);
      assert writing.State() == w;
    }

    /** One rising edge: all parts are clocked with the wires as they were before it. */
    method Clock(i: In)
      requires Valid()
      modifies writing, writing.Stages(), reading, reading.Stages(), outputs.stages
      ensures writing.State() == old(writing.State()).Next(WriteIn(i))
      ensures reading.State() == old(reading.State()).Next(old(ReadIn(writing.State(), i)))
      ensures forall j :: 0 <= j < HUB_SIZE ==>
        outputs.mbufs[j].Regs()
        == old(outputs.mbufs[j].Regs()).Next(i.resetn, old(writing.State().w.OutData().data),
                                             old(Sel(writing.State(), i.bReady))[j], i.mready[j])
    {
      var w := writing.State();
      var data, sel := w.w.OutData().data, Sel(w, i.bReady);
      ClockHalves(i);
      outputs.Clock(i.resetn, data, sel, i.mready);
    }
  }

  // ---------------------------------------------------------------- runs

  /** Both halves and the outputs; everything that went to the ports since the start, resets or
      not, and how much of it up to the last reset; and for each read beat served since then how
      much of it came before. */
  datatype State = State(write: HubWrite.State, read: HubRead.State, outputs: seq<HubPorts.Output>,
                         log: seq<Store>, past: nat, seen: seq<nat>)

  /** A beat that is written in the cycle of a reset is stored too. */
  function Log(log: seq<Store>, w: HubWrite.Regs, i: In): seq<Store> {
    if w.We(i.bReady) then log + [w.Now()] else log
  }

  ghost function Step(s: State, i: In): State {
    if |s.outputs| != HUB_SIZE then s
    else
      var w := s.write.regs;
      State(HubWrite.Step(s.write, WriteIn(i)), HubRead.Step(s.read, ReadIn(w, i)),
            seq(HUB_SIZE, j requires 0 <= j < HUB_SIZE =>
              HubPorts.OutputStep(s.outputs[j], i.resetn, w.w.OutData().data, Sel(w, i.bReady)[j], i.mready[j])),
            Log(s.log, w, i),
            if i.resetn then s.past else |Log(s.log, w, i)|,
            if !i.resetn then [] else if s.read.regs.Re(i.rReady) then s.seen + [|s.log|] else s.seen)
  }

  /** Config words, undefined register contents and RAMs at the start. */
  datatype Start = Start(size: nat, aw: HubWrite.Aw, beat: HubWrite.Beat, ar: HubRead.Ar, word: Word,
                         rams: HubRead.Rams)

  ghost function Init(z: Start): State {
    State(HubWrite.Init(z.size, z.aw, z.beat), HubRead.Init(z.rams, z.ar),
          seq(HUB_SIZE, _ => HubPorts.Output(InoutReset(z.word), [], [])), [], 0, [])
  }

  ghost function After(z: Start, ins: seq<In>): State { Runs.Run(Step, Init(z), ins) }

  lemma AfterOneMore(z: Start, ins: seq<In>, i: In)
    ensures After(z, ins + [i]) == Step(After(z, ins), i)
  {
    assert (ins + [i])[..|ins|] == ins;
  }

  /** An output is written just the words that go to its port. */
  ghost predicate Written(stores: seq<Store>, outputs: seq<HubPorts.Output>) {
    && |outputs| == HUB_SIZE
    && forall j :: 0 <= j < HUB_SIZE ==>
         HubPorts.Inv(outputs[j]) && outputs[j].written == HubWrite.WordsTo(j + 2, stores)
  }

  ghost predicate Inv(s: State) {
    && HubWrite.Inv(s.write) && HubRead.Inv(s.read)
    && Written(HubWrite.Stores(s.write.awAccepted, s.write.taken), s.outputs)
  }

  /** The stores after a cycle. */
  function More(stores: seq<Store>, w: HubWrite.Regs, i: In): seq<Store> {
    if !i.resetn then [] else if w.We(i.bReady) then stores + [w.Now()] else stores
  }

  lemma OutputWritten(o: HubPorts.Output, stores: seq<Store>, w: HubWrite.Regs, i: In, j: nat)
    requires j < HUB_SIZE && HubPorts.Inv(o) && o.written == HubWrite.WordsTo(j + 2, stores)
    ensures
      var o' := HubPorts.OutputStep(o, i.resetn, w.w.OutData().data, Sel(w, i.bReady)[j], i.mready[j]);
      HubPorts.Inv(o') && o'.written == HubWrite.WordsTo(j + 2, More(stores, w, i))
  {
    HubPorts.OutputKept(o, i.resetn, w.w.OutData().data, Sel(w, i.bReady)[j], i.mready[j]);
    HubWrite.WordsSnoc(j + 2, stores, w.Now());
  }

  lemma WrittenKept(s: State, i: In)
    requires HubWrite.Inv(s.write) && Written(HubWrite.Stores(s.write.awAccepted, s.write.taken), s.outputs)
    ensures
      var t := Step(s, i);
      && HubWrite.Addressed(t.write.awAccepted, t.write.taken)
      && Written(HubWrite.Stores(t.write.awAccepted, t.write.taken), t.outputs)
  {
    var t, w, stores := Step(s, i), s.write.regs, HubWrite.Stores(s.write.awAccepted, s.write.taken);
    if i.resetn {
      HubWrite.StoresKept(s.write, WriteIn(i));
    }
    assert HubWrite.Stores(t.write.awAccepted, t.write.taken) == More(stores, w, i);
    forall j | 0 <= j < HUB_SIZE
      ensures HubPorts.Inv(t.outputs[j]) && t.outputs[j].written == HubWrite.WordsTo(j + 2, More(stores, w, i))
    {
      OutputWritten(s.outputs[j], stores, w, i, j);
    }
  }

  lemma StepKeeps(s: State, i: In)
    requires Inv(s)
    ensures Inv(Step(s, i))
  {
    HubWrite.StepKeeps(s.write, WriteIn(i));
    HubRead.StepKeeps(s.read, ReadIn(s.write.regs, i));
    WrittenKept(s, i);
  }

  lemma InitInv(z: Start)
    requires z.rams.Fits()
    ensures Inv(Init(z))
  {
    HubWrite.Reachable(z.size, z.aw, z.beat, []);
    HubRead.Reachable(z.rams, z.ar, []);
  }

  lemma {:induction false} Reachable(z: Start, ins: seq<In>)
    requires z.rams.Fits()
    ensures Inv(After(z, ins)) && |After(z, ins).write.regs.cfg| == z.size
  {
    if ins == [] {
      InitInv(z);
    } else {
      Reachable(z, ins[..|ins| - 1]);
      StepKeeps(After(z, ins[..|ins| - 1]), ins[|ins| - 1]);
    }
  }

  /** The machine the runs are about is the one Hub.Clock is proved equal to. */
  lemma StepIsClock(s: State, i: In)
    requires Inv(s)
    ensures
      var t, w := Step(s, i), s.write.regs;
      && t.write.regs == w.Next(WriteIn(i)) && t.read.regs == s.read.regs.Next(ReadIn(w, i))
      && |t.outputs| == |s.outputs| == HUB_SIZE
      && forall j :: 0 <= j < HUB_SIZE ==>
           t.outputs[j].regs
           == s.outputs[j].regs.Next(i.resetn, w.w.OutData().data, Sel(w, i.bReady)[j], i.mready[j])
  {
  }

  /** What the bus and the output channels pass in a cycle. */
  lemma WriteHandshakes(w: HubWrite.State, i: In)
    requires i.resetn
    ensures
      var t := HubWrite.Step(w, WriteIn(i));
      && t.awAccepted == (if i.awValid && w.regs.aw.InReady() then w.awAccepted + [i.aw] else w.awAccepted)
      && t.accepted == (if i.wValid && w.regs.w.InReady() then w.accepted + [i.beat] else w.accepted)
      && t.answered == (if w.regs.b.valid && i.bReady then w.answered + [w.regs.b.data] else w.answered)
  {
  }

  lemma ReadHandshakes(r: HubRead.State, w: HubWrite.Regs, i: In)
    requires HubRead.Inv(r) && i.resetn
    ensures
      var t := HubRead.Step(r, ReadIn(w, i));
      && t.accepted == (if i.arValid && r.regs.ar.InReady() then r.accepted + [i.ar] else r.accepted)
      && |t.replies| == |r.replies| + (if r.regs.r.valid && i.rReady then 1 else 0)
  {
  }

  lemma OutputHandshake(s: State, i: In, j: nat)
    requires Inv(s) && i.resetn && j < HUB_SIZE
    ensures
      var o, t := s.outputs[j], Step(s, i);
      && t.write == HubWrite.Step(s.write, WriteIn(i))
      && t.read == HubRead.Step(s.read, ReadIn(s.write.regs, i))
      && |t.outputs| == HUB_SIZE
      && t.outputs[j].delivered
         == if o.regs.OutValid() && i.mready[j] then o.delivered + [o.regs.OutData()] else o.delivered
  {
  }

  /** The next cycle serves one more read beat, the one the counter is at, and this is it. */
  ghost predicate Serves(s: State, i: In) {
    var served := Step(s, i).read.served;
    && served != [] && served[..|served| - 1] == s.read.served
    && served[|served| - 1].ar == s.read.regs.ar.OutData() && served[|served| - 1].k == s.read.regs.cntr
  }

  ghost function Newest(s: State, i: In): HubRead.Served
    requires Serves(s, i)
  {
    var served := Step(s, i).read.served;
    served[|served| - 1]
  }

  lemma ServedInStep(s: State, i: In)
    requires Inv(s)
    ensures
      var t := Step(s, i);
      && t.read.rams == s.read.rams.Next(s.read.regs, ReadIn(s.write.regs, i))
      && t.read.served == if !i.resetn then []
                          else if s.read.regs.Re(i.rReady) then
                            s.read.served + [HubRead.NewBeat(s.read, ReadIn(s.write.regs, i))]
                          else s.read.served
  {
  }

  lemma NewestIs(s: State, i: In)
    requires Inv(s) && i.resetn && s.read.regs.Re(i.rReady)
    ensures Serves(s, i) && Newest(s, i) == HubRead.NewBeat(s.read, ReadIn(s.write.regs, i))
  {
    ServedInStep(s, i);
  }

  lemma ConfigRead(s: State, i: In, size: nat)
    requires Inv(s) && |s.write.regs.cfg| == size
    ensures
      var b := HubRead.NewBeat(s.read, ReadIn(s.write.regs, i));
      var at := Offset(b.ar.addr, b.k);
      Port(b.ar.addr) == 0 && at < size ==>
        LastWritten(b.word, 0, 0, at, HubWrite.InWords(size, HubWrite.Stores(s.write.awAccepted, s.write.taken)))
  {
    var b := HubRead.NewBeat(s.read, ReadIn(s.write.regs, i));
    var at := Offset(b.ar.addr, b.k);
    if Port(b.ar.addr) == 0 && at < size {
      IndexIsOffset(size, b.ar.addr, b.k);
      HubWrite.WordIsLastWritten(HubWrite.Stores(s.write.awAccepted, s.write.taken), s.write.regs.cfg, at);
    }
  }

  /** Reading back through the hub: in every reachable state, a config beat served in the next
      cycle has, byte for byte, what the write beats taken so far have written last to the word
      at its address plus its beat number. */
  lemma ReadsBackWhatWasWritten(z: Start, ins: seq<In>, i: In)
    requires z.rams.Fits() && i.resetn && After(z, ins).read.regs.Re(i.rReady)
    ensures
      var s := After(z, ins);
      && Serves(s, i) && HubWrite.Addressed(s.write.awAccepted, s.write.taken)
      && var b := Newest(s, i);
         var at := Offset(b.ar.addr, b.k);
         Port(b.ar.addr) == 0 && at < z.size ==>
           LastWritten(b.word, 0, 0, at,
                       HubWrite.InWords(z.size, HubWrite.Stores(s.write.awAccepted, s.write.taken)))
  {
    Reachable(z, ins);
    var s := After(z, ins);
    NewestIs(s, i);
    ConfigRead(s, i, z.size);
  }

  /** And a status beat has the status word at its address plus its beat number, as it is in
      this very cycle. */
  lemma ReadsTheStatus(z: Start, ins: seq<In>, i: In)
    requires z.rams.Fits() && i.resetn && After(z, ins).read.regs.Re(i.rReady)
    ensures
      var s := After(z, ins);
      && Serves(s, i)
      && var b := Newest(s, i);
         var at := Offset(b.ar.addr, b.k);
         Port(b.ar.addr) == 1 && at < |i.sts| ==> b.word == i.sts[at]
  {
    Reachable(z, ins);
    var s := After(z, ins);
    NewestIs(s, i);
    IndexIsOffset(|i.sts|, s.read.regs.ar.OutData().addr, s.read.regs.cntr);
  }

  lemma StreamRead(s: HubRead.State, w: HubWrite.Regs, i: In, j: nat)
    requires s.rams.Fits() && j < HUB_SIZE
    ensures
      var b := HubRead.NewBeat(s, ReadIn(w, i));
      Port(b.ar.addr) == j + 2 ==> (b.took <==> i.svalid[j]) && (b.took ==> b.word == i.sdata[j])
  {
  }

  /** And a beat of a stream port takes the word its stream has, if it has one. */
  lemma ReadsTheStream(z: Start, ins: seq<In>, i: In, j: nat)
    requires z.rams.Fits() && i.resetn && After(z, ins).read.regs.Re(i.rReady) && j < HUB_SIZE
    ensures
      var s := After(z, ins);
      && Serves(s, i)
      && var b := Newest(s, i);
         Port(b.ar.addr) == j + 2 ==> (b.took <==> i.svalid[j]) && (b.took ==> b.word == i.sdata[j])
  {
    Reachable(z, ins);
    NewestIs(After(z, ins), i);
    StreamRead(After(z, ins).read, After(z, ins).write.regs, i, j);
  }

  // ------------------------------------------------------------------- the RAMs

  /** What went to the ports since the last reset are just the write beats, each to the address
      of its burst and its place in it. */
  ghost predicate Logged(w: HubWrite.State, log: seq<Store>, past: nat) {
    && past <= |log| && HubWrite.Addressed(w.awAccepted, w.taken)
    && log[past..] == HubWrite.Stores(w.awAccepted, w.taken)
  }

  /** The RAMs hold all of it. */
  ghost predicate Holding(rams: HubRead.Rams, start: HubRead.Rams, log: seq<Store>) {
    && rams.Fits() && start.Fits()
    && forall j, a: Place :: 0 <= j < HUB_SIZE ==> rams.mem[j][a] == Stored(start.mem[j][a], j + 2, a, log)
  }

  /** A beat from a RAM has, byte for byte, what these stores have written last to its address,
      or the contents of the start. */
  ghost predicate ReadBack(b: HubRead.Served, start: HubRead.Rams, stores: seq<Store>)
    requires start.Fits()
  {
    HubRead.RamPort(b.ar.addr) && !b.took ==>
      var port, at := Port(b.ar.addr), Offset(b.ar.addr, b.k);
      LastWritten(b.word, start.mem[port - 2][at], port, at, stores)
  }

  ghost predicate AllReadBack(served: seq<HubRead.Served>, seen: seq<nat>, start: HubRead.Rams, log: seq<Store>,
                              past: nat)
    requires start.Fits()
  {
    && |seen| == |served|
    && forall n :: 0 <= n < |seen| ==> past <= seen[n] <= |log| && ReadBack(served[n], start, log[..seen[n]])
  }

  ghost predicate Remembers(start: HubRead.Rams, s: State) {
    && Inv(s) && Logged(s.write, s.log, s.past) && Holding(s.read.rams, start, s.log)
    && AllReadBack(s.read.served, s.seen, start, s.log, s.past)
  }

  lemma LoggedKept(w: HubWrite.State, i: In, log: seq<Store>, past: nat)
    requires HubWrite.Inv(w) && Logged(w, log, past)
    ensures
      var more := Log(log, w.regs, i);
      Logged(HubWrite.Step(w, WriteIn(i)), more, if i.resetn then past else |more|)
  {
    if i.resetn {
      HubWrite.StoresKept(w, WriteIn(i));
      if w.regs.We(i.bReady) {
        DropSnoc(log, w.regs.Now(), past);
      }
    }
  }

  lemma WordStored(rams: HubRead.Rams, r: HubRead.Regs, w: HubWrite.Regs, i: In, j: nat, a: Place)
    requires rams.Fits() && j < HUB_SIZE
    ensures
      var now, next := w.Now(), rams.Next(r, ReadIn(w, i));
      && next.Fits()
      && next.mem[j][a] == if w.We(i.bReady) && now.port == j + 2 && now.at == a
                           then Merge(rams.mem[j][a], now.data, now.strb)
                           else rams.mem[j][a]
  {
    HubRead.RamsFit(rams, r, ReadIn(w, i));
  }

  lemma HoldingKept(rams: HubRead.Rams, r: HubRead.Regs, w: HubWrite.Regs, i: In, start: HubRead.Rams, log: seq<Store>)
    requires Holding(rams, start, log)
    ensures Holding(rams.Next(r, ReadIn(w, i)), start, Log(log, w, i))
  {
    var next := rams.Next(r, ReadIn(w, i));
    HubRead.RamsFit(rams, r, ReadIn(w, i));
    forall j, a: Place | 0 <= j < HUB_SIZE
      ensures next.mem[j][a] == Stored(start.mem[j][a], j + 2, a, Log(log, w, i))
    {
      WordStored(rams, r, w, i, j, a);
      StoredSnoc(start.mem[j][a], j + 2, a, log, w.Now());
    }
  }

  lemma WordIsLastWritten(rams: HubRead.Rams, start: HubRead.Rams, log: seq<Store>, j: nat, a: Place)
    requires Holding(rams, start, log) && j < HUB_SIZE
    ensures LastWritten(rams.mem[j][a], start.mem[j][a], j + 2, a, log)
  {
    StoredIsLastWritten(start.mem[j][a], j + 2, a, log);
  }

  lemma NextReadsBack(s: HubRead.State, i: HubRead.In, start: HubRead.Rams, log: seq<Store>)
    requires Holding(s.rams, start, log)
    ensures ReadBack(HubRead.NewBeat(s, i), start, log)
  {
    var b := HubRead.NewBeat(s, i);
    if HubRead.RamPort(b.ar.addr) && !b.took {
      var j, at := Port(b.ar.addr) - 2, Offset(b.ar.addr, b.k);
      assert b.word == s.rams.mem[j][at];
      WordIsLastWritten(s.rams, start, log, j, at);
    }
  }

  lemma ReadBackKept(served: seq<HubRead.Served>, seen: seq<nat>, start: HubRead.Rams, log: seq<Store>, past: nat,
                     more: seq<Store>)
    requires start.Fits() && AllReadBack(served, seen, start, log, past) && log <= more
    ensures AllReadBack(served, seen, start, more, past)
  {
    forall n | 0 <= n < |seen| ensures more[..seen[n]] == log[..seen[n]] {
    }
  }

  lemma ReadBackSnoc(served: seq<HubRead.Served>, seen: seq<nat>, start: HubRead.Rams, log: seq<Store>, past: nat,
                     b: HubRead.Served)
    requires start.Fits() && AllReadBack(served, seen, start, log, past) && past <= |log| && ReadBack(b, start, log)
    ensures AllReadBack(served + [b], seen + [|log|], start, log, past)
  {
    assert log[..|log|] == log;
  }

  lemma SeenKept(s: State, i: In, start: HubRead.Rams)
    requires Remembers(start, s)
    ensures var t := Step(s, i); AllReadBack(t.read.served, t.seen, start, t.log, t.past)
  {
    ServedInStep(s, i);
    if i.resetn {
      if s.read.regs.Re(i.rReady) {
        NextReadsBack(s.read, ReadIn(s.write.regs, i), start, s.log);
        ReadBackSnoc(s.read.served, s.seen, start, s.log, s.past,
                     HubRead.NewBeat(s.read, ReadIn(s.write.regs, i)));
      }
      var t := Step(s, i);
      ReadBackKept(t.read.served, t.seen, start, s.log, s.past, t.log);
    }
  }

  lemma RemembersKept(s: State, i: In, start: HubRead.Rams)
    requires Remembers(start, s)
    ensures Remembers(start, Step(s, i))
  {
    StepKeeps(s, i);
    LoggedKept(s.write, i, s.log, s.past);
    HoldingKept(s.read.rams, s.read.regs, s.write.regs, i, start, s.log);
    ServedInStep(s, i);
    SeenKept(s, i, start);
  }

  lemma RamsReachable(z: Start, ins: seq<In>)
    requires z.rams.Fits()
    ensures Remembers(z.rams, After(z, ins))
  {
    InitInv(z);
    forall s, i | Remembers(z.rams, s) ensures Remembers(z.rams, Step(s, i)) {
      RemembersKept(s, i, z.rams);
    }
    Runs.Invariant(Step, s => Remembers(z.rams, s), Init(z), ins);
  }

  /** In every run, whatever is reset when: each byte of each RAM is the one written to it last,
      or what it was at the start; and what has been written since the last reset are just the
      write beats taken, each to the address of its burst and its place in it. */
  lemma RamsHoldTheWrites(z: Start, ins: seq<In>, j: nat, a: Place)
    requires z.rams.Fits() && j < HUB_SIZE
    ensures
      var s := After(z, ins);
      && s.read.rams.Fits()
      && LastWritten(s.read.rams.mem[j][a], z.rams.mem[j][a], j + 2, a, s.log)
      && Logged(s.write, s.log, s.past)
  {
    RamsReachable(z, ins);
    WordIsLastWritten(After(z, ins).read.rams, z.rams, After(z, ins).log, j, a);
  }

  /** Reading back from the RAMs: in every run of the hub, every reply from a RAM that no write
      beat interfered with has, byte for byte, what had been written last to its address when
      it was served, or the contents of the start. */
  lemma RepliesReadBack(z: Start, ins: seq<In>, n: nat)
    requires z.rams.Fits() && n < |After(z, ins).read.replies|
    ensures
      var s := After(z, ins);
      && n < |s.read.served| == |s.seen| && s.past <= s.seen[n] <= |s.log|
      && var b, reply := s.read.served[n], s.read.replies[n];
         && reply.id == b.ar.id && reply.last == (b.k == b.ar.len)
         && (reply.clean ==> ReadBack(b.(word := reply.data), z.rams, s.log[..s.seen[n]]))
  {
    RamsReachable(z, ins);
    var s := After(z, ins).read;
    assert HubRead.Answers(s.replies[n], s.served[n]);
    var b := s.served[n];
    assert b.(word := b.word) == b;
  }

  // ------------------------------------------------------------- m_axis outputs

  /** Every write beat to output j since the last reset came while fewer than two of the words
      written to it before were still untaken by its consumer. */
  ghost predicate InTime(z: Start, ins: seq<In>, j: nat)
    requires j < HUB_SIZE
  {
    ins == []
    || (var front, i := ins[..|ins| - 1], ins[|ins| - 1];
        var s := After(z, front);
        !i.resetn || (InTime(z, front, j)
                      && (Sel(s.write.regs, i.bReady)[j] && |s.outputs| == HUB_SIZE ==>
                            s.outputs[j].Untaken() < 2)))
  }

  /** In every run and for every output: the words written are those of the write beats to its
      port; those delivered or still held are some of them, in order; and they are all of them
      exactly when every beat came in time. */
  lemma {:induction false} StreamWritesLossless(z: Start, ins: seq<In>, j: nat)
    requires z.rams.Fits() && j < HUB_SIZE
    ensures
      var s := After(z, ins);
      && |s.outputs| == HUB_SIZE && HubWrite.Addressed(s.write.awAccepted, s.write.taken)
      && var o := s.outputs[j];
         && o.written == HubWrite.WordsTo(j + 2, HubWrite.Stores(s.write.awAccepted, s.write.taken))
         && Subsequence(o.delivered + o.regs.Held(), o.written)
         && (o.written == o.delivered + o.regs.Held() <==> InTime(z, ins, j))
  {
    Reachable(z, ins);
    if ins != [] {
      var front, i := ins[..|ins| - 1], ins[|ins| - 1];
      StreamWritesLossless(z, front, j);
      var s := After(z, front);
      var w := s.write.regs;
      Reachable(z, front);
      HubPorts.OutputKept(s.outputs[j], i.resetn, w.w.OutData().data, Sel(w, i.bReady)[j], i.mready[j]);
    }
  }

  /** A word written to port 2 by a master that is always ready for the response, while the
      consumer of the output takes nothing. */
  function Writing(aw: bool, beat: bool, data: Word, last: bool): In {
    In(true, aw, HubWrite.Aw(0, 0x200_0000), beat, HubWrite.Beat(0xF, last, data), true,
       false, HubRead.Ar(0, 0, 0), true, [], [false, false, false, false, false, false], [0, 0, 0, 0, 0, 0], 0,
       [false, false, false, false, false, false])
  }

  /** The write half holds this beat of a burst to port 2. */
  ghost predicate Holds(w: HubWrite.State, data: Word, last: bool) {
    && w.regs.aw.OutValid() && w.regs.aw.OutData() == HubWrite.Aw(0, 0x200_0000) && w.regs.aw.front.ready
    && w.regs.w.OutValid() && w.regs.w.OutData() == HubWrite.Beat(0xF, last, data) && w.regs.w.front.ready
    && !w.regs.b.valid && w.responses == []
  }

  lemma FirstBeat(s0: State, s1: State, z: Start, a: Word)
    requires s0 == Init(z) && s1 == Step(s0, Writing(true, true, a, false))
    ensures Holds(s1.write, a, false) && |s1.outputs| == HUB_SIZE
    ensures s1.outputs[0].regs.Held() == [] && s1.outputs[0].regs.front.ready
    ensures s1.outputs[0].written == [] && s1.outputs[0].delivered == []
  {
  }

  /** Of three words offered to an empty buffer that nobody drains it keeps two. */
  lemma ThirdDoesNotFit(o: HubPorts.Output, a: Word, b: Word, c: Word)
    requires o.regs.Held() == [] && o.regs.front.ready && o.written == [] && o.delivered == []
    ensures
      var o2 := HubPorts.OutputStep(o, true, a, true, false);
      var o3 := HubPorts.OutputStep(o2, true, b, true, false);
      var o4 := HubPorts.OutputStep(o3, true, c, true, false);
      o4.written == [a, b, c] && o4.delivered == [] && o4.regs.Held() == [a, b]
  {
  }

  /** The beat held is written to output 0, whatever that holds. */
  lemma BeatWritten(s: State, data: Word, last: bool, i: In)
    requires Holds(s.write, data, last) && |s.outputs| == HUB_SIZE
    requires i.resetn && i.bReady && !i.awValid && !i.mready[0]
    ensures
      var t := Step(s, i);
      && |t.outputs| == HUB_SIZE
      && t.outputs[0] == HubPorts.OutputStep(s.outputs[0], true, data, true, false)
      && t.write.responses == (if last then [0] else [])
      && (!last && i.wValid && i.beat.strb == 0xF ==> Holds(t.write, i.beat.data, i.beat.last))
  {
  }

  lemma NextBeats(s1: State, s2: State, s3: State, s4: State, a: Word, b: Word, c: Word)
    requires Holds(s1.write, a, false) && |s1.outputs| == HUB_SIZE
    requires s2 == Step(s1, Writing(false, true, b, false)) && s3 == Step(s2, Writing(false, true, c, true))
    requires s4 == Step(s3, Writing(false, false, 0, false))
    requires s1.outputs[0].regs.Held() == [] && s1.outputs[0].regs.front.ready
    requires s1.outputs[0].written == [] && s1.outputs[0].delivered == []
    ensures
      && |s4.outputs| == HUB_SIZE
      && s4.outputs[0].written == [a, b, c]
      && s4.outputs[0].delivered == [] && s4.outputs[0].regs.Held() == [a, b]
      && s4.write.responses == [0]
  {
    BeatWritten(s1, a, false, Writing(false, true, b, false));
    BeatWritten(s2, b, false, Writing(false, true, c, true));
    BeatWritten(s3, c, true, Writing(false, false, 0, false));
    ThirdDoesNotFit(s1.outputs[0], a, b, c);
  }

  /** One burst of three beats is enough: the third word is acknowledged and lost. */
  lemma ThirdWordIsLost(z: Start, a: Word, b: Word, c: Word)
    ensures
      var ins := [Writing(true, true, a, false)] + [Writing(false, true, b, false)]
               + [Writing(false, true, c, true)] + [Writing(false, false, 0, false)];
      var s := After(z, ins);
      && |s.outputs| == HUB_SIZE
      && s.outputs[0].written == [a, b, c]
      && s.outputs[0].delivered == [] && s.outputs[0].regs.Held() == [a, b]
      && s.write.responses == [0]
  {
    var i0, i1, i2, i3 := Writing(true, true, a, false), Writing(false, true, b, false),
                          Writing(false, true, c, true), Writing(false, false, 0, false);
    var s0 := Init(z);
    var s1 := Step(s0, i0);
    var s2 := Step(s1, i1);
    var s3 := Step(s2, i2);
    var s4 := Step(s3, i3);
    AfterOneMore(z, [], i0);
    AfterOneMore(z, [i0], i1);
    AfterOneMore(z, [i0] + [i1], i2);
    AfterOneMore(z, [i0] + [i1] + [i2], i3);
    assert [] + [i0] == [i0];
    FirstBeat(s0, s1, z, a);
    NextBeats(s1, s2, s3, s4, a, b, c);
  }
}
