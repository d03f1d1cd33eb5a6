/** The read half of cores/axi_hub.v: AR and R channels, the read multiplexers, the stream
    inputs and the read side of the BRAM ports. */
module HubRead {
  import opened AxiMap
  import opened Handshake
  import opened Lists
  import Runs

  datatype Ar = Ar(id: nat, len: Length, addr: nat)

  /** The R stage: one BRAM select bit per port, arid, rlast and the multiplexed word. */
  datatype RBeat = RBeat(bsel: seq<bool>, id: nat, last: bool, data: Word)

  /** What the outside world presents in one cycle: the two channels, the config and status
      words, the six stream inputs, and what the write half and the RAMs do at the BRAM ports:
      a write beat (`we`), its port and word address, its byte enables and data, and the word
      a RAM outputs when it is written (`rw`). */
  datatype In = In(resetn: bool, arValid: bool, ar: Ar, rReady: bool,
                   cfg: seq<Word>, sts: seq<Word>, svalid: Bits, sdata: Words,
                   we: bool, wport: nat, waddr: Place, strb: bv4, wdata: Word, rw: Word)

  /** int_rdata_mux. Ports and words that do not exist read as unknown in the source; here as 0. */
  function Mux(addr: nat, k: nat, i: In): Word
  {
    var port := Port(addr);
    if port == 0 then
      var j := Index(|i.cfg|, addr, k);
      if j < |i.cfg| then i.cfg[j] else 0
    else if port == 1 then
      var j := Index(|i.sts|, addr, k);
      if j < |i.sts| then i.sts[j] else 0
    else if port < HUB_SIZE + 2 && i.svalid[port - 2] then i.sdata[port - 2]
    else 0
  }

  datatype Regs = Regs(ar: InoutRegs<Ar>, r: OutputRegs<RBeat>, cntr: nat) {

    /** int_re_wire: this cycle puts a beat into the R stage. */
    predicate Re(rReady: bool) { r.InReady(rReady) && ar.OutValid() }

    predicate Last() { cntr == ar.OutData().len }

    predicate ArReady(rReady: bool) { r.InReady(rReady) && Last() }

    /** int_rsel_wire[j + 2], which is also the stream's tready. */
    predicate Selects(j: nat, rReady: bool) { Re(rReady) && Port(ar.OutData().addr) == j + 2 }

    function Beat(i: In): RBeat
    {
      RBeat(seq(HUB_SIZE, j requires 0 <= j < HUB_SIZE => Selects(j, i.rReady) && !i.svalid[j]),
            ar.OutData().id, Last(), Mux(ar.OutData().addr, cntr, i))
    }

    function NextCntr(rReady: bool): nat {
      if !Last() && Re(rReady) then (cntr + 1) % 16
      else if ar.OutValid() && ArReady(rReady) then 0
      else cntr
    }

    function Next(i: In): Regs
    {
      Regs(
        ar.Next(i.resetn, i.ar, i.arValid, ArReady(i.rReady)),
        r.Next(i.resetn, Beat(i), ar.OutValid(), i.rReady),
        if !i.resetn then 0 else NextCntr(i.rReady))
    }
  }

  function Gate(b: RBeat, bram: seq<Word>, j: nat): Word
    requires j < |b.bsel| == |bram|
  {
    if b.bsel[j] then bram[j] else 0
  }

  /** s_axi_rdata: the word in the R stage or-ed, port after port, with the selected RAM outputs. */
  function RData(b: RBeat, bram: seq<Word>, ports: nat := HUB_SIZE): Word
    requires |b.bsel| == |bram| == HUB_SIZE && ports <= HUB_SIZE
  {
    if ports == 0 then b.data else RData(b, bram, ports - 1) | Gate(b, bram, ports - 1)
  }

  function Idle(): RBeat { RBeat(seq(HUB_SIZE, _ => false), 0, false, 0) }

  function Reset(ar: Ar): Regs { Regs(InoutReset(ar), OutputRegs(false, Idle()), 0) }

  // ------------------------------------------------------------------ the class

  class ReadHalf {
    var arcntr: nat
    const buf3: InoutBuffer<Ar>
    const buf4: OutputBuffer<RBeat>

    ghost function Stages(): set<object> { {buf3.buf0, buf3.buf1, buf4} }

    ghost predicate Valid() { buf3.buf1 as object != buf4 }

    function State(): Regs
      reads this, buf3.buf0, buf3.buf1, buf4
    {
      Regs(buf3.Regs(), buf4.Regs(), arcntr)
    }

    constructor (ar: Ar)
      ensures Valid() && State() == Reset(ar)
      ensures fresh(Stages())
    {
      arcntr := 0;
      buf3 := new InoutBuffer<Ar>(ar);
      buf4 := new OutputBuffer<RBeat>(Idle());
    }

    /** What the clocked block assigns to the counter. */
    method Control(rReady: bool) returns (cntr: nat)
      ensures cntr == State().NextCntr(rReady)
    {
      var last := arcntr == buf3.buf1.data.len;
      var arvalid, rready := buf3.buf1.valid, !buf4.valid || rReady;
      cntr := arcntr;
      if arvalid && rready && last {
        cntr := 0;
      }
      if !last && rready && arvalid {
        cntr := (arcntr + 1) % 16;
      }
    }

    method Clock(i: In)
      requires Valid()
      modifies this, Stages()
      ensures State() == old(State()).Next(i)
    {
      var s := State();
      var cntr := Control(i.rReady);
      buf3.Clock(i.resetn, i.ar, i.arValid, s.ArReady(i.rReady));
      buf4.Clock(i.resetn, s.Beat(i), s.ar.OutValid(), i.rReady);
      arcntr := if i.resetn then cntr else 0;
    }
  }

  // --------------------------------------------------- the RAMs behind the ports

  /** Six RAMs of 2^22 words and their output registers. */
  datatype Rams = Rams(mem: seq<seq<Word>>, dout: seq<Word>) {

    predicate Fits() {
      && |mem| == |dout| == HUB_SIZE
      && forall j :: 0 <= j < HUB_SIZE ==> |mem[j]| == 0x40_0000
    }

    /** b_bram_en, b_bram_we and b_bram_addr of port j: a write beat, wherever it goes, also
        takes over the address. */
    function Next(r: Regs, i: In): Rams
      requires Fits()
    {
      var raddr := Offset(r.ar.OutData().addr, r.cntr);
      var addr := if i.we then i.waddr else raddr;
      Rams(
        seq(HUB_SIZE, j requires 0 <= j < HUB_SIZE =>
          if i.we && i.wport == j + 2 then mem[j][addr := Merge(mem[j][addr], i.wdata, i.strb)] else mem[j]),
        seq(HUB_SIZE, j requires 0 <= j < HUB_SIZE =>
          if i.we && i.wport == j + 2 then i.rw
          else if r.Selects(j, i.rReady) then mem[j][addr]
          else dout[j]))
    }
  }

  // ---------------------------------------------------------------- runs

  /** One beat put into the R stage: which request and which beat of it, whether it consumed a
      stream word, and the word it stands for. */
  datatype Served = Served(ar: Ar, k: nat, took: bool, word: Word)

  /** One beat accepted by the master; `clean` says no write beat interfered with its RAM. */
  datatype Reply = Reply(id: nat, last: bool, data: Word, clean: bool)

  datatype State = State(regs: Regs, rams: Rams, clean: bool, accepted: seq<Ar>, taken: seq<Ar>,
                         served: seq<Served>, replies: seq<Reply>, consumed: seq<seq<Word>>)

  /** The word beat k of a request stands for, looked up in the cycle it is served. */
  function Lookup(s: State, i: In): Word
    requires s.rams.Fits()
  {
    var ar := s.regs.ar.OutData();
    var port := Port(ar.addr);
    if 2 <= port < HUB_SIZE + 2 && !i.svalid[port - 2] then s.rams.mem[port - 2][Offset(ar.addr, s.regs.cntr)]
    else Mux(ar.addr, s.regs.cntr, i)
  }

  predicate TakesStream(s: State, i: In)
  {
    var port := Port(s.regs.ar.OutData().addr);
    2 <= port < HUB_SIZE + 2 && i.svalid[port - 2]
  }

  predicate FromRam(s: State, i: In)
  {
    var port := Port(s.regs.ar.OutData().addr);
    2 <= port < HUB_SIZE + 2 && !i.svalid[port - 2]
  }

  /** Is the R stage's RAM, if it has one, written in this cycle? */
  predicate Disturbed(b: RBeat, i: In) {
    i.we && 2 <= i.wport < |b.bsel| + 2 && b.bsel[i.wport - 2]
  }

  /** The beat served in this cycle. */
  function NewBeat(s: State, i: In): Served
    requires s.rams.Fits()
  {
    Served(s.regs.ar.OutData(), s.regs.cntr, TakesStream(s, i), Lookup(s, i))
  }

  ghost function Step(s: State, i: In): State {
    if !s.rams.Fits() || |s.consumed| != HUB_SIZE || |s.regs.r.data.bsel| != HUB_SIZE then s
    else
      var r := s.regs;
      if !i.resetn then State(r.Next(i), s.rams.Next(r, i), true, [], [], [], [], seq(HUB_SIZE, _ => []))
      else
        State(
          r.Next(i),
          s.rams.Next(r, i),
          if r.Re(i.rReady) then !(FromRam(s, i) && i.we) else s.clean && !Disturbed(r.r.data, i),
          if i.arValid && r.ar.InReady() then s.accepted + [i.ar] else s.accepted,
          if r.ar.OutValid() && r.ArReady(i.rReady) then s.taken + [r.ar.OutData()] else s.taken,
          if r.Re(i.rReady) then s.served + [NewBeat(s, i)] else s.served,
          if r.r.valid && i.rReady then
            s.replies + [Reply(r.r.data.id, r.r.data.last, RData(r.r.data, s.rams.dout), s.clean)]
          else s.replies,
          seq(HUB_SIZE, j requires 0 <= j < HUB_SIZE =>
            if r.Selects(j, i.rReady) && i.svalid[j] then s.consumed[j] + [i.sdata[j]] else s.consumed[j]))
  }

  ghost function Init(rams: Rams, ar: Ar): State {
    State(Reset(ar), rams, true, [], [], [], [], seq(HUB_SIZE, _ => []))
  }

  /** n beats of one request. */
  function BeatsOf(ar: Ar, n: nat): seq<(Ar, nat)> {
    seq(n, k requires 0 <= k < n => (ar, k))
  }

  /** What the requests ask for: request after request, arlen + 1 beats each. */
  function Expand(ars: seq<Ar>): seq<(Ar, nat)> {
    if ars == [] then [] else Expand(ars[..|ars| - 1]) + BeatsOf(ars[|ars| - 1], ars[|ars| - 1].len + 1)
  }

  function Beats(served: seq<Served>): seq<(Ar, nat)> {
    seq(|served|, n requires 0 <= n < |served| => (served[n].ar, served[n].k))
  }

  /** The stream words of port j among the served beats. */
  function Taken(served: seq<Served>, j: nat): seq<Word> {
    if served == [] then []
    else
      var last := served[|served| - 1];
      Taken(served[..|served| - 1], j) + if last.took && Port(last.ar.addr) == j + 2 then [last.word] else []
  }

  /** The reply carries the id, the last flag and the word of what was served. */
  predicate Answers(reply: Reply, b: Served) {
    && reply.id == b.ar.id
    && reply.last == (b.k == b.ar.len)
    && (reply.clean || b.took || Port(b.ar.addr) < 2 ==> reply.data == b.word)
  }

  // ------------------------------------------------------------- the invariant

  predicate RamPort(addr: nat) { 2 <= Port(addr) < HUB_SIZE + 2 }

  /** The R stage stands for the last beat served: either the word itself with no RAM selected,
      or no word and the one RAM whose output register holds it. */
  ghost predicate Stage(beat: RBeat, b: Served, clean: bool, dout: seq<Word>) {
    && |beat.bsel| == |dout| == HUB_SIZE
    && beat.id == b.ar.id
    && beat.last == (b.k == b.ar.len)
    && (if RamPort(b.ar.addr) && !b.took then
          var port := Port(b.ar.addr) - 2;
          && (forall j :: 0 <= j < HUB_SIZE ==> (beat.bsel[j] <==> j == port))
          && beat.data == 0
          && (clean ==> dout[port] == b.word)
        else
          (forall j :: 0 <= j < HUB_SIZE ==> !beat.bsel[j]) && beat.data == b.word)
  }

  /** Requests in and requests out. */
  ghost predicate Requests(r: Regs, accepted: seq<Ar>, taken: seq<Ar>) {
    && r.ar.Inv()
    && accepted == taken + r.ar.Held()
  }

  /** The beats served are those of the finished requests and the first ones of the current. */
  ghost predicate Bursts(r: Regs, taken: seq<Ar>, beats: seq<(Ar, nat)>) {
    && (if r.ar.OutValid() then r.cntr <= r.ar.OutData().len else r.cntr == 0)
    && beats == Expand(taken) + BeatsOf(r.ar.OutData(), r.cntr)
  }

  ghost predicate Replied(replies: seq<Reply>, served: seq<Served>) {
    |replies| <= |served| && forall n :: 0 <= n < |replies| ==> Answers(replies[n], served[n])
  }

  ghost predicate Streams(consumed: seq<seq<Word>>, served: seq<Served>) {
    |consumed| == HUB_SIZE && forall j :: 0 <= j < HUB_SIZE ==> consumed[j] == Taken(served, j)
  }

  ghost predicate Pending(s: State) {
    && |s.served| == |s.replies| + (if s.regs.r.valid then 1 else 0)
    && (s.regs.r.valid ==> Stage(s.regs.r.data, s.served[|s.served| - 1], s.clean, s.rams.dout))
  }

  ghost predicate Inv(s: State) {
    && s.rams.Fits()
    && |s.regs.r.data.bsel| == HUB_SIZE
    && Requests(s.regs, s.accepted, s.taken)
    && Bursts(s.regs, s.taken, Beats(s.served))
    && Replied(s.replies, s.served)
    && Streams(s.consumed, s.served)
    && Pending(s)
  }

  lemma OrZero(x: Word)
    ensures x | 0 == x && 0 | x == x
  {
  }

  lemma OneGate(beat: RBeat, dout: seq<Word>, ports: nat, before: Word)
    requires |beat.bsel| == |dout| == HUB_SIZE && 0 < ports <= HUB_SIZE
    requires RData(beat, dout, ports - 1) == before && (beat.bsel[ports - 1] ==> before == 0)
    ensures RData(beat, dout, ports) == if beat.bsel[ports - 1] then dout[ports - 1] else before
  {
    OrZero(before);
    OrZero(Gate(beat, dout, ports - 1));
  }

  lemma {:induction false} OrOfGates(beat: RBeat, dout: seq<Word>, ports: nat, p: nat)
    requires |beat.bsel| == |dout| == HUB_SIZE && ports <= HUB_SIZE
    requires forall j :: 0 <= j < HUB_SIZE && j != p ==> !beat.bsel[j]
    requires p < HUB_SIZE && beat.bsel[p] ==> beat.data == 0
    ensures RData(beat, dout, ports) == if p < ports && beat.bsel[p] then dout[p] else beat.data
  {
    if ports > 0 {
      OrOfGates(beat, dout, ports - 1, p);
      OneGate(beat, dout, ports, if ports - 1 == p && beat.bsel[p] then 0 else RData(beat, dout, ports - 1));
    }
  }

  /** Or-ing the gated RAM outputs yields the word the stage stands for. */
  lemma StageAnswers(beat: RBeat, b: Served, clean: bool, dout: seq<Word>)
    requires Stage(beat, b, clean, dout)
    ensures Answers(Reply(beat.id, beat.last, RData(beat, dout), clean), b)
  {
    OrOfGates(beat, dout, HUB_SIZE, if RamPort(b.ar.addr) && !b.took then Port(b.ar.addr) - 2 else HUB_SIZE);
  }

  lemma ExpandSnoc(ars: seq<Ar>, ar: Ar)
    ensures Expand(ars + [ar]) == Expand(ars) + BeatsOf(ar, ar.len + 1)
  {
    assert (ars + [ar])[..|ars|] == ars;
  }

  lemma BeatsSnoc(ar: Ar, n: nat)
    ensures BeatsOf(ar, n + 1) == BeatsOf(ar, n) + [(ar, n)]
    ensures BeatsOf(ar, 0) == []
  {
  }

  /** Serving a beat: either one more of this request, or its last. */
  lemma BeatsGrow(taken: seq<Ar>, ar: Ar, cntr: nat, beats: seq<(Ar, nat)>)
    requires beats == Expand(taken) + BeatsOf(ar, cntr)
    ensures beats + [(ar, cntr)] == Expand(taken) + BeatsOf(ar, cntr + 1)
    ensures cntr == ar.len ==> forall next :: beats + [(ar, cntr)] == Expand(taken + [ar]) + BeatsOf(next, 0)
  {
    BeatsSnoc(ar, cntr);
    ExpandSnoc(taken, ar);
  }

  lemma RequestsKept(r: Regs, i: In, accepted: seq<Ar>, taken: seq<Ar>)
    requires Requests(r, accepted, taken) && i.resetn
    ensures
      Requests(r.Next(i),
               if i.arValid && r.ar.InReady() then accepted + [i.ar] else accepted,
               if r.ar.OutValid() && r.ArReady(i.rReady) then taken + [r.ar.OutData()] else taken)
  {
    InoutConserves(r.ar, i.ar, i.arValid, r.ArReady(i.rReady), accepted, taken);
  }

  lemma BurstsKept(r: Regs, i: In, accepted: seq<Ar>, taken: seq<Ar>, beats: seq<(Ar, nat)>)
    requires Requests(r, accepted, taken) && Bursts(r, taken, beats) && i.resetn
    ensures
      var ar := r.ar.OutData();
      Bursts(r.Next(i),
             if r.ar.OutValid() && r.ArReady(i.rReady) then taken + [ar] else taken,
             if r.Re(i.rReady) then beats + [(ar, r.cntr)] else beats)
  {
    var ar, next := r.ar.OutData(), r.Next(i).ar.OutData();
    if r.Re(i.rReady) {
      BeatsGrow(taken, ar, r.cntr, beats);
    } else if !r.ar.OutValid() {
      BeatsSnoc(ar, 0);
      BeatsSnoc(next, 0);
    }
  }

  lemma TakenSnoc(served: seq<Served>, b: Served, j: nat)
    ensures Taken(served + [b], j)
         == Taken(served, j) + if b.took && Port(b.ar.addr) == j + 2 then [b.word] else []
  {
    assert (served + [b])[..|served|] == served;
  }

  /** A stream's tready is high in just the cycles that serve a beat with its word. */
  lemma StreamWord(s: State, i: In, j: nat)
    requires s.rams.Fits() && j < HUB_SIZE
    ensures
      var b := NewBeat(s, i);
      && (s.regs.Selects(j, i.rReady) && i.svalid[j] <==>
            s.regs.Re(i.rReady) && b.took && Port(b.ar.addr) == j + 2)
      && (b.took && Port(b.ar.addr) == j + 2 ==> b.word == i.sdata[j])
  {
  }

  lemma StreamsKept(s: State, i: In)
    requires Inv(s) && i.resetn
    ensures Streams(Step(s, i).consumed, Step(s, i).served)
  {
    var t := Step(s, i);
    forall j | 0 <= j < HUB_SIZE ensures t.consumed[j] == Taken(t.served, j) {
      StreamWord(s, i, j);
      TakenSnoc(s.served, NewBeat(s, i), j);
    }
  }

  /** A fresh beat in the R stage stands for the word just looked up. */
  lemma StageFilled(s: State, i: In)
    requires Inv(s) && i.resetn && s.regs.Re(i.rReady)
    ensures var t := Step(s, i); Stage(t.regs.r.data, t.served[|t.served| - 1], t.clean, t.rams.dout)
  {
  }

  /** A stalled beat keeps its word unless a write beat disturbs its RAM. */
  lemma StageStalled(s: State, i: In)
    requires Inv(s) && i.resetn && s.regs.r.valid && !i.rReady
    ensures var t := Step(s, i);
      t.served == s.served && Stage(t.regs.r.data, t.served[|t.served| - 1], t.clean, t.rams.dout)
  {
  }

  lemma PendingAnswered(s: State)
    requires Pending(s) && s.regs.r.valid
    ensures
      var b := s.regs.r.data;
      && |b.bsel| == |s.rams.dout| == HUB_SIZE && |s.served| == |s.replies| + 1
      && Answers(Reply(b.id, b.last, RData(b, s.rams.dout), s.clean), s.served[|s.replies|])
  {
    StageAnswers(s.regs.r.data, s.served[|s.replies|], s.clean, s.rams.dout);
  }

  lemma RepliesGrow(replies: seq<Reply>, served: seq<Served>, more: seq<Served>, reply: Reply)
    requires Replied(replies, served) && |replies| < |served| && served <= more
    requires Answers(reply, served[|replies|])
    ensures Replied(replies, more) && Replied(replies + [reply], more)
  {
  }

  lemma RepliesKept(s: State, i: In)
    requires Inv(s) && i.resetn
    ensures Replied(Step(s, i).replies, Step(s, i).served)
  {
    var t, b := Step(s, i), s.regs.r.data;
    if s.regs.r.valid {
      PendingAnswered(s);
      RepliesGrow(s.replies, s.served, t.served, Reply(b.id, b.last, RData(b, s.rams.dout), s.clean));
    }
  }

  lemma PendingKept(s: State, i: In)
    requires Inv(s) && i.resetn
    ensures Pending(Step(s, i))
  {
    if s.regs.Re(i.rReady) {
      StageFilled(s, i);
    } else if s.regs.r.valid && !i.rReady {
      StageStalled(s, i);
    }
  }

  lemma BeatsOfServed(served: seq<Served>, b: Served)
    ensures Beats(served + [b]) == Beats(served) + [(b.ar, b.k)]
  {
  }

  lemma RamsFit(rams: Rams, r: Regs, i: In)
    requires rams.Fits()
    ensures rams.Next(r, i).Fits()
  {
  }

  lemma EmptyInv(s: State)
    requires s.rams.Fits() && |s.regs.r.data.bsel| == HUB_SIZE && !s.regs.r.valid && s.regs.cntr == 0
    requires s.regs.ar.Inv() && s.regs.ar.Held() == []
    requires s.accepted == [] && s.taken == [] && s.served == [] && s.replies == []
    requires |s.consumed| == HUB_SIZE && forall j :: 0 <= j < HUB_SIZE ==> s.consumed[j] == []
    ensures Inv(s)
  {
    BeatsSnoc(s.regs.ar.OutData(), 0);
  }

  lemma ResetKeeps(s: State, i: In)
    requires Inv(s) && !i.resetn
    ensures Inv(Step(s, i))
  {
    RamsFit(s.rams, s.regs, i);
    EmptyInv(Step(s, i));
  }

  lemma ControlKept(s: State, i: In)
    requires Inv(s) && i.resetn
    ensures var t := Step(s, i);
      Requests(t.regs, t.accepted, t.taken) && Bursts(t.regs, t.taken, Beats(t.served))
  {
    var r := s.regs;
    RequestsKept(r, i, s.accepted, s.taken);
    BurstsKept(r, i, s.accepted, s.taken, Beats(s.served));
    BeatsOfServed(s.served, NewBeat(s, i));
  }

  lemma StepKeeps(s: State, i: In)
    requires Inv(s)
    ensures Inv(Step(s, i))
  {
    if i.resetn {
      ControlKept(s, i);
      StreamsKept(s, i);
      RepliesKept(s, i);
      PendingKept(s, i);
    } else {
      ResetKeeps(s, i);
    }
  }

  lemma Reachable(rams: Rams, ar: Ar, ins: seq<In>)
    requires rams.Fits()
    ensures Inv(Runs.Run(Step, Init(rams, ar), ins))
  {
    forall s, i | Inv(s) ensures Inv(Step(s, i)) {
      StepKeeps(s, i);
    }
    Runs.Invariant(Step, Inv, Init(rams, ar), ins);
  }

  lemma {:induction false} SameGates(b: RBeat, dout: seq<Word>, next: seq<Word>, ports: nat)
    requires |b.bsel| == |dout| == |next| == HUB_SIZE && ports <= HUB_SIZE
    requires forall j :: 0 <= j < HUB_SIZE && b.bsel[j] ==> next[j] == dout[j]
    ensures RData(b, dout, ports) == RData(b, next, ports)
  {
    if ports > 0 {
      SameGates(b, dout, next, ports - 1);
    }
  }

  /** A write beat goes to the RAM this beat comes from. */
  predicate Overwrites(i: In, b: Served) {
    i.we && i.wport == Port(b.ar.addr) && RamPort(b.ar.addr) && !b.took
  }

  lemma DisturbedMeans(s: State, i: In)
    requires Inv(s) && s.regs.r.valid
    ensures s.served != [] && (Disturbed(s.regs.r.data, i) <==> Overwrites(i, s.served[|s.served| - 1]))
  {
  }

  /** What it takes for a reply to be clean: no write beat in the cycle that serves it, if it comes
      from a RAM, and none to that RAM for as long as the master does not take it. */
  lemma CleanMeans(s: State, i: In)
    requires Inv(s) && i.resetn && Step(s, i).regs.r.valid
    ensures
      var t := Step(s, i);
      && t.served != []
      && var b := t.served[|t.served| - 1];
         t.clean <==> if s.regs.Re(i.rReady) then !(i.we && RamPort(b.ar.addr) && !b.took)
                      else s.clean && !Overwrites(i, b)
  {
    if !s.regs.Re(i.rReady) {
      DisturbedMeans(s, i);
    }
  }

  /** A beat the master does not take stays on the R channel as it is - valid, id, last and
      data - unless a write beat goes to the RAM behind it. */
  lemma StalledReplyIsStable(s: State, i: In)
    requires Inv(s) && i.resetn && s.regs.r.valid && !i.rReady
    requires s.served == [] || !Overwrites(i, s.served[|s.served| - 1])
    ensures
      var t := Step(s, i);
      && t.regs.r == s.regs.r && |t.rams.dout| == HUB_SIZE
      && RData(t.regs.r.data, t.rams.dout) == RData(s.regs.r.data, s.rams.dout)
  {
    DisturbedMeans(s, i);
    RamsFit(s.rams, s.regs, i);
    SameGates(s.regs.r.data, s.rams.dout, Step(s, i).rams.dout, HUB_SIZE);
  }

  lemma {:induction false} ExpandAppend(a: seq<Ar>, b: seq<Ar>)
    ensures Expand(a + b) == Expand(a) + Expand(b)
  {
    if b == [] {
      assert a + b == a;
    } else {
      var front, ar := b[..|b| - 1], b[|b| - 1];
      ExpandAppend(a, front);
      assert a + b == (a + front) + [ar];
      ExpandSnoc(a + front, ar);
      Associates(Expand(a), Expand(front), BeatsOf(ar, ar.len + 1));
    }
  }

  /** The beats of the current request are the first ones the waiting requests ask for. */
  lemma PartialIsPrefix(ar: Ar, rest: seq<Ar>, n: nat)
    requires n <= ar.len + 1
    ensures BeatsOf(ar, n) <= Expand([ar] + rest)
  {
    ExpandAppend([ar], rest);
    ExpandSnoc([], ar);
    assert [] + [ar] == [ar];
    assert BeatsOf(ar, n) == BeatsOf(ar, ar.len + 1)[..n];
  }

  lemma ServedIsPrefix(s: State)
    requires Inv(s)
    ensures Beats(s.served) <= Expand(s.accepted)
    ensures s.regs.ar.Held() == [] ==> Beats(s.served) == Expand(s.accepted)
  {
    var held, ar := s.regs.ar.Held(), s.regs.ar.OutData();
    ExpandAppend(s.taken, held);
    if held == [] {
      BeatsSnoc(ar, 0);
      assert Expand([]) == [];
    } else {
      assert held == [ar] + held[1..];
      PartialIsPrefix(ar, held[1..], s.regs.cntr);
    }
  }

  /** Whatever the master, the streams, the write half and the RAMs do: the beats served are,
      in order, arlen + 1 for each accepted read address; the replies answer them one by one
      with their ids, rlast on exactly the final beat of each request, and with the word
      looked up when the beat was served, except RAM words a write beat interfered with; the
      words consumed from each stream are exactly those of the beats that took one; only the
      beat in the R stage is served but not answered. */
  lemma EveryReadIsAnswered(rams: Rams, ar: Ar, ins: seq<In>)
    requires rams.Fits()
    ensures
      var s := Runs.Run(Step, Init(rams, ar), ins);
      && Beats(s.served) <= Expand(s.accepted)
      && (s.regs.ar.Held() == [] ==> Beats(s.served) == Expand(s.accepted))
      && Replied(s.replies, s.served)
      && |s.served| == |s.replies| + (if s.regs.r.valid then 1 else 0)
      && Streams(s.consumed, s.served)
  {
    Reachable(rams, ar, ins);
    ServedIsPrefix(Runs.Run(Step, Init(rams, ar), ins));
  }
}
