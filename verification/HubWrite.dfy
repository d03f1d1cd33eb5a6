/** The write half of cores/axi_hub.v: AW, W and B channels and the config registers. */
module HubWrite {
  import opened AxiMap
  import opened Handshake
  import opened HubRams
  import Arith
  import Runs

  datatype Aw = Aw(id: nat, addr: nat)
  datatype Beat = Beat(strb: bv4, last: bool, data: Word)

  /** What the outside world puts on the three channels in one cycle. */
  datatype In = In(resetn: bool, awValid: bool, aw: Aw, wValid: bool, beat: Beat, bReady: bool)

  /** Beat k of a burst as it arrives at its port. */
  function StoreOf(aw: Aw, k: nat, beat: Beat): Store {
    Store(Port(aw.addr), Offset(aw.addr, k), beat.strb, beat.data)
  }

  /** A beat reaches at most one config word. */
  function Apply(cfg: seq<Word>, store: Store): (cfg': seq<Word>)
    ensures |cfg'| == |cfg|
  {
    var j := Slot(|cfg|, store.at);
    if store.port == 0 && j < |cfg| then cfg[j := Merge(cfg[j], store.data, store.strb)] else cfg
  }

  datatype Regs = Regs(aw: InoutRegs<Aw>, w: InoutRegs<Beat>, b: OutputRegs<nat>, cntr: nat, cfg: seq<Word>) {

    /** int_we_wire: this cycle takes a beat. */
    predicate We(bReady: bool) { b.InReady(bReady) && aw.OutValid() && w.OutValid() }

    predicate Last() { w.OutData().last }

    predicate AwReady(bReady: bool) { b.InReady(bReady) && w.OutValid() && Last() }

    predicate WReady(bReady: bool) { b.InReady(bReady) && aw.OutValid() }

    predicate BValid() { aw.OutValid() && w.OutValid() && Last() }

    function NextCntr(bReady: bool): nat {
      if !Last() && We(bReady) then (cntr + 1) % 16
      else if aw.OutValid() && AwReady(bReady) then 0
      else cntr
    }

    function NextCfg(bReady: bool): seq<Word> {
      if We(bReady) then Apply(cfg, Now()) else cfg
    }

    /** What goes to the ports in this cycle, if int_we_wire is set. */
    function Now(): Store { StoreOf(aw.OutData(), cntr, w.OutData()) }

    function Next(i: In): Regs {
      Regs(
        aw.Next(i.resetn, i.aw, i.awValid, AwReady(i.bReady)),
        w.Next(i.resetn, i.beat, i.wValid, WReady(i.bReady)),
        b.Next(i.resetn, aw.OutData().id, BValid(), i.bReady),
        if !i.resetn then 0 else NextCntr(i.bReady),
        if !i.resetn then seq(|cfg|, _ => 0) else NextCfg(i.bReady))
    }
  }

  function Reset(size: nat, aw: Aw, beat: Beat): Regs {
    Regs(InoutReset(aw), InoutReset(beat), OutputRegs(false, 0), 0, seq(size, _ => 0))
  }

  // ------------------------------------------------------------------ the class

  class WriteHalf {
    var awcntr: nat
    var cfg: seq<Word>
    const buf0: InoutBuffer<Aw>
    const buf1: InoutBuffer<Beat>
    const buf2: OutputBuffer<nat>

    ghost function Stages(): set<object> {
      {buf0.buf0, buf0.buf1, buf1.buf0, buf1.buf1, buf2}
    }

    ghost predicate Valid() {
      && buf0.buf0 as object != buf1.buf0
      && buf0.buf1 as object != buf1.buf1
      && buf0.buf1 as object != buf2 && buf1.buf1 as object != buf2
    }

    function State(): Regs
      reads this, buf0.buf0, buf0.buf1, buf1.buf0, buf1.buf1, buf2
    {
      Regs(buf0.Regs(), buf1.Regs(), buf2.Regs(), awcntr, cfg)
    }

    constructor (cfgSize: nat, aw: Aw, beat: Beat)
      ensures Valid() && State() == Reset(cfgSize, aw, beat)
      ensures fresh(Stages())
    {
      awcntr, cfg := 0, seq(cfgSize, _ => 0);
      buf0 := new InoutBuffer<Aw>(aw);
      buf1 := new InoutBuffer<Beat>(beat);
      buf2 := new OutputBuffer<nat>(0);
    }

    /** The config registers with this beat stored. */
    method StoreWord(aw: Aw, beat: Beat) returns (words: seq<Word>)
      ensures words == Apply(cfg, StoreOf(aw, awcntr, beat))
    {
      var j := Index(|cfg|, aw.addr, awcntr);
      words := cfg;
      if Port(aw.addr) == 0 && j < |cfg| {
        words := cfg[j := Merge(cfg[j], beat.data, beat.strb)];
      }
    }

    /** What the clocked block assigns to the counter and the config registers. */
    method Control(bReady: bool) returns (cntr: nat, words: seq<Word>)
      ensures cntr == State().NextCntr(bReady) && words == State().NextCfg(bReady)
    {
      var aw, beat := buf0.buf1.data, buf1.buf1.data;
      var bready := !buf2.valid || bReady;
      var we := bready && buf0.buf1.valid && buf1.buf1.valid;
      cntr, words := awcntr, cfg;
      if buf0.buf1.valid && bready && buf1.buf1.valid && beat.last {
        cntr := 0;
      }
      if !beat.last && we {
        cntr := (awcntr + 1) % 16;
      }
      if we {
        words := StoreWord(aw, beat);
      }
    }

    method ClockStages(i: In)
      requires Valid()
      modifies Stages()
      ensures var next := old(State()).Next(i);
        buf0.Regs() == next.aw && buf1.Regs() == next.w && buf2.Regs() == next.b
    {
      var s := State();
      buf0.Clock(i.resetn, i.aw, i.awValid, s.AwReady(i.bReady));
      buf1.Clock(i.resetn, i.beat, i.wValid, s.WReady(i.bReady));
      buf2.Clock(i.resetn, s.aw.OutData().id, s.BValid(), i.bReady);
    }

    method Clock(i: In)
      requires Valid()
      modifies this, Stages()
      ensures State() == old(State()).Next(i)
    {
      var cntr, words := Control(i.bReady);
      ClockStages(i);
      if !i.resetn {
        awcntr, cfg := 0, seq(|cfg|, _ => 0);
      } else {
        awcntr, cfg := cntr, words;
      }
    }
  }

  // ---------------------------------------------------- what a beat stream means

  /** How many bursts these beats complete. */
  function Lasts(beats: seq<Beat>): nat {
    if beats == [] then 0 else Lasts(beats[..|beats| - 1]) + if beats[|beats| - 1].last then 1 else 0
  }

  /** How many beats the burst they leave open has so far. */
  function Position(beats: seq<Beat>): nat {
    if beats == [] || beats[|beats| - 1].last then 0 else Position(beats[..|beats| - 1]) + 1
  }

  /** Every burst that has begun has its address. */
  predicate Addressed(aws: seq<Aw>, beats: seq<Beat>) {
    beats == [] || (Addressed(aws, beats[..|beats| - 1]) && Lasts(beats[..|beats| - 1]) < |aws|)
  }

  /** These beats as they arrive at their ports, the burst counter wrapping after 16. */
  function Stores(aws: seq<Aw>, beats: seq<Beat>): seq<Store>
    requires Addressed(aws, beats)
  {
    if beats == [] then []
    else
      var front := beats[..|beats| - 1];
      Stores(aws, front) + [StoreOf(aws[Lasts(front)], Position(front) % 16, beats[|beats| - 1])]
  }

  lemma {:induction false} StoresExtend(aws: seq<Aw>, more: seq<Aw>, beats: seq<Beat>)
    requires Addressed(aws, beats)
    ensures Addressed(aws + more, beats) && Stores(aws + more, beats) == Stores(aws, beats)
  {
    if beats != [] {
      StoresExtend(aws, more, beats[..|beats| - 1]);
    }
  }

  lemma StoresSnoc(aws: seq<Aw>, beats: seq<Beat>, beat: Beat)
    requires Addressed(aws, beats) && Lasts(beats) < |aws|
    ensures Addressed(aws, beats + [beat])
    ensures Stores(aws, beats + [beat])
         == Stores(aws, beats) + [StoreOf(aws[Lasts(beats)], Position(beats) % 16, beat)]
  {
    assert (beats + [beat])[..|beats|] == beats;
  }

  /** The same with the config words they select. */
  function InWords(size: nat, stores: seq<Store>): seq<Store> {
    seq(|stores|, k requires 0 <= k < |stores| => stores[k].(at := Slot(size, stores[k].at)))
  }

  lemma InWordsSnoc(size: nat, stores: seq<Store>, store: Store)
    ensures InWords(size, stores + [store]) == InWords(size, stores) + [store.(at := Slot(size, store.at))]
  {
  }

  /** The words that go to a port, in order. */
  function WordsTo(port: nat, stores: seq<Store>): seq<Word> {
    if stores == [] then []
    else
      WordsTo(port, stores[..|stores| - 1])
      + if stores[|stores| - 1].port == port then [stores[|stores| - 1].data] else []
  }

  lemma WordsSnoc(port: nat, stores: seq<Store>, store: Store)
    ensures WordsTo(port, stores + [store]) == WordsTo(port, stores) + if store.port == port then [store.data] else []
  {
    assert (stores + [store])[..|stores|] == stores;
  }

  function Ids(aws: seq<Aw>): seq<nat> {
    seq(|aws|, k requires 0 <= k < |aws| => aws[k].id)
  }

  // ---------------------------------------------------------------- runs

  /** The write half with what passed since the last reset: addresses and beats accepted on
      the bus and taken out of their buffers, responses put into the B stage and accepted by
      the master. */
  datatype State = State(regs: Regs, awAccepted: seq<Aw>, awTaken: seq<Aw>,
                         accepted: seq<Beat>, taken: seq<Beat>, responses: seq<nat>, answered: seq<nat>)

  function Step(s: State, i: In): State {
    var r := s.regs;
    if !i.resetn then State(r.Next(i), [], [], [], [], [], [])
    else
      State(r.Next(i),
            if i.awValid && r.aw.InReady() then s.awAccepted + [i.aw] else s.awAccepted,
            if r.aw.OutValid() && r.AwReady(i.bReady) then s.awTaken + [r.aw.OutData()] else s.awTaken,
            if i.wValid && r.w.InReady() then s.accepted + [i.beat] else s.accepted,
            if r.w.OutValid() && r.WReady(i.bReady) then s.taken + [r.w.OutData()] else s.taken,
            if r.BValid() && r.b.InReady(i.bReady) then s.responses + [r.aw.OutData().id] else s.responses,
            if r.b.valid && i.bReady then s.answered + [r.b.data] else s.answered)
  }

  function Init(size: nat, aw: Aw, beat: Beat): State {
    State(Reset(size, aw, beat), [], [], [], [], [], [])
  }

  ghost predicate Queues(s: State) {
    && s.regs.aw.Inv() && s.regs.w.Inv()
    && s.awAccepted == s.awTaken + s.regs.aw.Held()
    && s.accepted == s.taken + s.regs.w.Held()
    && s.responses == s.answered + s.regs.b.Held()
  }

  /** The burst counter and the responses follow from the beats taken. */
  ghost predicate Bursts(taken: seq<Beat>, awTaken: seq<Aw>, cntr: nat, responses: seq<nat>) {
    && Lasts(taken) == |awTaken|
    && cntr == Position(taken) % 16
    && responses == Ids(awTaken)
  }

  /** The config words hold what was stored at port 0, from all zeros at reset on. */
  ghost predicate Config(stores: seq<Store>, cfg: seq<Word>) {
    forall w :: 0 <= w < |cfg| ==> cfg[w] == Stored(0, 0, w, InWords(|cfg|, stores))
  }

  ghost predicate Inv(s: State) {
    && Queues(s)
    && Bursts(s.taken, s.awTaken, s.regs.cntr, s.responses)
    && Addressed(s.awAccepted, s.taken) && Config(Stores(s.awAccepted, s.taken), s.regs.cfg)
  }

  lemma QueuesKept(s: State, i: In)
    requires Queues(s)
    ensures Queues(Step(s, i))
  {
    if i.resetn {
      var r := s.regs;
      InoutConserves(r.aw, i.aw, i.awValid, r.AwReady(i.bReady), s.awAccepted, s.awTaken);
      InoutConserves(r.w, i.beat, i.wValid, r.WReady(i.bReady), s.accepted, s.taken);
      OutputConserves(r.b, r.aw.OutData().id, r.BValid(), i.bReady, s.responses, s.answered);
    }
  }

  lemma BurstsSnoc(taken: seq<Beat>, awTaken: seq<Aw>, cntr: nat, responses: seq<nat>, aw: Aw, beat: Beat)
    requires Bursts(taken, awTaken, cntr, responses)
    ensures Bursts(taken + [beat],
                   if beat.last then awTaken + [aw] else awTaken,
                   if beat.last then 0 else (cntr + 1) % 16,
                   if beat.last then responses + [aw.id] else responses)
  {
    assert (taken + [beat])[..|taken|] == taken;
  }

  lemma ConfigSnoc(stores: seq<Store>, cfg: seq<Word>, store: Store)
    requires Config(stores, cfg)
    ensures Config(stores + [store], Apply(cfg, store))
  {
    var size, next := |cfg|, Apply(cfg, store);
    InWordsSnoc(size, stores, store);
    forall w | 0 <= w < size ensures next[w] == Stored(0, 0, w, InWords(size, stores + [store])) {
      StoredSnoc(0, 0, w, InWords(size, stores), store.(at := Slot(size, store.at)));
    }
  }

  /** A beat leaves its buffer exactly when a beat is written, and the address leaves with
      the last beat of its burst, in the cycle its id enters the B stage. */
  lemma TakeIsAtomic(s: State, i: In)
    requires i.resetn && s.regs.We(i.bReady)
    ensures
      var r, t := s.regs, Step(s, i);
      var aw, beat := r.aw.OutData(), r.w.OutData();
      && t.taken == s.taken + [beat]
      && t.awTaken == (if beat.last then s.awTaken + [aw] else s.awTaken)
      && t.responses == (if beat.last then s.responses + [aw.id] else s.responses)
      && t.regs.cntr == (if beat.last then 0 else (r.cntr + 1) % 16)
      && t.regs.cfg == Apply(r.cfg, StoreOf(aw, r.cntr, beat))
  {
  }

  lemma OtherwiseNothing(s: State, i: In)
    requires i.resetn && !s.regs.We(i.bReady)
    ensures
      var t := Step(s, i);
      && t.taken == s.taken && t.awTaken == s.awTaken && t.responses == s.responses
      && t.regs.cntr == s.regs.cntr && t.regs.cfg == s.regs.cfg
  {
  }

  lemma BurstsKept(s: State, i: In)
    requires Inv(s) && i.resetn
    ensures var t := Step(s, i); Bursts(t.taken, t.awTaken, t.regs.cntr, t.responses)
  {
    if s.regs.We(i.bReady) {
      TakeIsAtomic(s, i);
      BurstsSnoc(s.taken, s.awTaken, s.regs.cntr, s.responses, s.regs.aw.OutData(), s.regs.w.OutData());
    } else {
      OtherwiseNothing(s, i);
    }
  }

  /** The address at the head of its buffer is the one of the burst going on. */
  lemma HeadIsNext(s: State, more: seq<Aw>)
    requires Inv(s) && s.regs.aw.OutValid()
    ensures Lasts(s.taken) < |s.awAccepted + more|
    ensures (s.awAccepted + more)[Lasts(s.taken)] == s.regs.aw.OutData()
  {
    assert s.awAccepted[|s.awTaken|] == s.regs.aw.Held()[0];
  }

  /** int_wsel_wire, and the address and byte enables of the BRAM ports: what goes out in this
      cycle is the next beat of its burst. */
  lemma StoresKept(s: State, i: In)
    requires Inv(s) && i.resetn
    ensures
      var t := Step(s, i);
      && Addressed(t.awAccepted, t.taken)
      && Stores(t.awAccepted, t.taken)
         == if s.regs.We(i.bReady) then Stores(s.awAccepted, s.taken) + [s.regs.Now()]
            else Stores(s.awAccepted, s.taken)
  {
    var r := s.regs;
    var more := if i.awValid && r.aw.InReady() then [i.aw] else [];
    var aws := s.awAccepted + more;
    assert Step(s, i).awAccepted == aws;
    StoresExtend(s.awAccepted, more, s.taken);
    if r.We(i.bReady) {
      TakeIsAtomic(s, i);
      HeadIsNext(s, more);
      StoresSnoc(aws, s.taken, r.w.OutData());
    } else {
      OtherwiseNothing(s, i);
    }
  }

  lemma ConfigKept(s: State, i: In)
    requires Inv(s) && i.resetn
    ensures var t := Step(s, i);
      Addressed(t.awAccepted, t.taken) && Config(Stores(t.awAccepted, t.taken), t.regs.cfg)
  {
    StoresKept(s, i);
    if s.regs.We(i.bReady) {
      TakeIsAtomic(s, i);
      ConfigSnoc(Stores(s.awAccepted, s.taken), s.regs.cfg, s.regs.Now());
    } else {
      OtherwiseNothing(s, i);
    }
  }

  lemma StepKeeps(s: State, i: In)
    requires Inv(s)
    ensures Inv(Step(s, i))
  {
    QueuesKept(s, i);
    if i.resetn {
      BurstsKept(s, i);
      ConfigKept(s, i);
    }
  }

  lemma Reachable(size: nat, aw: Aw, beat: Beat, ins: seq<In>)
    ensures Inv(Runs.Run(Step, Init(size, aw, beat), ins))
  {
    forall s, i | Inv(s) ensures Inv(Step(s, i)) {
      StepKeeps(s, i);
    }
    Runs.Invariant(Step, Inv, Init(size, aw, beat), ins);
  }

  lemma Responses(s: State)
    requires Inv(s)
    ensures s.answered <= Ids(s.awAccepted)
    ensures |s.answered| + (if s.regs.b.valid then 1 else 0) == Lasts(s.taken)
    ensures s.taken <= s.accepted
    ensures s.regs.w.Held() == [] ==> s.taken == s.accepted
  {
    assert s.answered <= Ids(s.awTaken);
    assert Ids(s.awTaken) == Ids(s.awAccepted)[..|s.awTaken|];
  }

  /** Whatever the master does: the responses it has accepted are the ids of the accepted
      write addresses, in order, one for each burst whose last beat has been taken and never
      before; the only other response is the one in the B stage, and once everything accepted
      has drained there is one for every burst. */
  lemma OneResponsePerBurst(size: nat, aw: Aw, beat: Beat, ins: seq<In>)
    ensures
      var s := Runs.Run(Step, Init(size, aw, beat), ins);
      && s.answered <= Ids(s.awAccepted)
      && s.taken <= s.accepted
      && |s.answered| + (if s.regs.b.valid then 1 else 0) == Lasts(s.taken)
      && (s.regs.w.Held() == [] && !s.regs.b.valid ==> |s.answered| == Lasts(s.accepted))
  {
    Reachable(size, aw, beat, ins);
    Responses(Runs.Run(Step, Init(size, aw, beat), ins));
  }

  lemma {:induction false} SizeStays(size: nat, aw: Aw, beat: Beat, ins: seq<In>)
    ensures |Runs.Run(Step, Init(size, aw, beat), ins).regs.cfg| == size
  {
    if ins != [] {
      SizeStays(size, aw, beat, ins[..|ins| - 1]);
    }
  }

  lemma WordIsLastWritten(stores: seq<Store>, cfg: seq<Word>, w: nat)
    requires Config(stores, cfg) && w < |cfg|
    ensures LastWritten(cfg[w], 0, 0, w, InWords(|cfg|, stores))
  {
    StoredIsLastWritten(0, 0, w, InWords(|cfg|, stores));
  }

  /** In every run each byte of each word of cfg_data is the one written to it last by the beats
      taken since the last reset, or zero. */
  lemma ConfigHoldsTheWrites(size: nat, aw: Aw, beat: Beat, ins: seq<In>, w: nat)
    requires w < size
    ensures
      var s := Runs.Run(Step, Init(size, aw, beat), ins);
      && |s.regs.cfg| == size && Addressed(s.awAccepted, s.taken)
      && LastWritten(s.regs.cfg[w], 0, 0, w, InWords(size, Stores(s.awAccepted, s.taken)))
  {
    Reachable(size, aw, beat, ins);
    SizeStays(size, aw, beat, ins);
    var s := Runs.Run(Step, Init(size, aw, beat), ins);
    WordIsLastWritten(Stores(s.awAccepted, s.taken), s.regs.cfg, w);
  }
}
