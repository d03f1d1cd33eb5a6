/** The read pipeline shared by axis_bram_reader.v and axis_keyer.v: a register slice that
    carries a tag alongside the one-cycle latency of a block RAM, followed by a skid buffer
    and a register slice that pair the tag with the word the RAM returned. */
module BramPipe {
  import opened Handshake

  type Word = bv32

  /** `rdata` is the RAM's own output register. */
  datatype PipeRegs<T> = PipeRegs(tag: OutputRegs<T>, rdata: Word, tail: InoutRegs<(T, Word)>) {

    /** The first stage is ready; the same wire enables the RAM. */
    predicate InReady() { tag.InReady(tail.InReady()) }

    predicate OutValid() { tail.OutValid() }

    function OutData(): (T, Word) { tail.OutData() }

    /** `word` is what the RAM holds at the address presented in this cycle. */
    function Next(resetn: bool, inTag: T, inValid: bool, word: Word, outReady: bool): PipeRegs<T> {
      PipeRegs(
        tag.Next(resetn, inTag, inValid, tail.InReady()),
        if InReady() then word else rdata,
        tail.Next(resetn, (tag.data, rdata), tag.valid, outReady))
    }

    function Held(): seq<(T, Word)> {
      tail.Held() + if tag.valid then [(tag.data, rdata)] else []
    }

    predicate Inv() { tail.Inv() }
  }

  function PipeReset<T>(undefined: T, word: Word): PipeRegs<T> {
    PipeRegs(OutputRegs(false, undefined), word, InoutReset((undefined, word)))
  }

  /** The whole pipeline is a three-place queue of (tag, word read under that tag): the RAM
      latency never pairs a tag with another cycle's word, however the consumer stalls. */
  lemma PipeIsQueue<T>(p: PipeRegs<T>, inTag: T, inValid: bool, word: Word, outReady: bool)
    requires p.Inv()
    ensures
      var next := p.Next(true, inTag, inValid, word, outReady);
      && next.Inv()
      && next.Held() == Advance(p.Held(), inValid && p.InReady(), (inTag, word), p.OutValid() && outReady)
    ensures |p.Held()| <= 3
    ensures p.OutValid() ==> p.Held() != [] && p.OutData() == p.Held()[0]
    ensures p.OutValid() && !outReady ==> p.Next(true, inTag, inValid, word, outReady).tail.back == p.tail.back
  {
    InoutIsQueue(p.tail, (p.tag.data, p.rdata), p.tag.valid, outReady);
  }

  /** The pipeline with what entered it and what left it since the last reset. */
  datatype Flow<T> = Flow(pipe: PipeRegs<T>, issued: seq<(T, Word)>, delivered: seq<(T, Word)>) {

    function Step(resetn: bool, inTag: T, inValid: bool, word: Word, outReady: bool): Flow<T> {
      Flow(
        pipe.Next(resetn, inTag, inValid, word, outReady),
        if !resetn then []
        else if inValid && pipe.InReady() then issued + [(inTag, word)] else issued,
        if !resetn then []
        else if pipe.OutValid() && outReady then delivered + [pipe.OutData()] else delivered)
    }

    ghost predicate Inv() {
      pipe.Inv() && issued == delivered + pipe.Held()
    }
  }

  function FlowReset<T>(undefined: T, word: Word): Flow<T> {
    Flow(PipeReset(undefined, word), [], [])
  }

  /** Nothing is lost, duplicated, reordered or paired with the wrong tag on the way. */
  lemma FlowConserves<T>(f: Flow<T>, resetn: bool, inTag: T, inValid: bool, word: Word, outReady: bool)
    requires f.Inv()
    ensures f.Step(resetn, inTag, inValid, word, outReady).Inv()
  {
    if resetn {
      var p := f.pipe;
      PipeIsQueue(p, inTag, inValid, word, outReady);
      AdvanceConserves(f.issued, f.delivered, p.Held(), inValid && p.InReady(), (inTag, word),
                       p.OutValid() && outReady);
    }
  }

  /** The same registers, clocked in place. */
  class ReadPipe<T> {
    const buf0: OutputBuffer<T>
    const buf1: InputBuffer<(T, Word)>
    const buf2: OutputBuffer<(T, Word)>
    var rdata: Word

    ghost predicate Valid()
      reads this
    {
      buf0 as object != buf2
    }

    function Regs(): PipeRegs<T>
      reads this, buf0, buf1, buf2
    {
      PipeRegs(buf0.Regs(), rdata, InoutRegs(buf1.Regs(), buf2.Regs()))
    }

    constructor (undefined: T, word: Word)
      ensures Valid() && Regs() == PipeReset(undefined, word)
      ensures fresh(buf0) && fresh(buf1) && fresh(buf2)
    {
      buf0 := new OutputBuffer<T>(undefined);
      buf1 := new InputBuffer<(T, Word)>((undefined, word));
      buf2 := new OutputBuffer<(T, Word)>((undefined, word));
      rdata := word;
    }

    method Clock(resetn: bool, inTag: T, inValid: bool, word: Word, outReady: bool)
      requires Valid()
      modifies this, buf0, buf1, buf2
      ensures Regs() == old(Regs()).Next(resetn, inTag, inValid, word, outReady)
    {
      var tag1, valid1, ready1 := buf0.data, buf0.valid, buf1.ready;
      var data2 := if buf1.ready then (tag1, rdata) else buf1.data;
      var valid2 := !buf1.ready || valid1;
      var ready2 := !buf2.valid || outReady;
      var enable := !buf0.valid || ready1;
      buf0.Clock(resetn, inTag, inValid, ready1);
      buf1.Clock(resetn, (tag1, rdata), valid1, ready2);
      buf2.Clock(resetn, data2, valid2, outReady);
      if enable {
        rdata := word;
      }
    }
  }
}
