/** The six m_axis outputs of cores/axi_hub.v: an inout_buffer each, fed by the write beats to
    its port whether or not it is ready. */
module HubPorts {
  import opened AxiMap
  import opened Handshake
  import opened Lists

  // ------------------------------------------------------------------ the class

  class Outputs {
    const mbufs: seq<InoutBuffer<Word>>
    ghost const stages: set<object>

    ghost predicate Valid() {
      && |mbufs| == HUB_SIZE
      && (forall j :: 0 <= j < HUB_SIZE ==> mbufs[j].buf0 in stages && mbufs[j].buf1 in stages)
      && forall j, k :: 0 <= j < k < HUB_SIZE ==>
           mbufs[j].buf0 != mbufs[k].buf0 && mbufs[j].buf1 != mbufs[k].buf1
    }

    constructor (undefined: Word)
      ensures Valid() && fresh(stages)
      ensures forall j :: 0 <= j < HUB_SIZE ==> mbufs[j].Regs() == InoutReset(undefined)
    {
      var bufs: seq<InoutBuffer<Word>> := [];
      while |bufs| < HUB_SIZE
        invariant |bufs| <= HUB_SIZE
        invariant forall j :: 0 <= j < |bufs| ==>
          fresh(bufs[j].buf0) && fresh(bufs[j].buf1) && bufs[j].Regs() == InoutReset(undefined)
        invariant forall j, k :: 0 <= j < k < |bufs| ==>
          bufs[j].buf0 != bufs[k].buf0 && bufs[j].buf1 != bufs[k].buf1
      {
        var buf := new InoutBuffer<Word>(undefined);
        bufs := bufs + [buf];
      }
      mbufs := bufs;
      stages := (set j | 0 <= j < |bufs| :: bufs[j].buf0) + (set j | 0 <= j < |bufs| :: bufs[j].buf1);
    }

    /** One rising edge: every buffer is offered the write data, the selected ones as valid. */
    method Clock(resetn: bool, data: Word, sel: Bits, mready: Bits)
      requires Valid()
      modifies stages
      ensures forall j :: 0 <= j < HUB_SIZE ==>
        mbufs[j].Regs() == old(mbufs[j].Regs()).Next(resetn, data, sel[j], mready[j])
    {
      var j := 0;
      while j < HUB_SIZE
        invariant 0 <= j <= HUB_SIZE
        invariant forall k :: 0 <= k < j ==>
          mbufs[k].Regs() == old(mbufs[k].Regs()).Next(resetn, data, sel[k], mready[k])
        invariant forall k :: j <= k < HUB_SIZE ==> mbufs[k].Regs() == old(mbufs[k].Regs())
      {
        mbufs[j].Clock(resetn, data, sel[j], mready[j]);
        j := j + 1;
      }
    }
  }

  // ---------------------------------------------------------------- one port

  /** A port's buffer with the words written to the port and those its consumer has taken,
      since the last reset. */
  datatype Output = Output(regs: InoutRegs<Word>, written: seq<Word>, delivered: seq<Word>) {

    /** The words written and not yet taken. */
    function Untaken(): int { |written| - |delivered| }

    /** Nothing written has been lost. */
    predicate Lossless() { written == delivered + regs.Held() }
  }

  function OutputStep(p: Output, resetn: bool, data: Word, sel: bool, mready: bool): Output {
    Output(
      p.regs.Next(resetn, data, sel, mready),
      if !resetn then [] else if sel then p.written + [data] else p.written,
      if !resetn then [] else if p.regs.OutValid() && mready then p.delivered + [p.regs.OutData()] else p.delivered)
  }

  /** What the buffer took in is part of what was written, and all of it while nothing is lost. */
  ghost predicate Inv(p: Output) {
    p.regs.Inv() && Subsequence(p.delivered + p.regs.Held(), p.written)
  }

  lemma {:induction false} SubsequenceIsNotLonger<T>(a: seq<T>, b: seq<T>)
    requires Subsequence(a, b)
    ensures |a| <= |b|
    ensures |a| == |b| ==> a == b
    decreases |b|
  {
    if a != [] {
      var front := b[..|b| - 1];
      if Subsequence(a, front) {
        SubsequenceIsNotLonger(a, front);
      } else {
        SubsequenceIsNotLonger(a[..|a| - 1], front);
        assert a == a[..|a| - 1] + [a[|a| - 1]];
        assert b == front + [b[|b| - 1]];
      }
    }
  }

  /** Leaving out a word that was written is never made good. */
  lemma LostForever(kept: seq<Word>, written: seq<Word>, data: Word)
    requires Subsequence(kept, written)
    ensures kept != written + [data]
    ensures kept + [data] == written + [data] ==> kept == written
  {
    SubsequenceIsNotLonger(kept, written);
    assert (kept + [data])[..|kept|] == kept && (written + [data])[..|written|] == written;
  }

  /** Nothing is lost for as long as every word is written while fewer than two are untaken; and
      what is not lost stays unaltered and in order. */
  lemma OutputKept(p: Output, resetn: bool, data: Word, sel: bool, mready: bool)
    requires Inv(p)
    ensures var q := OutputStep(p, resetn, data, sel, mready);
      && Inv(q)
      && (resetn ==> (q.Lossless() <==> p.Lossless() && (sel ==> p.Untaken() < 2)))
      && (!resetn ==> q.Lossless())
  {
    if resetn {
      var kept := p.delivered + p.regs.Held();
      InoutConserves(p.regs, data, sel, mready, kept, p.delivered);
      InoutIsQueue(p.regs, data, sel, mready);
      SubsequenceSnoc(kept, p.written, data);
      LostForever(kept, p.written, data);
    }
  }
}
