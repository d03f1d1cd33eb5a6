/** The three valid/ready register stages every stream core is built from
    (modules/input_buffer.v, modules/output_buffer.v, modules/inout_buffer.v).

    Each stage is given twice: as a datatype of its registers with the next-state
    function, on which the theorems are proved, and as a class that updates the
    registers in place on every rising clock edge. */
module Handshake {
  import Runs

  /** One clock of a queue: `push` appends `item`, then `pop` removes the oldest entry. */
  function Advance<T>(q: seq<T>, push: bool, item: T, pop: bool): seq<T>
    requires pop ==> q != [] || push
  {
    var filled := if push then q + [item] else q;
    if pop then filled[1..] else filled
  }

  lemma PopConserves<T>(delivered: seq<T>, q: seq<T>)
    requires q != []
    ensures delivered + q == delivered + [q[0]] + q[1..]
  {
  }

  /** A queue that advances keeps "everything accepted = everything delivered + held". */
  lemma AdvanceConserves<T>(accepted: seq<T>, delivered: seq<T>, q: seq<T>, push: bool, item: T, pop: bool)
    requires accepted == delivered + q
    requires pop ==> q != [] || push
    ensures
      var head := if q != [] then q[0] else item;
      (if push then accepted + [item] else accepted)
      == (if pop then delivered + [head] else delivered) + Advance(q, push, item, pop)
  {
    var filled := if push then q + [item] else q;
    assert (if push then accepted + [item] else accepted) == delivered + filled;
    if pop {
      PopConserves(delivered, filled);
    }
  }

  /** One clock of a bounded FIFO: a write to a full FIFO and a read of an empty one do nothing. */
  function FifoNext<T>(q: seq<T>, depth: nat, push: bool, item: T, pop: bool): seq<T> {
    var kept := if pop && q != [] then q[1..] else q;
    if push && |q| < depth then kept + [item] else kept
  }

  lemma FifoConserves<T>(q: seq<T>, depth: nat, push: bool, item: T, pop: bool, entered: seq<T>, left: seq<T>)
    requires entered == left + q
    requires push ==> |q| < depth
    ensures (if push then entered + [item] else entered)
         == (if pop && q != [] then left + [q[0]] else left) + FifoNext(q, depth, push, item, pop)
  {
    if pop && q != [] {
      assert q == [q[0]] + q[1..];
    }
  }

  /** The vendor FIFO xpm_fifo_sync in first-word-fall-through mode with an exact count. */
  class Fifo<T> {
    var items: seq<T>
    const depth: nat

    constructor (depth: nat)
      ensures items == [] && this.depth == depth
    {
      items, this.depth := [], depth;
    }

    method Clock(rst: bool, push: bool, item: T, pop: bool)
      modifies this
      ensures items == if rst then [] else FifoNext(old(items), depth, push, item, pop)
    {
      var full := |items| >= depth;
      if pop && items != [] {
        items := items[1..];
      }
      if push && !full {
        items := items + [item];
      }
      if rst {
        items := [];
      }
    }
  }

  // ---------------------------------------------------------------- input_buffer

  /** Skid buffer: `ready` is a register, the data path is combinational while it is set. */
  datatype InputRegs<T> = InputRegs(ready: bool, data: T) {

    predicate OutValid(inValid: bool) { !ready || inValid }

    function OutData(inData: T): T { if ready then inData else data }

    function Next(resetn: bool, inData: T, inValid: bool, outReady: bool): InputRegs<T> {
      InputRegs(
        if !resetn then true else if OutValid(inValid) then outReady else ready,
        if ready then inData else data)
    }

    function Held(): seq<T> { if ready then [] else [data] }
  }

  lemma InputIsQueue<T>(r: InputRegs<T>, inData: T, inValid: bool, outReady: bool)
    ensures
      var push := inValid && r.ready;
      var pop := r.OutValid(inValid) && outReady;
      && (r.OutValid(inValid) <==> r.Held() != [] || push)
      && (r.OutValid(inValid) ==> r.OutData(inData) == (r.Held() + [inData])[0])
      && r.Next(true, inData, inValid, outReady).Held() == Advance(r.Held(), push, inData, pop)
  {
  }

  class InputBuffer<T> {
    var ready: bool
    var data: T

    function Regs(): InputRegs<T>
      reads this
    {
      InputRegs(ready, data)
    }

    constructor (undefined: T)
      ensures Regs() == InputRegs(true, undefined)
    {
      ready, data := true, undefined;
    }

    method Clock(resetn: bool, inData: T, inValid: bool, outReady: bool)
      modifies this
      ensures Regs() == old(Regs()).Next(resetn, inData, inValid, outReady)
    {
      var valid := !ready || inValid;
      var wasReady := ready;
      if !resetn {
        ready := true;
      } else if valid {
        ready := outReady;
      }
      if wasReady {
        data := inData;
      }
    }
  }

  // --------------------------------------------------------------- output_buffer

  /** Register slice: `valid` and `data` are registers, `ready` is combinational. */
  datatype OutputRegs<T> = OutputRegs(valid: bool, data: T) {

    predicate InReady(outReady: bool) { !valid || outReady }

    function Next(resetn: bool, inData: T, inValid: bool, outReady: bool): OutputRegs<T> {
      OutputRegs(
        if !resetn then false else if InReady(outReady) then inValid else valid,
        if InReady(outReady) then inData else data)
    }

    function Held(): seq<T> { if valid then [data] else [] }
  }

  lemma OutputIsQueue<T>(r: OutputRegs<T>, inData: T, inValid: bool, outReady: bool)
    ensures r.Next(true, inData, inValid, outReady).Held()
         == Advance(r.Held(), inValid && r.InReady(outReady), inData, r.valid && outReady)
    ensures r.valid && !outReady ==> r.Next(true, inData, inValid, outReady) == r
  {
  }

  /** The same with the items that entered and left the stage. */
  lemma OutputConserves<T>(r: OutputRegs<T>, inData: T, inValid: bool, outReady: bool, entered: seq<T>, left: seq<T>)
    requires entered == left + r.Held()
    ensures
      (if inValid && r.InReady(outReady) then entered + [inData] else entered)
      == (if r.valid && outReady then left + [r.data] else left)
         + r.Next(true, inData, inValid, outReady).Held()
  {
    OutputIsQueue(r, inData, inValid, outReady);
    AdvanceConserves(entered, left, r.Held(), inValid && r.InReady(outReady), inData, r.valid && outReady);
  }

  class OutputBuffer<T> {
    var valid: bool
    var data: T

    function Regs(): OutputRegs<T>
      reads this
    {
      OutputRegs(valid, data)
    }

    constructor (undefined: T)
      ensures Regs() == OutputRegs(false, undefined)
    {
      valid, data := false, undefined;
    }

    method Clock(resetn: bool, inData: T, inValid: bool, outReady: bool)
      modifies this
      ensures Regs() == old(Regs()).Next(resetn, inData, inValid, outReady)
    {
      var ready := !valid || outReady;
      if !resetn {
        valid := false;
      } else if ready {
        valid := inValid;
      }
      if ready {
        data := inData;
      }
    }
  }

  // ---------------------------------------------------------------- inout_buffer

  datatype InoutRegs<T> = InoutRegs(front: InputRegs<T>, back: OutputRegs<T>) {

    predicate InReady() { front.ready }

    predicate OutValid() { back.valid }

    function OutData(): T { back.data }

    function Next(resetn: bool, inData: T, inValid: bool, outReady: bool): InoutRegs<T> {
      InoutRegs(
        front.Next(resetn, inData, inValid, back.InReady(outReady)),
        back.Next(resetn, front.OutData(inData), front.OutValid(inValid), outReady))
    }

    /** The oldest item is in the output stage. */
    function Held(): seq<T> { back.Held() + front.Held() }

    /** The skid register fills only behind an occupied output register. */
    predicate Inv() { !front.ready ==> back.valid }
  }

  function InoutReset<T>(undefined: T): InoutRegs<T> {
    InoutRegs(InputRegs(true, undefined), OutputRegs(false, undefined))
  }

  /** Register level refines queue level: one clock is one `Advance` of a two-place queue
      that accepts exactly while it is not full and offers exactly while it is not empty. */
  lemma InoutIsQueue<T>(r: InoutRegs<T>, inData: T, inValid: bool, outReady: bool)
    requires r.Inv()
    ensures
      var next := r.Next(true, inData, inValid, outReady);
      && next.Inv()
      && next.Held() == Advance(r.Held(), inValid && r.InReady(), inData, r.OutValid() && outReady)
    ensures |r.Held()| <= 2
    ensures r.InReady() <==> |r.Held()| < 2
    ensures r.OutValid() <==> r.Held() != []
    ensures r.OutValid() ==> r.OutData() == r.Held()[0]
    ensures r.OutValid() && !outReady ==> r.Next(true, inData, inValid, outReady).back == r.back
  {
  }

  /** The same with the items that entered and left the buffer. */
  lemma InoutConserves<T>(r: InoutRegs<T>, inData: T, inValid: bool, outReady: bool, entered: seq<T>, left: seq<T>)
    requires r.Inv() && entered == left + r.Held()
    ensures
      var next := r.Next(true, inData, inValid, outReady);
      && next.Inv()
      && (if inValid && r.InReady() then entered + [inData] else entered)
         == (if r.OutValid() && outReady then left + [r.OutData()] else left) + next.Held()
  {
    InoutIsQueue(r, inData, inValid, outReady);
    AdvanceConserves(entered, left, r.Held(), inValid && r.InReady(), inData, r.OutValid() && outReady);
  }

  class InoutBuffer<T> {
    const buf0: InputBuffer<T>
    const buf1: OutputBuffer<T>

    function Regs(): InoutRegs<T>
      reads buf0, buf1
    {
      InoutRegs(buf0.Regs(), buf1.Regs())
    }

    constructor (undefined: T)
      ensures Regs() == InoutReset(undefined)
      ensures fresh(buf0) && fresh(buf1)
    {
      buf0 := new InputBuffer<T>(undefined);
      buf1 := new OutputBuffer<T>(undefined);
    }

    method Clock(resetn: bool, inData: T, inValid: bool, outReady: bool)
      modifies buf0, buf1
      ensures Regs() == old(Regs()).Next(resetn, inData, inValid, outReady)
    {
      var midData := if buf0.ready then inData else buf0.data;
      var midValid := !buf0.ready || inValid;
      var midReady := !buf1.valid || outReady;
      buf0.Clock(resetn, inData, inValid, midReady);
      buf1.Clock(resetn, midData, midValid, outReady);
    }
  }

  // ------------------------------------------------------------- runs of a buffer

  datatype LinkIn<T> = LinkIn(resetn: bool, inData: T, inValid: bool, outReady: bool)

  /** An inout_buffer with what it accepted and delivered since the last reset. */
  datatype Link<T> = Link(regs: InoutRegs<T>, accepted: seq<T>, delivered: seq<T>)

  function LinkStep<T>(l: Link<T>, i: LinkIn<T>): Link<T> {
    Link(
      l.regs.Next(i.resetn, i.inData, i.inValid, i.outReady),
      if !i.resetn then [] else if i.inValid && l.regs.InReady() then l.accepted + [i.inData] else l.accepted,
      if !i.resetn then []
      else if l.regs.OutValid() && i.outReady then l.delivered + [l.regs.OutData()]
      else l.delivered)
  }

  predicate LinkInv<T(==)>(l: Link<T>) {
    && l.regs.Inv()
    && l.accepted == l.delivered + l.regs.Held()
  }

  lemma LinkStepKeeps<T>(l: Link<T>, i: LinkIn<T>)
    requires LinkInv(l)
    ensures LinkInv(LinkStep(l, i))
  {
    if i.resetn {
      InoutConserves(l.regs, i.inData, i.inValid, i.outReady, l.accepted, l.delivered);
    }
  }

  /** In every reachable state an inout_buffer is a FIFO of at most two items: nothing is
      lost, duplicated, reordered or altered, whatever either side does. */
  lemma {:induction false} InoutIsFifo<T(!new)>(undefined: T, ins: seq<LinkIn<T>>)
    ensures
      var l := Runs.Run(LinkStep, Link(InoutReset(undefined), [], []), ins);
      && l.accepted == l.delivered + l.regs.Held()
      && |l.regs.Held()| <= 2
      && (l.regs.InReady() <==> |l.regs.Held()| < 2)
      && (l.regs.OutValid() <==> l.regs.Held() != [])
  {
    forall l: Link<T>, i | LinkInv(l) ensures LinkInv(LinkStep(l, i)) {
      LinkStepKeeps(l, i);
    }
    Runs.Invariant(LinkStep<T>, l => LinkInv(l), Link(InoutReset(undefined), [], []), ins);
  }

  /** A stalled output stays valid with the same data for as long as it is stalled, whatever
      the producer puts on its side. */
  lemma {:induction false} StalledOutputIsStable<T>(l: Link<T>, ins: seq<LinkIn<T>>)
    requires l.regs.OutValid() && forall k :: 0 <= k < |ins| ==> ins[k].resetn && !ins[k].outReady
    ensures
      var t := Runs.Run(LinkStep, l, ins);
      t.regs.OutValid() && t.regs.OutData() == l.regs.OutData() && t.delivered == l.delivered
  {
    if ins != [] {
      StalledOutputIsStable(l, ins[..|ins| - 1]);
    }
  }

  /** With both sides always willing, n cycles accept n items and deliver the first n - 1:
      one cycle of latency, then one item every cycle. */
  lemma {:induction false} InoutThroughput<T>(undefined: T, ins: seq<LinkIn<T>>)
    requires forall k :: 0 <= k < |ins| ==> ins[k].resetn && ins[k].inValid && ins[k].outReady
    ensures
      var l := Runs.Run(LinkStep, Link(InoutReset(undefined), [], []), ins);
      && l.regs.front.ready
      && (l.regs.back.valid <==> ins != [])
      && l.accepted == seq(|ins|, k requires 0 <= k < |ins| => ins[k].inData)
      && (ins != [] ==> l.regs.back.data == ins[|ins| - 1].inData)
      && l.delivered == seq(if ins == [] then 0 else |ins| - 1, k requires 0 <= k < |ins| => ins[k].inData)
  {
    if ins != [] {
      var n := |ins| - 1;
      InoutThroughput(undefined, ins[..n]);
      if n > 0 {
        assert ins[..n][n - 1] == ins[n - 1];
      }
    }
  }
}
