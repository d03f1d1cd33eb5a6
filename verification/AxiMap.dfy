/** The address map and the byte lanes of cores/axi_hub.v. */
module AxiMap {
  import Arith

  type Word = bv32

  /** The number of stream inputs, stream outputs and BRAM ports. */
  const HUB_SIZE: nat := 6

  /** One bit, or one word, for every port. */
  type Bits = b: seq<bool> | |b| == HUB_SIZE witness [false, false, false, false, false, false]
  type Words = w: seq<Word> | |w| == HUB_SIZE witness [0, 0, 0, 0, 0, 0]

  /** A word of a RAM, and arlen. */
  type Place = n: nat | n < 0x40_0000
  type Length = n: nat | n < 16

  /** Address bits 27:24 select the port: 0 config, 1 status, 2..7 stream and BRAM ports. */
  function Port(addr: nat): (port: nat)
    ensures port < 16
  {
    addr / 0x100_0000 % 16
  }

  /** Word address of beat k: bits 23:2 plus the burst counter, in 22 bits. */
  function Offset(addr: nat, k: nat): Place {
    (addr / 4 % 0x40_0000 + k) % 0x40_0000
  }

  /** $clog2. */
  function Clog2(n: nat): nat {
    if n <= 1 then 0 else 1 + Clog2((n + 1) / 2)
  }

  /** CFG_WIDTH and STS_WIDTH. */
  function Width(size: nat): nat {
    if size > 1 then Clog2(size) else 1
  }

  /** Bits bits-1:0 of v. */
  function Low(v: nat, bits: nat): (low: nat)
    ensures low <= v
  {
    if bits == 0 then 0 else v % 2 + 2 * Low(v / 2, bits - 1)
  }

  /** The register word a word address selects, and beat k of a burst at `addr`. */
  function Slot(size: nat, at: Place): Place { Low(at, Width(size)) }

  function Index(size: nat, addr: nat, k: nat): nat { Slot(size, Offset(addr, k)) }

  /** Every byte address belongs to one port and one word there, whatever its bits 31:28 and 1:0
      are, and beat k of a burst goes k words further. */
  lemma Decoded(high: nat, port: nat, at: Place, low: nat, k: nat)
    requires port < 16 && low < 4
    ensures
      var addr := 0x1000_0000 * high + 0x100_0000 * port + 4 * at + low;
      Port(addr) == port && Offset(addr, k) == (at + k) % 0x40_0000
  {
    var addr := 0x1000_0000 * high + 0x100_0000 * port + 4 * at + low;
    assert addr / 0x100_0000 == 16 * high + port;
    assert addr / 4 == 0x400_0000 * high + 0x40_0000 * port + at;
    assert addr / 4 % 0x40_0000 == at;
  }

  /** The remainder by 2 p, from the one by p without the lowest bit. */
  lemma LowestBit(v: nat, p: nat)
    requires p > 0
    ensures v % (2 * p) == v % 2 + 2 * (v / 2 % p)
  {
    var q, r := v / 2 / p, v / 2 % p;
    Arith.DivMod(v / 2, p);
    Arith.MulAssoc(2, p, q);
    Arith.DivModUnique(v, 2 * p, q, v % 2 + 2 * r);
  }

  lemma {:induction false} LowIsModulo(v: nat, bits: nat)
    ensures Low(v, bits) == v % Arith.Power2(bits)
  {
    if bits > 0 {
      LowIsModulo(v / 2, bits - 1);
      LowestBit(v, Arith.Power2(bits - 1));
    }
  }

  lemma {:induction false} LowIsIdentity(v: nat, size: nat)
    requires v < size
    ensures Low(v, Clog2(size)) == v
  {
    if size > 1 {
      LowIsIdentity(v / 2, (size + 1) / 2);
    }
  }

  lemma {:induction false} Clog2IsLeast(n: nat)
    requires n > 1
    ensures Arith.Power2(Clog2(n) - 1) < n <= Arith.Power2(Clog2(n))
  {
    if n > 2 {
      Clog2IsLeast((n + 1) / 2);
    }
  }

  /** The slice has just the bits it takes to tell the words apart. */
  lemma WidthIsLeast(size: nat)
    ensures size <= Arith.Power2(Width(size))
    ensures size > 1 ==> Arith.Power2(Width(size) - 1) < size
    ensures size <= 1 ==> Width(size) == 1
  {
    if size > 1 {
      Clog2IsLeast(size);
    }
  }

  /** Every existing register word is selected by its own word address, and by those that differ
      in the bits above the slice. */
  lemma IndexIsOffset(size: nat, addr: nat, k: nat)
    ensures Index(size, addr, k) == Offset(addr, k) % Arith.Power2(Width(size))
    ensures Offset(addr, k) < size ==> Index(size, addr, k) == Offset(addr, k)
  {
    LowIsModulo(Offset(addr, k), Width(size));
    if Offset(addr, k) < size {
      LowIsIdentity(Offset(addr, k), size);
    }
  }

  function Mask(strb: bv4): Word {
    (if strb & 1 != 0 then 0xFF else 0)
    | (if strb & 2 != 0 then 0xFF00 else 0)
    | (if strb & 4 != 0 then 0xFF_0000 else 0)
    | (if strb & 8 != 0 then 0xFF00_0000 else 0)
  }

  /** 32 flip-flops, each enabled by the strobe of its byte lane. */
  function Merge(old': Word, data: Word, strb: bv4): Word {
    (old' & !Mask(strb)) | (data & Mask(strb))
  }

  /** Byte lane by byte lane, a strobed lane takes the new byte and the others keep theirs. */
  lemma MergeLanes(old': Word, data: Word, strb: bv4)
    ensures Merge(old', data, strb) & 0xFF == if strb & 1 != 0 then data & 0xFF else old' & 0xFF
    ensures Merge(old', data, strb) & 0xFF00 == if strb & 2 != 0 then data & 0xFF00 else old' & 0xFF00
    ensures Merge(old', data, strb) & 0xFF_0000 == if strb & 4 != 0 then data & 0xFF_0000 else old' & 0xFF_0000
    ensures Merge(old', data, strb) & 0xFF00_0000 == if strb & 8 != 0 then data & 0xFF00_0000 else old' & 0xFF00_0000
  {
  }
}
