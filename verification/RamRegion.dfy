/** The memory region axis_ram_reader.v and axis_ram_writer.v go through, one block a burst. */
module RamRegion {
  import Arith

  /** Generics and constant inputs: the FIFO depth, min_addr, cfg_data, the bytes of a burst
      (16 beats) and the address space 2^AXI_ADDR_WIDTH. */
  datatype Params = Params(depth: nat, minAddr: nat, cfg: nat, burstBytes: nat, span: nat) {

    predicate Valid() { span > 0 }

    /** The byte address of block k of the region. */
    function Address(k: nat): nat
      requires Valid()
    {
      (minAddr + k * burstBytes) % span
    }
  }

  /** int_addr_reg after a request: the next block, or the first one after block cfg. */
  function NextBlock(p: Params, k: nat): nat {
    if k < p.cfg then k + 1 else 0
  }

  /** The addresses of n bursts: block after block, back to the first after block cfg. */
  function Blocks(p: Params, n: nat): seq<nat>
    requires p.Valid()
  {
    seq(n, k requires 0 <= k < n => p.Address(k % (p.cfg + 1)))
  }

  /** A register that starts at 0 and steps with every request issues exactly these addresses. */
  lemma BlocksSucc(p: Params, k: nat, n: nat)
    requires p.Valid() && k == n % (p.cfg + 1)
    ensures Blocks(p, n + 1) == Blocks(p, n) + [p.Address(k)]
    ensures NextBlock(p, k) == (n + 1) % (p.cfg + 1)
  {
    Arith.ModSucc(n, p.cfg + 1);
  }

  predicate GoesOn(p: Params, a: seq<nat>, k: nat)
    requires p.Valid() && k < |a|
  {
    a[k] == if k % (p.cfg + 1) == 0 then p.minAddr % p.span else (a[k - 1] + p.burstBytes) % p.span
  }

  /** Addresses that start at min_addr and go on by a burst, cfg times, before they start over;
      all in the address space. */
  predicate Walks(p: Params, a: seq<nat>)
    requires p.Valid()
  {
    forall k :: 0 <= k < |a| ==> GoesOn(p, a, k)
  }

  lemma SumModulo(x: nat, y: nat, n: nat)
    requires n > 0
    ensures (x % n + y) % n == (x + y) % n
  {
    var q, r := (x % n + y) / n, (x % n + y) % n;
    var d := x / n;
    assert x + y == n * (q + d) + r;
    Arith.DivModUnique(x + y, n, q + d, r);
  }

  lemma PlaceBefore(k: nat, n: nat)
    requires n > 0 && k % n != 0
    ensures k > 0 && (k - 1) % n == k % n - 1
  {
    Arith.DivModUnique(k - 1, n, k / n, k % n - 1);
  }

  lemma AddressNext(p: Params, j: nat)
    requires p.Valid() && j > 0
    ensures p.Address(j) == (p.Address(j - 1) + p.burstBytes) % p.span
  {
    SumModulo(p.minAddr + (j - 1) * p.burstBytes, p.burstBytes, p.span);
    Arith.MulSucc(j - 1, p.burstBytes);
  }

  /** The addresses of the bursts do. */
  lemma BlocksWalk(p: Params, n: nat)
    requires p.Valid()
    ensures Walks(p, Blocks(p, n))
  {
    var a := Blocks(p, n);
    forall k | 0 <= k < n ensures GoesOn(p, a, k) {
      if k % (p.cfg + 1) != 0 {
        PlaceBefore(k, p.cfg + 1);
        AddressNext(p, k % (p.cfg + 1));
      }
    }
  }

  /** The blocks are in the region. */
  lemma InRegion(p: Params, j: nat)
    requires j <= p.cfg && p.burstBytes > 0 && p.minAddr + (p.cfg + 1) * p.burstBytes <= p.span
    ensures (j + 1) * p.burstBytes == j * p.burstBytes + p.burstBytes <= (p.cfg + 1) * p.burstBytes
    ensures (p.minAddr + j * p.burstBytes) % p.span == p.minAddr + j * p.burstBytes
  {
    Arith.MulMonotone(p.burstBytes, j + 1, p.cfg + 1);
    Arith.MulSucc(j, p.burstBytes);
    Arith.ModSmall(p.minAddr + j * p.burstBytes, p.span);
  }

  lemma {:induction false} WalkPlace(p: Params, a: seq<nat>, k: nat, j: nat)
    requires p.Valid() && Walks(p, a) && k < |a| && p.minAddr + (p.cfg + 1) * p.burstBytes <= p.span
    requires p.burstBytes > 0 && j == k % (p.cfg + 1)
    ensures a[k] == p.minAddr + j * p.burstBytes
  {
    InRegion(p, j);
    assert GoesOn(p, a, k);
    if j == 0 {
      assert j * p.burstBytes == 0;
    } else {
      PlaceBefore(k, p.cfg + 1);
      WalkPlace(p, a, k - 1, j - 1);
      Arith.MulSucc(j - 1, p.burstBytes);
    }
  }

  lemma InBlock(d: nat, j: nat, b: nat)
    requires b > 0
    ensures j * b <= d < j * b + b <==> j == d / b
  {
    if j * b <= d < j * b + b {
      Arith.DivModUnique(d, b, j, d - j * b);
    }
  }

  /** If the region fits the address space, the bursts of one pass tile it: each of its bytes is
      in burst number (x - min_addr) / burst of every pass, and in no other. */
  lemma PassTiles(p: Params, a: seq<nat>, k: nat, x: nat)
    requires p.Valid() && Walks(p, a) && k < |a| && p.minAddr + (p.cfg + 1) * p.burstBytes <= p.span
    requires p.burstBytes > 0 && p.minAddr <= x
    ensures a[k] <= x < a[k] + p.burstBytes <==> k % (p.cfg + 1) == (x - p.minAddr) / p.burstBytes
    ensures p.minAddr <= a[k] && a[k] + p.burstBytes <= p.minAddr + (p.cfg + 1) * p.burstBytes
  {
    var j := k % (p.cfg + 1);
    WalkPlace(p, a, k, j);
    InBlock(x - p.minAddr, j, p.burstBytes);
    InRegion(p, j);
  }
}
