/** What the words behind the ports of cores/axi_hub.v hold after a sequence of write beats. */
module HubRams {
  import opened AxiMap

  /** A write beat as it arrives at its port: word address, byte enables and data. */
  datatype Store = Store(port: nat, at: Place, strb: bv4, data: Word)

  /** A word after these stores to the RAMs. */
  function Stored(start: Word, port: nat, at: nat, stores: seq<Store>): Word {
    if stores == [] then start
    else
      var last, word := stores[|stores| - 1], Stored(start, port, at, stores[..|stores| - 1]);
      if last.port == port && last.at == at then Merge(word, last.data, last.strb) else word
  }

  lemma StoredSnoc(start: Word, port: nat, at: nat, stores: seq<Store>, store: Store)
    ensures
      var word := Stored(start, port, at, stores);
      Stored(start, port, at, stores + [store])
      == if store.port == port && store.at == at then Merge(word, store.data, store.strb) else word
  {
    assert (stores + [store])[..|stores|] == stores;
  }

  /** A byte of a word, in its lane, and whether a strobe has it. */
  function Byte(word: Word, lane: nat): Word
    requires lane < 4
  {
    if lane == 0 then word & 0xFF
    else if lane == 1 then word & 0xFF00
    else if lane == 2 then word & 0xFF_0000
    else word & 0xFF00_0000
  }

  predicate Strobes(strb: bv4, lane: nat)
    requires lane < 4
  {
    if lane == 0 then strb & 1 != 0
    else if lane == 1 then strb & 2 != 0
    else if lane == 2 then strb & 4 != 0
    else strb & 8 != 0
  }

  predicate Hits(store: Store, port: nat, at: nat, lane: nat)
    requires lane < 4
  {
    store.port == port && store.at == at && Strobes(store.strb, lane)
  }

  /** Store n is the last one that writes this byte. */
  predicate WritesLast(stores: seq<Store>, n: nat, port: nat, at: nat, lane: nat)
    requires lane < 4
  {
    && n < |stores| && Hits(stores[n], port, at, lane)
    && forall m :: n < m < |stores| ==> !Hits(stores[m], port, at, lane)
  }

  /** No store writes it. */
  predicate Misses(stores: seq<Store>, port: nat, at: nat, lane: nat)
    requires lane < 4
  {
    forall m :: 0 <= m < |stores| ==> !Hits(stores[m], port, at, lane)
  }

  /** The byte of `word` is the one written last, or that of `start` if none was written. */
  ghost predicate LastByte(word: Word, start: Word, port: nat, at: nat, stores: seq<Store>, lane: nat)
    requires lane < 4
  {
    && (forall n: nat :: WritesLast(stores, n, port, at, lane) ==> Byte(word, lane) == Byte(stores[n].data, lane))
    && (Misses(stores, port, at, lane) ==> Byte(word, lane) == Byte(start, lane))
  }

  /** Every byte of `word` is the one written last. */
  ghost predicate LastWritten(word: Word, start: Word, port: nat, at: nat, stores: seq<Store>) {
    forall lane :: 0 <= lane < 4 ==> LastByte(word, start, port, at, stores, lane)
  }

  lemma MergedLane(word: Word, data: Word, strb: bv4, lane: nat)
    requires lane < 4
    ensures Byte(Merge(word, data, strb), lane) == Byte(if Strobes(strb, lane) then data else word, lane)
  {
    MergeLanes(word, data, strb);
  }

  lemma HitEnds(stores: seq<Store>, store: Store, n: nat, port: nat, at: nat, lane: nat)
    requires lane < 4 && Hits(store, port, at, lane) && WritesLast(stores + [store], n, port, at, lane)
    ensures n == |stores|
  {
    assert (stores + [store])[|stores|] == store;
  }

  lemma MissKeeps(stores: seq<Store>, store: Store, n: nat, port: nat, at: nat, lane: nat)
    requires lane < 4 && !Hits(store, port, at, lane) && WritesLast(stores + [store], n, port, at, lane)
    ensures WritesLast(stores, n, port, at, lane) && (stores + [store])[n] == stores[n]
  {
    var more := stores + [store];
    assert more[|stores|] == store;
    forall m | n < m < |stores| ensures !Hits(stores[m], port, at, lane) {
      assert more[m] == stores[m];
    }
  }

  lemma MissesKeep(stores: seq<Store>, store: Store, port: nat, at: nat, lane: nat)
    requires lane < 4 && Misses(stores + [store], port, at, lane)
    ensures !Hits(store, port, at, lane) && Misses(stores, port, at, lane)
  {
    var more := stores + [store];
    assert more[|stores|] == store;
    forall n | 0 <= n < |stores| ensures !Hits(stores[n], port, at, lane) {
      assert more[n] == stores[n];
    }
  }

  lemma StoredLane(word: Word, next: Word, start: Word, port: nat, at: nat, stores: seq<Store>, store: Store, lane: nat)
    requires lane < 4 && LastByte(word, start, port, at, stores, lane)
    requires Byte(next, lane) == Byte(if Hits(store, port, at, lane) then store.data else word, lane)
    ensures LastByte(next, start, port, at, stores + [store], lane)
  {
    var more := stores + [store];
    forall n: nat | WritesLast(more, n, port, at, lane) ensures Byte(next, lane) == Byte(more[n].data, lane) {
      if Hits(store, port, at, lane) {
        HitEnds(stores, store, n, port, at, lane);
      } else {
        MissKeeps(stores, store, n, port, at, lane);
      }
    }
    if Misses(more, port, at, lane) {
      MissesKeep(stores, store, port, at, lane);
    }
  }

  /** The fold of the stores is what a RAM is for: it keeps of each byte what was written last. */
  lemma {:induction false} StoredIsLastWritten(start: Word, port: nat, at: nat, stores: seq<Store>)
    ensures LastWritten(Stored(start, port, at, stores), start, port, at, stores)
  {
    if stores != [] {
      var front, last := stores[..|stores| - 1], stores[|stores| - 1];
      StoredIsLastWritten(start, port, at, front);
      assert stores == front + [last];
      StoredSnoc(start, port, at, front, last);
      var word, next := Stored(start, port, at, front), Stored(start, port, at, stores);
      forall lane | 0 <= lane < 4 ensures LastByte(next, start, port, at, stores, lane) {
        MergedLane(word, last.data, last.strb, lane);
        StoredLane(word, next, start, port, at, front, last, lane);
      }
    }
  }
}
