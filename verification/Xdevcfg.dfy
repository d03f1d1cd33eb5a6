/** The bitstream writer of patches/xilinx_devcfg.c: xdevcfg_open and xdevcfg_write. */
module Xdevcfg {
  import opened Bytes
  import opened Lists

  /** The sync word as it comes in a bitstream that is to be written as it is, or word-swapped. */
  const NORMAL_SYNC: seq<byte> := [0x66, 0x55, 0x99, 0xAA]
  const SWAPPED_SYNC: seq<byte> := [0xAA, 0x99, 0x55, 0x66]

  predicate SyncAt(s: seq<byte>, i: nat) {
    i + 4 <= |s| && (s[i..i + 4] == NORMAL_SYNC || s[i..i + 4] == SWAPPED_SYNC)
  }

  /** The first sync word from i on that has at least one more byte behind it, or |s| - 4. */
  function FindSync(s: seq<byte>, i: nat := 0): (p: nat)
    requires i + 4 <= |s|
    ensures i <= p <= |s| - 4
    ensures p < |s| - 4 ==> SyncAt(s, p)
    ensures forall k :: i <= k < p ==> !SyncAt(s, k)
    decreases |s| - i
  {
    if i == |s| - 4 || SyncAt(s, i) then i else FindSync(s, i + 1)
  }

  /** n rounded down to whole words. */
  function Whole(n: nat): nat { n / 4 * 4 }

  /** Each whole word of s with its bytes reversed (swab32). */
  function SwapWords(s: seq<byte>): (r: seq<byte>)
    ensures |r| == Whole(|s|)
  {
    seq(Whole(|s|), n requires 0 <= n < Whole(|s|) => s[n / 4 * 4 + 3 - n % 4])
  }

  lemma SwapAt(s: seq<byte>, i: nat)
    requires i % 4 == 0 && i + 4 <= Whole(|s|)
    ensures var r := SwapWords(s);
      r[i] == s[i + 3] && r[i + 1] == s[i + 2] && r[i + 2] == s[i + 1] && r[i + 3] == s[i]
  {
  }

  lemma NextWord(i: nat, count: nat)
    requires i % 4 == 0 && count % 4 == 0 && i < count
    ensures i + 4 <= count && (i + 4) % 4 == 0
  {
  }

  /** A stream written in one go: its whole words, swapped or not. */
  function OneShot(s: seq<byte>, swap: bool): (r: seq<byte>)
    ensures |r| == Whole(|s|)
  {
    if swap then SwapWords(s) else s[..Whole(|s|)]
  }

  function Residue(s: seq<byte>): (r: seq<byte>)
    ensures |r| < 4
  {
    s[Whole(|s|)..]
  }

  lemma {:induction false} SwapIsInvolution(s: seq<byte>)
    ensures SwapWords(SwapWords(s)) == s[..Whole(|s|)]
  {
    var t := SwapWords(s);
    forall n | 0 <= n < |t| ensures SwapWords(t)[n] == s[n] {
      var m := n / 4 * 4 + 3 - n % 4;
      assert m / 4 == n / 4 && m % 4 == 3 - n % 4;
    }
  }

  // ------------------------------------------------------------------ the driver

  /** The state kept between writes, and the file position. */
  datatype Device = Device(swap: bool, residue: seq<byte>, pos: nat)

  /** xdevcfg_open. */
  const Opened: Device := Device(false, [], 0)

  /** What of `data` is written and with which word order: in the first write everything before
      the sync word, if one is found, is removed. */
  function Stripped(d: Device, data: seq<byte>): (seq<byte>, bool) {
    if d.pos == 0 && |data| > 4 && FindSync(data) != |data| - 4 then
      (data[FindSync(data)..], data[FindSync(data)..FindSync(data) + 4] == SWAPPED_SYNC)
    else (data, d.swap)
  }

  /** One successful write: the state after it and the bytes handed to the DMA. */
  function AfterWrite(d: Device, buf: seq<byte>): (Device, seq<byte>) {
    var (data, swap) := Stripped(d, d.residue + buf);
    (Device(swap, Residue(data), d.pos + |buf|), OneShot(data, swap))
  }

  lemma AfterStripped(d: Device, buf: seq<byte>, data: seq<byte>, swap: bool)
    requires Stripped(d, d.residue + buf) == (data, swap)
    ensures AfterWrite(d, buf) == (Device(swap, Residue(data), d.pos + |buf|), OneShot(data, swap))
  {
  }

  lemma SwapIgnoresResidue(s: seq<byte>)
    ensures SwapWords(s[..Whole(|s|)]) == SwapWords(s)
  {
  }

  class Driver {
    const residueBuf: array<byte>
    var residueLen: nat
    var endianSwap: bool
    var pos: nat

    ghost predicate Valid()
      reads this
    {
      residueBuf.Length == 3 && residueLen <= 3
    }

    function State(): Device
      reads this, residueBuf
      requires Valid()
    {
      Device(endianSwap, residueBuf[..residueLen], pos)
    }

    constructor Open()
      ensures Valid() && fresh(residueBuf) && State() == Opened
    {
      residueBuf := new byte[3];
      residueLen, endianSwap, pos := 0, false, 0;
    }

    /** The header search: the offset it stops at, and the word order if it found a sync word. */
    method Search(kbuf: array<byte>, count: nat) returns (i: nat, swap: bool)
      requires 4 < count <= kbuf.Length
      ensures i == FindSync(kbuf[..count])
      ensures i < count - 4 ==> (swap <==> kbuf[..count][i..i + 4] == SWAPPED_SYNC)
    {
      ghost var s := kbuf[..count];
      i, swap := 0, false;
      while i < count - 4
        invariant 0 <= i <= count - 4
        invariant FindSync(s, i) == FindSync(s)
      {
        assert s[i..i + 4] == kbuf[i..i + 4];
        if kbuf[i..i + 4] == NORMAL_SYNC {
          return i, false;
        }
        if kbuf[i..i + 4] == SWAPPED_SYNC {
          return i, true;
        }
        i := i + 1;
      }
    }

    /** *p = swab32(*p). */
    method Swab(kbuf: array<byte>, i: nat)
      requires i + 4 <= kbuf.Length
      modifies kbuf
      ensures kbuf[i] == old(kbuf[i + 3]) && kbuf[i + 1] == old(kbuf[i + 2])
      ensures kbuf[i + 2] == old(kbuf[i + 1]) && kbuf[i + 3] == old(kbuf[i])
      ensures forall k :: 0 <= k < kbuf.Length && !(i <= k < i + 4) ==> kbuf[k] == old(kbuf[k])
    {
      kbuf[i], kbuf[i + 1], kbuf[i + 2], kbuf[i + 3] := kbuf[i + 3], kbuf[i + 2], kbuf[i + 1], kbuf[i];
    }

    /** One step of the loop below. */
    method SwabWord(kbuf: array<byte>, i: nat, ghost s: seq<byte>, ghost r: seq<byte>)
      requires i % 4 == 0 && i + 4 <= |s| && |s| % 4 == 0 && |s| <= kbuf.Length
      requires r == SwapWords(s)
      requires kbuf[i] == s[i] && kbuf[i + 1] == s[i + 1] && kbuf[i + 2] == s[i + 2] && kbuf[i + 3] == s[i + 3]
      modifies kbuf
      ensures kbuf[i] == r[i] && kbuf[i + 1] == r[i + 1] && kbuf[i + 2] == r[i + 2] && kbuf[i + 3] == r[i + 3]
      ensures forall k :: 0 <= k < kbuf.Length && !(i <= k < i + 4) ==> kbuf[k] == old(kbuf[k])
    {
      SwapAt(s, i);
      Swab(kbuf, i);
    }

    /** The loop that fixes up the word order in place. */
    method Fixup(kbuf: array<byte>, count: nat)
      requires count % 4 == 0 && count <= kbuf.Length
      modifies kbuf
      ensures kbuf[..count] == SwapWords(old(kbuf[..count]))
      ensures forall k :: count <= k < kbuf.Length ==> kbuf[k] == old(kbuf[k])
    {
      ghost var s, r := kbuf[..count], SwapWords(kbuf[..count]);
      var i := 0;
      while i < count
        invariant 0 <= i <= count && i % 4 == 0
        invariant forall k :: 0 <= k < i ==> kbuf[k] == r[k]
        invariant forall k :: i <= k < kbuf.Length ==> kbuf[k] == old(kbuf[k])
      {
        NextWord(i, count);
        SwabWord(kbuf, i, s, r);
        i := i + 4;
      }
      assert kbuf[..count] == r;
    }

    /** Stragglers from last time, then the user data. */
    method Collect(buf: seq<byte>) returns (kbuf: array<byte>)
      requires Valid()
      ensures fresh(kbuf) && kbuf[..] == State().residue + buf
    {
      kbuf := new byte[residueLen + |buf|];
      forall k | 0 <= k < residueLen {
        kbuf[k] := residueBuf[k];
      }
      forall k | 0 <= k < |buf| {
        kbuf[residueLen + k] := buf[k];
      }
    }

    /** memmove: what is at i and behind it goes to the beginning. */
    method MoveDown(kbuf: array<byte>, i: nat)
      requires i <= kbuf.Length
      modifies kbuf
      ensures kbuf[..kbuf.Length - i] == old(kbuf[..])[i..]
    {
      forall k | 0 <= k < kbuf.Length - i {
        kbuf[k] := kbuf[i + k];
      }
    }

    /** Removes the header of the first block, aligning the data on a word boundary. */
    method Strip(kbuf: array<byte>) returns (count: nat)
      requires Valid() && kbuf != residueBuf
      modifies this`endianSwap, kbuf
      ensures count <= kbuf.Length
      ensures (kbuf[..count], endianSwap) == Stripped(old(State()), old(kbuf[..]))
    {
      ghost var data := kbuf[..];
      count := kbuf.Length;
      assert kbuf[..count] == data;
      if pos == 0 && count > 4 {
        var i, swap := Search(kbuf, count);
        if i < count - 4 {
          endianSwap := swap;
        }
        if i != count - 4 {
          MoveDown(kbuf, i);
          count := count - i;
        }
      }
    }

    /** Saves the bytes behind the last whole word for next time. */
    method SaveStragglers(kbuf: array<byte>, total: nat) returns (count: nat)
      requires Valid() && kbuf != residueBuf && total <= kbuf.Length
      modifies this`residueLen, residueBuf
      ensures Valid() && count == Whole(total) && State().residue == Residue(kbuf[..total])
    {
      residueLen := total % 4;
      count := total - residueLen;
      forall k | 0 <= k < residueLen {
        residueBuf[k] := kbuf[count + k];
      }
    }

    /** The rest of the write: stragglers aside, word order fixed up, length in words. */
    method Transfer(kbuf: array<byte>, total: nat) returns (dma: seq<byte>, transferLength: nat)
      requires Valid() && kbuf != residueBuf && total <= kbuf.Length
      modifies this`residueLen, residueBuf, kbuf
      ensures Valid() && State().residue == Residue(old(kbuf[..total]))
      ensures dma == OneShot(old(kbuf[..total]), endianSwap)
      ensures 4 * transferLength == |dma|
    {
      ghost var data := kbuf[..total];
      var count := SaveStragglers(kbuf, total);
      assert kbuf[..count] == data[..count];
      SwapIgnoresResidue(data);
      if endianSwap {
        Fixup(kbuf, count);
      }
      if count % 4 != 0 {
        assert false;
      }
      transferLength := count / 4;
      dma := kbuf[..count];
    }

    /** What is done with the collected data. */
    method Load(kbuf: array<byte>, ghost d: Device, ghost buf: seq<byte>) returns (dma: seq<byte>, transferLength: nat)
      requires Valid() && kbuf != residueBuf && State() == d && kbuf[..] == d.residue + buf
      modifies this`residueLen, this`endianSwap, residueBuf, kbuf
      ensures Valid()
      ensures (State().(pos := d.pos + |buf|), dma) == AfterWrite(d, buf)
      ensures 4 * transferLength == |dma|
    {
      var total := Strip(kbuf);
      AfterStripped(d, buf, kbuf[..total], endianSwap);
      dma, transferLength := Transfer(kbuf, total);
    }

    /** xdevcfg_write when every step succeeds: returns the bytes behind the DMA source address
        and the number of words it is told to transfer. */
    method Write(buf: seq<byte>) returns (dma: seq<byte>, transferLength: nat)
      requires Valid()
      modifies this, residueBuf
      ensures Valid()
      ensures (State(), dma) == AfterWrite(old(State()), buf)
      ensures 4 * transferLength == |dma|
    {
      ghost var d := State();
      var kbuf := Collect(buf);
      dma, transferLength := Load(kbuf, d, buf);
      pos := pos + |buf|;
    }
  }

  // ---------------------------------------------------------------- runs

  /** Writes one after the other: the state after them and all bytes handed to the DMA. */
  function WriteAll(d: Device, bufs: seq<seq<byte>>): (Device, seq<byte>)
    decreases |bufs|
  {
    if bufs == [] then (d, [])
    else
      var (d1, dma) := AfterWrite(d, bufs[0]);
      var (d2, more) := WriteAll(d1, bufs[1..]);
      (d2, dma + more)
  }

  lemma WholeBehind(w: nat, n: nat)
    requires w % 4 == 0
    ensures Whole(w) == w && Whole(w + n) == w + Whole(n)
  {
  }

  /** Where byte n of a swapped stream comes from does not depend on whole words in front. */
  lemma SourceBehind(w: nat, n: nat)
    requires w % 4 == 0
    ensures (w + n) / 4 * 4 + 3 - (w + n) % 4 == w + (n / 4 * 4 + 3 - n % 4)
  {
  }

  lemma SwapConcat(a: seq<byte>, b: seq<byte>)
    requires |a| % 4 == 0
    ensures SwapWords(a + b) == SwapWords(a) + SwapWords(b)
  {
    var w := |a|;
    WholeBehind(w, |b|);
    forall n | 0 <= n < Whole(|b|) ensures SwapWords(a + b)[w + n] == SwapWords(b)[n] {
      SourceBehind(w, n);
    }
    forall n | 0 <= n < w ensures SwapWords(a + b)[n] == SwapWords(a)[n] {
    }
  }

  /** Splitting off whole words in front does not change the words behind. */
  lemma OneShotConcat(a: seq<byte>, b: seq<byte>, swap: bool)
    requires |a| % 4 == 0
    ensures OneShot(a + b, swap) == OneShot(a, swap) + OneShot(b, swap)
    ensures Residue(a + b) == Residue(b)
  {
    WholeBehind(|a|, |b|);
    SwapConcat(a, b);
    assert (a + b)[..|a| + Whole(|b|)] == a + b[..Whole(|b|)];
    assert (a + b)[|a| + Whole(|b|)..] == b[Whole(|b|)..];
  }

  /** The whole words of a stream and then those of its residue with what follows are the
      whole words of all of it. */
  lemma OneShotAppend(s: seq<byte>, rest: seq<byte>, swap: bool)
    ensures OneShot(s + rest, swap) == OneShot(s, swap) + OneShot(Residue(s) + rest, swap)
    ensures Residue(s + rest) == Residue(Residue(s) + rest)
  {
    var front := s[..Whole(|s|)];
    OneShotConcat(front, Residue(s) + rest, swap);
    SwapIgnoresResidue(s);
    assert s + rest == front + (Residue(s) + rest);
  }

  lemma LaterWrite(d: Device, buf: seq<byte>)
    requires d.pos > 0
    ensures AfterWrite(d, buf)
         == (Device(d.swap, Residue(d.residue + buf), d.pos + |buf|), OneShot(d.residue + buf, d.swap))
  {
  }

  /** The state and the bytes handed to the DMA are those of the stream in one go. */
  ghost predicate Delivers(result: (Device, seq<byte>), stream: seq<byte>, swap: bool) {
    result.1 == OneShot(stream, swap) && result.0.residue == Residue(stream) && result.0.swap == swap
  }

  lemma DeliversMore(first: seq<byte>, rest: seq<byte>, result: (Device, seq<byte>), swap: bool)
    requires Delivers(result, Residue(first) + rest, swap)
    ensures Delivers((result.0, OneShot(first, swap) + result.1), first + rest, swap)
  {
    OneShotAppend(first, rest, swap);
  }

  /** Once the file position has moved, any split of the data gives the one-shot result. */
  lemma {:induction false} LaterWrites(d: Device, bufs: seq<seq<byte>>)
    requires d.pos > 0 && |d.residue| < 4
    ensures Delivers(WriteAll(d, bufs), d.residue + Flatten(bufs), d.swap)
    decreases |bufs|
  {
    if bufs == [] {
      assert d.residue + [] == d.residue;
    } else {
      var data, rest := d.residue + bufs[0], Flatten(bufs[1..]);
      LaterWrite(d, bufs[0]);
      var d1 := AfterWrite(d, bufs[0]).0;
      LaterWrites(d1, bufs[1..]);
      DeliversMore(data, rest, WriteAll(d1, bufs[1..]), d.swap);
      FlattenCons(bufs[0], bufs[1..]);
      assert bufs == [bufs[0]] + bufs[1..];
      Associates(d.residue, bufs[0], rest);
    }
  }

  /** Empty writes at the start leave the device as it was opened, and are no first write yet. */
  function DropEmpty(bufs: seq<seq<byte>>): (rest: seq<seq<byte>>)
    ensures rest == [] || rest[0] != []
    decreases |bufs|
  {
    if bufs == [] || bufs[0] != [] then bufs else DropEmpty(bufs[1..])
  }

  lemma {:induction false} EmptyWritesAreNothing(bufs: seq<seq<byte>>)
    ensures WriteAll(Opened, bufs) == WriteAll(Opened, DropEmpty(bufs))
    ensures Flatten(bufs) == Flatten(DropEmpty(bufs))
    decreases |bufs|
  {
    if bufs != [] && bufs[0] == [] {
      EmptyWritesAreNothing(bufs[1..]);
      FlattenCons([], bufs[1..]);
      assert bufs == [[]] + bufs[1..];
      assert AfterWrite(Opened, []) == (Opened, []);
      assert [] + WriteAll(Opened, bufs[1..]).1 == WriteAll(Opened, bufs[1..]).1;
    }
  }

  lemma FirstWriteStrips(first: seq<byte>, bufs: seq<seq<byte>>)
    requires first != []
    ensures
      var (stripped, swap) := Stripped(Opened, first);
      Delivers(WriteAll(Opened, [first] + bufs), stripped + Flatten(bufs), swap)
  {
    var all := [first] + bufs;
    assert all[0] == first && all[1..] == bufs;
    assert Opened.residue + first == first;
    var d1 := AfterWrite(Opened, first).0;
    var (stripped, swap) := Stripped(Opened, first);
    LaterWrites(d1, bufs);
    DeliversMore(stripped, Flatten(bufs), WriteAll(d1, bufs), swap);
  }

  /** What a fresh device makes of any writes: the one-shot transform of the stream without its
      header, if the first non-empty write holds a sync word and at least one more byte, and of
      the whole stream unswapped if it does not. How the rest is split does not matter. */
  lemma SplitsDoNotMatter(bufs: seq<seq<byte>>)
    ensures
      var rest := DropEmpty(bufs);
      if rest == [] then WriteAll(Opened, bufs) == (Opened, [])
      else
        var (stripped, swap) := Stripped(Opened, rest[0]);
        Delivers(WriteAll(Opened, bufs), stripped + Flatten(rest[1..]), swap)
  {
    EmptyWritesAreNothing(bufs);
    var rest := DropEmpty(bufs);
    if rest != [] {
      assert rest == [rest[0]] + rest[1..];
      FirstWriteStrips(rest[0], rest[1..]);
    }
  }

  /** The first write reaches at least one byte past the sync word at p. */
  predicate Reaches(bufs: seq<seq<byte>>, p: nat) {
    DropEmpty(bufs) != [] && p + 4 < |DropEmpty(bufs)[0]|
  }

  predicate FirstSyncAt(file: seq<byte>, p: nat) {
    SyncAt(file, p) && forall k :: 0 <= k < p ==> !SyncAt(file, k)
  }

  lemma FirstIsPrefix(file: seq<byte>, bufs: seq<seq<byte>>)
    requires Flatten(bufs) == file && file != []
    ensures var rest := DropEmpty(bufs);
      rest != [] && file == rest[0] + Flatten(rest[1..])
  {
    var rest := DropEmpty(bufs);
    EmptyWritesAreNothing(bufs);
    assert rest == [rest[0]] + rest[1..];
    FlattenCons(rest[0], rest[1..]);
  }

  lemma FindInPrefix(file: seq<byte>, p: nat, first: seq<byte>)
    requires first <= file && p + 4 < |first| && FirstSyncAt(file, p)
    ensures FindSync(first) == p && first[p..p + 4] == file[p..p + 4]
  {
    forall k | 0 <= k <= p ensures SyncAt(first, k) <==> SyncAt(file, k) {
      assert first[k..k + 4] == file[k..k + 4];
    }
  }

  lemma StripInPrefix(file: seq<byte>, p: nat, first: seq<byte>)
    requires first <= file && p + 4 < |first| && FirstSyncAt(file, p)
    ensures Stripped(Opened, first) == (first[p..], file[p..p + 4] == SWAPPED_SYNC)
  {
    FindInPrefix(file, p, first);
  }

  lemma DropInFront(a: seq<byte>, b: seq<byte>, p: nat)
    requires p <= |a|
    ensures a[p..] + b == (a + b)[p..]
  {
  }

  lemma ReachedHeaderIsStripped(file: seq<byte>, p: nat, bufs: seq<seq<byte>>)
    requires Flatten(bufs) == file && FirstSyncAt(file, p) && Reaches(bufs, p)
    ensures Delivers(WriteAll(Opened, bufs), file[p..], file[p..p + 4] == SWAPPED_SYNC)
  {
    var rest := DropEmpty(bufs);
    FirstIsPrefix(file, bufs);
    StripInPrefix(file, p, rest[0]);
    SplitsDoNotMatter(bufs);
    DropInFront(rest[0], Flatten(rest[1..]), p);
  }

  lemma NothingToFind(file: seq<byte>, p: nat, first: seq<byte>)
    requires first <= file && FirstSyncAt(file, p) && |first| <= p + 4
    ensures Stripped(Opened, first) == (first, false)
  {
    if |first| > 4 {
      forall k | 0 <= k < |first| - 4 ensures !SyncAt(first, k) {
        assert first[k..k + 4] == file[k..k + 4] && !SyncAt(file, k);
      }
    }
  }

  /** Otherwise nothing is ever stripped or swapped. */
  lemma UnreachedHeaderStays(file: seq<byte>, p: nat, bufs: seq<seq<byte>>)
    requires Flatten(bufs) == file && FirstSyncAt(file, p) && !Reaches(bufs, p)
    ensures Delivers(WriteAll(Opened, bufs), file, false)
  {
    var rest := DropEmpty(bufs);
    FirstIsPrefix(file, bufs);
    SplitsDoNotMatter(bufs);
    if rest != [] {
      NothingToFind(file, p, rest[0]);
    }
  }

  /** The stream without a header can be told from the one with it by its length alone. */
  lemma DifferentLengths(file: seq<byte>, p: nat)
    requires 0 < p <= |file|
    ensures forall r, swap :: Delivers(r, file, false) ==> !Delivers(r, file[p..], swap)
  {
    forall r, swap | Delivers(r, file, false) ensures !Delivers(r, file[p..], swap) {
      assert |r.1| + |r.0.residue| == |file|;
      assert Delivers(r, file[p..], swap) ==> |r.1| + |r.0.residue| == |file| - p;
    }
  }

  /** For a file whose first sync word is at p, the output is the one-shot transform of the file
      from p on, word-swapped when the sync word is the swapped one, exactly when the first
      write reaches past that word - or there is nothing to strip and nothing to swap. */
  lemma FileIsWrittenOneShot(file: seq<byte>, p: nat, bufs: seq<seq<byte>>)
    requires Flatten(bufs) == file && FirstSyncAt(file, p)
    ensures Delivers(WriteAll(Opened, bufs), file[p..], file[p..p + 4] == SWAPPED_SYNC)
       <==> Reaches(bufs, p) || (p == 0 && file[..4] == NORMAL_SYNC)
  {
    if Reaches(bufs, p) {
      ReachedHeaderIsStripped(file, p, bufs);
    } else {
      UnreachedHeaderStays(file, p, bufs);
      if p > 0 {
        DifferentLengths(file, p);
      } else {
        assert file[p..] == file && file[p..p + 4] == file[..4];
      }
    }
  }

  lemma SyncFirst(r: (Device, seq<byte>), s: seq<byte>)
    requires |s| > 4 && SyncAt(s, 0) && Delivers(r, s, s[0..4] == SWAPPED_SYNC)
    ensures |r.1| >= 4 && r.1[..4] == [0x66, 0x55, 0x99, 0xAA]
  {
    if s[0..4] == SWAPPED_SYNC {
      SwapAt(s, 0);
      assert s[0] == s[0..4][0] && s[1] == s[0..4][1] && s[2] == s[0..4][2] && s[3] == s[0..4][3];
    } else {
      assert r.1[..4] == s[0..4];
    }
  }

  /** And what the DMA gets of it begins with the sync word as the device wants it. */
  lemma SyncComesFirst(file: seq<byte>, p: nat, bufs: seq<seq<byte>>)
    requires Flatten(bufs) == file && FirstSyncAt(file, p) && Reaches(bufs, p)
    ensures var dma := WriteAll(Opened, bufs).1;
      |dma| >= 4 && dma[..4] == [0x66, 0x55, 0x99, 0xAA]
  {
    ReachedHeaderIsStripped(file, p, bufs);
    FirstIsPrefix(file, bufs);
    assert file[p..][0..4] == file[p..p + 4];
    SyncFirst(WriteAll(Opened, bufs), file[p..]);
  }
}
