/** How handler_ep6 in projects/sdr_receiver_hpsdr/server/sdr-receiver-hpsdr.c builds its
    packets in place: one buffer of 25 datagrams, filled by memcpy at computed offsets. */
module Ep6Handler {
  import opened Bytes
  import opened Ep6Framing

  /** Where frame i goes. */
  function Place(i: nat): nat { i * 516 - i % 2 * 4 + 8 }

  /** The frames tile bytes 8 to 1032 of their datagrams, and so miss the sync words, the
      sequence numbers and each other. */
  lemma PlacesTile(k: nat)
    ensures Place(2 * k) == DATAGRAM * k + 8 && Place(2 * k + 1) == Place(2 * k) + FRAME
    ensures Place(2 * k + 1) + FRAME == DATAGRAM * (k + 1)
  {
  }

  lemma PlacesApart(i: nat, j: nat)
    requires i < j
    ensures Place(i) + FRAME <= Place(j)
  {
  }

  lemma PlaceMissesHeads(i: nat, k: nat)
    ensures DATAGRAM * k + 8 <= Place(i) || Place(i) + FRAME <= DATAGRAM * k
  {
    PlacesTile(i / 2);
  }

  // ------------------------------------------------------------------ the buffer

  predicate IsBuffer(buf: seq<byte>) { |buf| == ROOM * DATAGRAM }

  predicate SyncedTo(buf: seq<byte>, count: nat)
    requires IsBuffer(buf) && count <= ROOM
  {
    forall k :: 0 <= k < count ==> buf[DATAGRAM * k..DATAGRAM * k + 4] == SYNC
  }

  predicate Synced(buf: seq<byte>)
    requires IsBuffer(buf)
  {
    SyncedTo(buf, ROOM)
  }

  /** The first `count` sequence numbers are in place. */
  predicate Numbered(buf: seq<byte>, counter: nat, count: nat)
    requires IsBuffer(buf) && count <= ROOM
  {
    forall k :: 0 <= k < count ==> buf[DATAGRAM * k + 4..DATAGRAM * k + 8] == BigEndian(Later(counter, k))
  }

  /** The first `count` frames are in place. */
  predicate Framed(buf: seq<byte>, p: Pass, count: nat)
    requires IsBuffer(buf) && p.Valid() && count <= 2 * p.m
  {
    forall i :: 0 <= i < count ==> buf[Place(i)..Place(i) + FRAME] == p.FrameAt(i)
  }

  function DatagramIn(buf: seq<byte>, k: nat): seq<byte>
    requires IsBuffer(buf) && k < ROOM
  {
    buf[DATAGRAM * k..DATAGRAM * k + DATAGRAM]
  }

  lemma SyncKeeps(buf: seq<byte>, k: nat)
    requires IsBuffer(buf) && k < ROOM && SyncedTo(buf, k)
    ensures SyncedTo(Patch(buf, DATAGRAM * k, SYNC), k + 1)
  {
    PatchHits(buf, DATAGRAM * k, SYNC);
    forall j | 0 <= j < k ensures Patch(buf, DATAGRAM * k, SYNC)[DATAGRAM * j..DATAGRAM * j + 4] == SYNC {
      PatchKeeps(buf, DATAGRAM * k, SYNC, DATAGRAM * j, DATAGRAM * j + 4);
    }
  }

  lemma NumberKeeps(buf: seq<byte>, counter: nat, k: nat)
    requires IsBuffer(buf) && Synced(buf) && k < ROOM && Numbered(buf, counter, k)
    ensures
      var buf' := Patch(buf, DATAGRAM * k + 4, BigEndian(Later(counter, k)));
      Synced(buf') && Numbered(buf', counter, k + 1)
  {
    var at, b := DATAGRAM * k + 4, BigEndian(Later(counter, k));
    PatchHits(buf, at, b);
    forall j | 0 <= j < ROOM ensures Patch(buf, at, b)[DATAGRAM * j..DATAGRAM * j + 4] == SYNC {
      PatchKeeps(buf, at, b, DATAGRAM * j, DATAGRAM * j + 4);
    }
    forall j | 0 <= j < k
      ensures Patch(buf, at, b)[DATAGRAM * j + 4..DATAGRAM * j + 8] == BigEndian(Later(counter, j))
    {
      PatchKeeps(buf, at, b, DATAGRAM * j + 4, DATAGRAM * j + 8);
    }
  }

  lemma FrameKeeps(buf: seq<byte>, p: Pass, i: nat)
    requires IsBuffer(buf) && p.Valid() && i < 2 * p.m && Place(i) + FRAME <= |buf|
    requires Synced(buf) && Numbered(buf, p.counter, p.m) && Framed(buf, p, i)
    ensures
      var buf' := Patch(buf, Place(i), p.FrameAt(i));
      Synced(buf') && Numbered(buf', p.counter, p.m) && Framed(buf', p, i + 1)
  {
    var at, b := Place(i), p.FrameAt(i);
    PatchHits(buf, at, b);
    forall j | 0 <= j < ROOM ensures Patch(buf, at, b)[DATAGRAM * j..DATAGRAM * j + 4] == SYNC {
      PlaceMissesHeads(i, j);
      PatchKeeps(buf, at, b, DATAGRAM * j, DATAGRAM * j + 4);
    }
    forall j | 0 <= j < p.m
      ensures Patch(buf, at, b)[DATAGRAM * j + 4..DATAGRAM * j + 8] == BigEndian(Later(p.counter, j))
    {
      PlaceMissesHeads(i, j);
      PatchKeeps(buf, at, b, DATAGRAM * j + 4, DATAGRAM * j + 8);
    }
    forall j | 0 <= j < i ensures Patch(buf, at, b)[Place(j)..Place(j) + FRAME] == p.FrameAt(j) {
      PlacesApart(j, i);
      PatchKeeps(buf, at, b, Place(j), Place(j) + FRAME);
    }
  }

  lemma Assembled(buf: seq<byte>, p: Pass, k: nat)
    requires IsBuffer(buf) && p.Valid() && k < p.m
    requires Synced(buf) && Numbered(buf, p.counter, p.m) && Framed(buf, p, 2 * p.m)
    ensures DatagramIn(buf, k) == p.DatagramAt(k)
  {
    PlacesTile(k);
    var lo := DATAGRAM * k;
    assert buf[Place(2 * k)..Place(2 * k) + FRAME] == p.FrameAt(2 * k);
    assert buf[Place(2 * k + 1)..Place(2 * k + 1) + FRAME] == p.FrameAt(2 * k + 1);
    assert DatagramIn(buf, k)
        == buf[lo..lo + 4] + buf[lo + 4..lo + 8] + buf[lo + 8..lo + 520] + buf[lo + 520..lo + 1032];
  }

  lemma PlaceFits(p: Pass, i: nat)
    requires p.Valid() && i < 2 * p.m
    ensures Place(i) + FRAME <= ROOM * DATAGRAM
  {
  }

  /** Writing a sample over the zeros behind the ones before it. */
  lemma NextSample(header: seq<byte>, front: seq<byte>, sample: seq<byte>, z: nat)
    requires |sample| + 2 <= z
    ensures Patch(header + (front + Zeros(z)), |header| + |front|, sample)
         == header + (front + sample + [0, 0] + Zeros(z - |sample| - 2))
  {
  }

  lemma PayloadUnfolds(data: seq<byte>, off: nat, j: nat, r: Receivers, t: nat)
    requires FitsFrame(j + 1, r) && off + SAMPLE * (j + 1) + SPARE <= |data| && t == Times(j, Size(r))
    ensures t + Size(r) <= PAYLOAD && |Samples(data, off, j, r)| == t
    ensures Payload(data, off, j, r) == Samples(data, off, j, r) + Zeros(PAYLOAD - t)
    ensures Payload(data, off, j + 1, r)
         == Samples(data, off, j, r) + Sample(data, off + SAMPLE * j, r) + [0, 0] + Zeros(PAYLOAD - t - 6 * r - 2)
  {
  }

  lemma PayloadNext(h: seq<byte>, data: seq<byte>, off: nat, j: nat, r: Receivers)
    requires |h| == 8 && FitsFrame(j + 1, r) && FitsFrame(j, r) && off + SAMPLE * (j + 1) + SPARE <= |data|
    requires 8 + Times(j, Size(r)) + 6 * r <= FRAME
    ensures Patch(h + Payload(data, off, j, r), 8 + Times(j, Size(r)), Sample(data, off + SAMPLE * j, r))
         == h + Payload(data, off, j + 1, r)
  {
    var front, sample, t := Samples(data, off, j, r), Sample(data, off + SAMPLE * j, r), Times(j, Size(r));
    PayloadUnfolds(data, off, j, r, t);
    NextSample(h, front, sample, PAYLOAD - t);
  }

  lemma SampleStep(was: seq<byte>, at: nat, h: seq<byte>, data: seq<byte>, off: nat, j: nat, r: Receivers, pointer: nat)
    requires |h| == 8 && FitsFrame(j + 1, r) && FitsFrame(j, r) && off + SAMPLE * (j + 1) + SPARE <= |data|
    requires at + FRAME <= |was| && pointer == at + (8 + Times(j, Size(r)))
    ensures pointer + 6 * r <= |was|
    ensures Patch(Patch(was, at, h + Payload(data, off, j, r)), pointer, Sample(data, off + SAMPLE * j, r))
         == Patch(was, at, h + Payload(data, off, j + 1, r))
  {
    PatchInside(was, at, h + Payload(data, off, j, r), 8 + Times(j, Size(r)), Sample(data, off + SAMPLE * j, r));
    PayloadNext(h, data, off, j, r);
  }

  class Handler {
    const buffer: array<byte>
    var counter: nat
    var headerOffset: nat

    ghost predicate Valid()
      reads this, buffer
    {
      IsBuffer(buffer[..]) && Synced(buffer[..]) && counter < 0x1_0000_0000 && headerOffset < 5
    }

    /** memcpy or memset. */
    method Copy(at: nat, bytes: seq<byte>)
      requires at + |bytes| <= buffer.Length
      modifies buffer
      ensures buffer[..] == Patch(old(buffer[..]), at, bytes)
    {
      forall k | 0 <= k < |bytes| {
        buffer[at + k] := bytes[k];
      }
    }

    constructor ()
      ensures Valid() && fresh(buffer) && counter == 0 && headerOffset == 0
    {
      buffer := new byte[ROOM * DATAGRAM];
      counter, headerOffset := 0, 0;
      new;
      var i := 0;
      while i < ROOM
        invariant 0 <= i <= ROOM && fresh(buffer) && counter == 0 && headerOffset == 0
        invariant IsBuffer(buffer[..]) && SyncedTo(buffer[..], i)
      {
        SyncKeeps(buffer[..], i);
        Copy(DATAGRAM * i, SYNC);
        i := i + 1;
      }
    }

    /** One round of the inner loop: sample j. */
    method FillSample(ghost was: seq<byte>, ghost at: nat, ghost h: seq<byte>, ghost off: nat, ghost j: nat,
                      pointer: nat, data: seq<byte>, offset: nat, r: Receivers)
      requires |h| == 8 && |was| == buffer.Length && at + FRAME <= |was|
      requires FitsFrame(j + 1, r) && FitsFrame(j, r) && off + SAMPLE * (j + 1) + SPARE <= |data|
      requires offset == off + SAMPLE * j && pointer == at + 8 + Times(j, Size(r))
      requires buffer[..] == Patch(was, at, h + Payload(data, off, j, r))
      modifies buffer
      ensures buffer[..] == Patch(was, at, h + Payload(data, off, j + 1, r))
    {
      SampleStep(was, at, h, data, off, j, r, pointer);
      ghost var filled := Patch(buffer[..], pointer, Sample(data, offset, r));
      Copy(pointer, data[offset..offset + 6 * r]);
      assert buffer[..] == filled;
    }

    /** The inner loop: n samples behind a header. */
    method FillSamples(ghost was: seq<byte>, ghost h: seq<byte>, at: nat,
                       data: seq<byte>, off: nat, n: nat, r: Receivers)
      requires |h| == 8 && |was| == buffer.Length && at + FRAME <= |was|
      requires FitsFrame(n, r) && off + n * SAMPLE + SPARE <= |data|
      requires buffer[..] == Patch(was, at, h + Zeros(PAYLOAD))
      modifies buffer
      ensures buffer[..] == Patch(was, at, h + Payload(data, off, n, r))
    {
      var pointer, offset := at + 8, off;
      assert Payload(data, off, 0, r) == Zeros(PAYLOAD);
      var j := 0;
      while j < n
        invariant 0 <= j <= n && offset == off + SAMPLE * j
        invariant pointer == at + 8 + Times(j, Size(r)) && FitsFrame(j, r)
        invariant buffer[..] == Patch(was, at, h + Payload(data, off, j, r))
      {
        TimesMonotone(j + 1, n, Size(r));
        FillSample(was, at, h, off, j, pointer, data, offset, r);
        offset := offset + SAMPLE;
        pointer := pointer + Size(r);
        j := j + 1;
      }
    }

    /** Header, zeros and n samples of one frame. */
    method FillFrame(at: nat, data: seq<byte>, off: nat, n: nat, r: Receivers)
      requires headerOffset < 5 && at + FRAME <= buffer.Length
      requires FitsFrame(n, r) && off + n * SAMPLE + SPARE <= |data|
      modifies this`headerOffset, buffer
      ensures buffer[..] == Patch(old(buffer[..]), at, Frame(old(headerOffset), data, off, n, r))
      ensures headerOffset == Rotated(old(headerOffset), 1)
    {
      ghost var was, h := buffer[..], HEADERS[headerOffset];
      Copy(at, HEADERS[headerOffset]);
      headerOffset := (headerOffset + 1) % 5;
      Copy(at + 8, Zeros(PAYLOAD));
      PatchAdjacent(was, at, h, Zeros(PAYLOAD));
      FillSamples(was, h, at, data, off, n, r);
    }

    /** One sequence number. */
    method NumberOne(ghost start: nat, i: nat)
      requires Valid() && i < ROOM && Numbered(buffer[..], start, i) && counter == Later(start, i)
      modifies this`counter, buffer
      ensures Valid() && Numbered(buffer[..], start, i + 1) && counter == Later(start, i + 1)
    {
      NumberKeeps(buffer[..], start, i);
      Copy(DATAGRAM * i + 4, BigEndian(counter));
      LaterAdds(start, i, 1);
      counter := (counter + 1) % 0x1_0000_0000;
    }

    /** The sequence numbers of m datagrams. */
    method Number(m: nat)
      requires Valid() && m <= ROOM
      modifies this`counter, buffer
      ensures Valid() && Numbered(buffer[..], old(counter), m) && counter == Later(old(counter), m)
    {
      var i := 0;
      while i < m
        invariant 0 <= i <= m
        invariant Valid() && Numbered(buffer[..], old(counter), i) && counter == Later(old(counter), i)
      {
        NumberOne(old(counter), i);
        i := i + 1;
      }
    }

    /** One frame at its place, and where in the block the next one's samples are. */
    method FillFrameAt(ghost p: Pass, data: seq<byte>, i: nat, offset: nat, n: nat, r: Receivers) returns (next: nat)
      requires p.Valid() && p.data == data && p.n == n && p.r == r && i < 2 * p.m
      requires offset == SAMPLE * Times(i, n) && headerOffset == Rotated(p.header, i)
      requires Valid() && Numbered(buffer[..], p.counter, p.m) && Framed(buffer[..], p, i)
      modifies this`headerOffset, buffer
      ensures Valid() && Numbered(buffer[..], p.counter, p.m) && Framed(buffer[..], p, i + 1)
      ensures headerOffset == Rotated(p.header, i + 1) && next == SAMPLE * Times(i + 1, n)
    {
      TimesMonotone(i + 1, 2 * p.m, n);
      PlaceFits(p, i);
      FrameKeeps(buffer[..], p, i);
      ghost var framed := Patch(buffer[..], Place(i), p.FrameAt(i));
      assert p.FrameAt(i) == Frame(headerOffset, data, offset, n, r);
      FillFrame(i * 516 - i % 2 * 4 + 8, data, offset, n, r);
      assert buffer[..] == framed;
      RotatedAdds(p.header, i, 1);
      next := offset + SAMPLE * n;
    }

    /** The 2 m frames. */
    method FillFrames(ghost p: Pass, data: seq<byte>, n: nat, m: nat, r: Receivers)
      requires p.Valid() && p.data == data && p.n == n && p.m == m && p.r == r && p.header == headerOffset
      requires Valid() && Numbered(buffer[..], p.counter, m)
      modifies this`headerOffset, buffer
      ensures Valid() && Numbered(buffer[..], p.counter, m) && Framed(buffer[..], p, 2 * m)
      ensures headerOffset == Rotated(old(headerOffset), 2 * m)
    {
      var i, offset := 0, 0;
      while i < 2 * m
        invariant 0 <= i <= 2 * m && offset == SAMPLE * Times(i, n)
        invariant headerOffset == Rotated(p.header, i)
        invariant Valid() && Numbered(buffer[..], p.counter, m) && Framed(buffer[..], p, i)
      {
        offset := FillFrameAt(p, data, i, offset, n, r);
        i := i + 1;
      }
    }

    /** One pass of the handler's loop, up to the sending of the first m datagrams. */
    method Pack(block: Block) returns (m: nat)
      requires Valid() && block.Valid()
      modifies this, buffer
      ensures Valid() && m == PerBlock(block.r) <= ROOM
      ensures
        var p := block.From(old(counter), old(headerOffset));
        && (forall k :: 0 <= k < m ==> DatagramIn(buffer[..], k) == p.DatagramAt(k))
        && counter == Later(old(counter), m) && headerOffset == Rotated(old(headerOffset), 2 * m)
    {
      ghost var p := block.From(counter, headerOffset);
      Shape(block.r);
      var size := block.r * 6 + 2;
      var n := PAYLOAD / size;
      m := 128 / n;
      Number(m);
      FillFrames(p, block.data, n, m, block.r);
      forall k | 0 <= k < m ensures DatagramIn(buffer[..], k) == p.DatagramAt(k) {
        Assembled(buffer[..], p, k);
      }
    }
  }
}
