/** The packets of handler_ep6 in projects/sdr_receiver_hpsdr/server/sdr-receiver-hpsdr.c:
    blocks of samples of six channels, repacked for the number of receivers in use. */
module Ep6Framing {
  import opened Bytes

  const NUM_CHANNELS: nat := 6

  /** Bytes of one sample of all six channels in the FIFO, of a frame's payload, of a frame, of a
      datagram, and the number of datagrams there is room for. */
  const SAMPLE: nat := 36
  const PAYLOAD: nat := 504
  const FRAME: nat := 512
  const DATAGRAM: nat := 1032
  const ROOM: nat := 25

  /** The array a block is read into. */
  const ARRAY: nat := 6 * 4096

  /** How far the copy of a sample goes behind it at most, with eight receivers. */
  const SPARE: nat := 12

  /** 0x0601feef as it lies in memory. */
  const SYNC: seq<byte> := [0xEF, 0xFE, 0x01, 0x06]

  const HEADERS: seq<seq<byte>> := [
    [127, 127, 127, 0, 0, 33, 17, 25],
    [127, 127, 127, 8, 0, 0, 0, 0],
    [127, 127, 127, 16, 0, 0, 0, 0],
    [127, 127, 127, 24, 0, 0, 0, 0],
    [127, 127, 127, 32, 66, 66, 66, 66]
  ]

  /** What three bits of a command can set, whatever the number of channels. */
  type Receivers = r: nat | 1 <= r <= 8 witness 1

  /** Bytes of a sample of r channels with its two microphone bytes. */
  function Size(r: Receivers): nat { r * 6 + 2 }

  /** count * n. */
  function Times(count: nat, n: nat): nat {
    if count == 0 then 0 else n + Times(count - 1, n)
  }

  lemma {:induction false} TimesIsProduct(count: nat, n: nat)
    ensures Times(count, n) == count * n
  {
    if count > 0 {
      TimesIsProduct(count - 1, n);
      assert count * n == (count - 1) * n + n;
    }
  }

  lemma {:induction false} TimesMonotone(a: nat, b: nat, n: nat)
    requires a <= b
    ensures Times(a, n) <= Times(b, n)
  {
    if a < b {
      TimesMonotone(a, b - 1, n);
    }
  }

  /** n samples of r channels fit the payload of a frame. */
  predicate FitsFrame(n: nat, r: Receivers) { Times(n, Size(r)) <= PAYLOAD }

  // ------------------------------------------------------------------ the packets

  /** What is sent of the sample at byte off: its first r channels, if it has so many. */
  function Sample(data: seq<byte>, off: nat, r: Receivers): (s: seq<byte>)
    requires off + SAMPLE + SPARE <= |data|
    ensures |s| == 6 * r
  {
    data[off..off + 6 * r]
  }

  /** n samples from byte off on, each cut to r channels and followed by two zero bytes. */
  function Samples(data: seq<byte>, off: nat, n: nat, r: Receivers): (s: seq<byte>)
    requires off + n * SAMPLE + SPARE <= |data|
    ensures |s| == Times(n, Size(r))
    decreases n
  {
    if n == 0 then []
    else Samples(data, off, n - 1, r) + Sample(data, off + SAMPLE * (n - 1), r) + [0, 0]
  }

  /** The samples, padded with zeros. */
  function Payload(data: seq<byte>, off: nat, n: nat, r: Receivers): (p: seq<byte>)
    requires off + n * SAMPLE + SPARE <= |data| && FitsFrame(n, r)
    ensures |p| == PAYLOAD
  {
    Samples(data, off, n, r) + Zeros(PAYLOAD - Times(n, Size(r)))
  }

  /** A frame: 8 header bytes and the payload. */
  function Frame(h: nat, data: seq<byte>, off: nat, n: nat, r: Receivers): (f: seq<byte>)
    requires h < 5 && off + n * SAMPLE + SPARE <= |data| && FitsFrame(n, r)
    ensures |f| == FRAME
  {
    HEADERS[h] + Payload(data, off, n, r)
  }

  /** A sequence number k steps on: a uint32_t. */
  function Later(counter: nat, k: nat): (c: nat)
    ensures c < 0x1_0000_0000
  {
    (counter + k) % 0x1_0000_0000
  }

  /** The header k frames on. */
  function Rotated(h: nat, k: nat): (h': nat)
    ensures h' < 5
  {
    (h + k) % 5
  }

  /** One pass of the handler: the first sequence number and header, the block read from the
      FIFO, the samples to a frame, the datagrams and the receivers. */
  datatype Pass = Pass(counter: nat, header: nat, data: seq<byte>, n: nat, m: nat, r: Receivers) {
    predicate Valid() {
      && header < 5 && counter < 0x1_0000_0000 && m <= ROOM && FitsFrame(n, r)
      && SAMPLE * Times(2 * m, n) + SPARE <= |data|
    }

    function FrameAt(i: nat): (f: seq<byte>)
      requires Valid() && i < 2 * m
      ensures |f| == FRAME
    {
      TimesMonotone(i + 1, 2 * m, n);
      Frame(Rotated(header, i), data, SAMPLE * Times(i, n), n, r)
    }

    /** The sync word and the sequence number. */
    function Head(k: nat): (s: seq<byte>)
      ensures |s| == 8
    {
      SYNC + BigEndian(Later(counter, k))
    }

    function DatagramAt(k: nat): (d: seq<byte>)
      requires Valid() && k < m
      ensures |d| == DATAGRAM
    {
      Head(k) + FrameAt(2 * k) + FrameAt(2 * k + 1)
    }

    function Datagrams(): (ds: seq<seq<byte>>)
      requires Valid()
      ensures |ds| == m && forall k :: 0 <= k < m ==> |ds[k]| == DATAGRAM
    {
      seq(m, k requires 0 <= k < m => DatagramAt(k))
    }
  }

  // ------------------------------------------------------------------ the parser

  /** n samples of r channels out of a payload. */
  function ParseSamples(s: seq<byte>, n: nat, r: Receivers): seq<seq<byte>>
    requires Times(n, Size(r)) <= |s|
    decreases n
  {
    if n == 0 then []
    else ParseSamples(s, n - 1, r) + [s[Times(n - 1, Size(r))..Times(n - 1, Size(r)) + 6 * r]]
  }

  /** The samples of both frames of a datagram, as a client reads it. */
  function ParseDatagram(d: seq<byte>, n: nat, r: Receivers): seq<seq<byte>>
    requires |d| == DATAGRAM && FitsFrame(n, r)
  {
    ParseSamples(d[16..520], n, r) + ParseSamples(d[528..1032], n, r)
  }

  function ParseAll(ds: seq<seq<byte>>, n: nat, r: Receivers): seq<seq<byte>>
    requires FitsFrame(n, r) && forall k :: 0 <= k < |ds| ==> |ds[k]| == DATAGRAM
  {
    if ds == [] then [] else ParseAll(ds[..|ds| - 1], n, r) + ParseDatagram(ds[|ds| - 1], n, r)
  }

  /** What is sent of n samples from byte off on. */
  function Channels(data: seq<byte>, off: nat, n: nat, r: Receivers): seq<seq<byte>>
    requires off + n * SAMPLE + SPARE <= |data|
    decreases n
  {
    if n == 0 then []
    else Channels(data, off, n - 1, r) + [Sample(data, off + SAMPLE * (n - 1), r)]
  }

  lemma {:induction false} ParseInvertsSamples(data: seq<byte>, off: nat, n: nat, r: Receivers, rest: seq<byte>)
    requires off + n * SAMPLE + SPARE <= |data|
    ensures ParseSamples(Samples(data, off, n, r) + rest, n, r) == Channels(data, off, n, r)
    decreases n
  {
    if n > 0 {
      var front, last := Samples(data, off, n - 1, r), Sample(data, off + SAMPLE * (n - 1), r);
      var s := Samples(data, off, n, r) + rest;
      assert s == front + (last + [0, 0] + rest);
      assert s[|front|..|front| + 6 * r] == last;
      ParseInvertsSamples(data, off, n - 1, r, last + [0, 0] + rest);
    }
  }

  lemma {:induction false} ChannelsAppend(data: seq<byte>, off: nat, n: nat, m: nat, r: Receivers)
    requires off + (n + m) * SAMPLE + SPARE <= |data|
    ensures Channels(data, off, n + m, r) == Channels(data, off, n, r) + Channels(data, off + n * SAMPLE, m, r)
    decreases m
  {
    if m > 0 {
      ChannelsAppend(data, off, n, m - 1, r);
    }
  }

  lemma ParseInvertsFrame(h: nat, data: seq<byte>, off: nat, n: nat, r: Receivers)
    requires h < 5 && off + n * SAMPLE + SPARE <= |data| && FitsFrame(n, r)
    ensures Frame(h, data, off, n, r)[..8] == HEADERS[h]
    ensures ParseSamples(Frame(h, data, off, n, r)[8..], n, r) == Channels(data, off, n, r)
  {
    var pad := Zeros(PAYLOAD - Times(n, Size(r)));
    assert Frame(h, data, off, n, r)[8..] == Samples(data, off, n, r) + pad;
    ParseInvertsSamples(data, off, n, r, pad);
  }

  /** Three sync bytes, the number of the header in the upper bits of C0, and four bytes of status:
      the version in header 0, something in header 4 and nothing in the others. */
  predicate IsHeader(b: seq<byte>, h: nat) {
    && |b| == 8 && b[..3] == [0x7F, 0x7F, 0x7F] && b[3] == 8 * h
    && b[4..] == if h == 0 then [0, 33, 17, 25] else if h == 4 then [66, 66, 66, 66] else [0, 0, 0, 0]
  }

  /** A datagram with this sequence number and, in its two frames, these consecutive headers. */
  predicate Carries(d: seq<byte>, counter: nat, h: nat) {
    && |d| == DATAGRAM && d[..4] == [0xEF, 0xFE, 0x01, 0x06] && Value(d[4..8]) == counter
    && IsHeader(d[8..16], h % 5) && IsHeader(d[520..528], (h + 1) % 5)
  }

  lemma HeadersAreHeaders(h: nat)
    requires h < 5
    ensures IsHeader(HEADERS[h], h)
  {
  }

  lemma Parts(head: seq<byte>, f0: seq<byte>, f1: seq<byte>)
    requires |head| == 8 && |f0| == FRAME && |f1| == FRAME
    ensures
      var d := head + f0 + f1;
      && d[..4] == head[..4] && d[4..8] == head[4..8] && d[8..16] == f0[..8] && d[16..520] == f0[8..]
      && d[520..528] == f1[..8] && d[528..1032] == f1[8..]
  {
  }

  lemma RotatedNext(h: nat, k: nat)
    ensures Rotated(h, k) % 5 == Rotated(h, k) && (Rotated(h, k) + 1) % 5 == Rotated(h, k + 1)
  {
  }

  lemma HeadParts(p: Pass, k: nat)
    ensures p.Head(k)[..4] == SYNC && Value(p.Head(k)[4..8]) == Later(p.counter, k)
  {
    assert p.Head(k)[4..8] == BigEndian(Later(p.counter, k));
    ValueOfBigEndian(Later(p.counter, k));
  }

  lemma FrameChannels(p: Pass, i: nat)
    requires p.Valid() && i < 2 * p.m
    ensures SAMPLE * Times(i, p.n) + p.n * SAMPLE + SPARE <= |p.data|
    ensures p.FrameAt(i)[..8] == HEADERS[Rotated(p.header, i)]
    ensures ParseSamples(p.FrameAt(i)[8..], p.n, p.r) == Channels(p.data, SAMPLE * Times(i, p.n), p.n, p.r)
  {
    TimesMonotone(i + 1, 2 * p.m, p.n);
    ParseInvertsFrame(Rotated(p.header, i), p.data, SAMPLE * Times(i, p.n), p.n, p.r);
  }

  /** A datagram tells its sequence number and headers ... */
  lemma DatagramCarries(p: Pass, k: nat)
    requires p.Valid() && k < p.m
    ensures Carries(p.DatagramAt(k), Later(p.counter, k), Rotated(p.header, 2 * k))
  {
    Parts(p.Head(k), p.FrameAt(2 * k), p.FrameAt(2 * k + 1));
    HeadParts(p, k);
    FrameChannels(p, 2 * k);
    FrameChannels(p, 2 * k + 1);
    RotatedNext(p.header, 2 * k);
    HeadersAreHeaders(Rotated(p.header, 2 * k));
    HeadersAreHeaders(Rotated(p.header, 2 * k + 1));
  }

  /** ... and what is sent of its samples. */
  lemma DatagramChannels(p: Pass, k: nat)
    requires p.Valid() && k < p.m
    ensures SAMPLE * Times(2 * k, p.n) + 2 * p.n * SAMPLE + SPARE <= |p.data|
    ensures ParseDatagram(p.DatagramAt(k), p.n, p.r)
         == Channels(p.data, SAMPLE * Times(2 * k, p.n), 2 * p.n, p.r)
  {
    Parts(p.Head(k), p.FrameAt(2 * k), p.FrameAt(2 * k + 1));
    FrameChannels(p, 2 * k);
    FrameChannels(p, 2 * k + 1);
    ChannelsAppend(p.data, SAMPLE * Times(2 * k, p.n), p.n, p.n, p.r);
  }

  lemma ParseSnoc(ds: seq<seq<byte>>, d: seq<byte>, n: nat, r: Receivers)
    requires FitsFrame(n, r) && |d| == DATAGRAM && forall k :: 0 <= k < |ds| ==> |ds[k]| == DATAGRAM
    ensures ParseAll(ds + [d], n, r) == ParseAll(ds, n, r) + ParseDatagram(d, n, r)
  {
    assert (ds + [d])[..|ds|] == ds;
  }

  /** The block behind k datagrams' samples. */
  lemma DatagramEnds(p: Pass, j: nat, k: nat)
    requires p.Valid() && k == j + 1 && k <= p.m
    ensures Times(2 * k, p.n) == Times(2 * j, p.n) + 2 * p.n && SAMPLE * Times(2 * k, p.n) + SPARE <= |p.data|
  {
    assert 2 * k == 2 * j + 2;
    assert Times(2 * j + 2, p.n) == p.n + Times(2 * j + 1, p.n);
    TimesMonotone(2 * k, 2 * p.m, p.n);
  }

  lemma DatagramsPrefix(p: Pass, k: nat)
    requires p.Valid() && k < p.m
    ensures p.Datagrams()[..k + 1] == p.Datagrams()[..k] + [p.DatagramAt(k)]
  {
  }

  lemma ChannelsFurther(data: seq<byte>, a: nat, n: nat, b: nat, r: Receivers)
    requires b == a + 2 * n && SAMPLE * b + SPARE <= |data|
    ensures Channels(data, 0, b, r) == Channels(data, 0, a, r) + Channels(data, SAMPLE * a, 2 * n, r)
  {
    ChannelsAppend(data, 0, a, 2 * n, r);
  }

  lemma {:induction false} ParsePrefix(p: Pass, k: nat)
    requires p.Valid() && k <= p.m
    ensures SAMPLE * Times(2 * k, p.n) + SPARE <= |p.data|
    ensures ParseAll(p.Datagrams()[..k], p.n, p.r) == Channels(p.data, 0, Times(2 * k, p.n), p.r)
    decreases k
  {
    if k == 0 {
      assert p.Datagrams()[..k] == [];
    } else {
      var j := k - 1;
      ParsePrefix(p, j);
      DatagramsPrefix(p, j);
      ParseSnoc(p.Datagrams()[..j], p.DatagramAt(j), p.n, p.r);
      DatagramChannels(p, j);
      DatagramEnds(p, j, k);
      ChannelsFurther(p.data, Times(2 * j, p.n), p.n, Times(2 * k, p.n), p.r);
    }
  }

  /** The samples lie behind each other, and what is sent of each begins with its first byte. */
  lemma {:induction false} ChannelsAt(data: seq<byte>, n: nat, r: Receivers)
    requires n * SAMPLE + SPARE <= |data|
    ensures |Channels(data, 0, n, r)| == n
    ensures forall k :: 0 <= k < n ==> Channels(data, 0, n, r)[k] == data[SAMPLE * k..SAMPLE * k + 6 * r]
    decreases n
  {
    if n > 0 {
      ChannelsAt(data, n - 1, r);
    }
  }

  lemma SamplesAt(data: seq<byte>, n: nat, r: Receivers, samples: seq<seq<byte>>)
    requires SAMPLE * n + SPARE <= |data| && samples == Channels(data, 0, n, r)
    ensures |samples| == n && forall k :: 0 <= k < |samples| ==> samples[k] == data[36 * k..36 * k + 6 * r]
  {
    ChannelsAt(data, n, r);
  }

  lemma TakeAll<T>(s: seq<T>)
    ensures s[..|s|] == s
  {
  }

  /** Parsing the datagrams of a pass yields, in order, what is sent of all 2 m n samples of its
      block: nothing is lost or mixed up in the repacking. */
  lemma ParseInvertsPass(p: Pass)
    requires p.Valid()
    ensures
      var samples := ParseAll(p.Datagrams(), p.n, p.r);
      && |samples| == Times(2 * p.m, p.n)
      && forall k :: 0 <= k < |samples| ==> samples[k] == p.data[36 * k..36 * k + 6 * p.r]
  {
    ParsePrefix(p, p.m);
    TakeAll(p.Datagrams());
    SamplesAt(p.data, Times(2 * p.m, p.n), p.r, ParseAll(p.Datagrams(), p.n, p.r));
  }

  /** With r receivers the bytes sent of a sample are its own. */
  ghost predicate OwnBytesOnly(r: Receivers) {
    forall a, b, off: nat ::
      off + SAMPLE + SPARE <= |a| && off + SAMPLE + SPARE <= |b| && a[off..off + SAMPLE] == b[off..off + SAMPLE] ==>
        Sample(a, off, r) == Sample(b, off, r)
  }

  /** That is so for exactly up to six receivers. */
  lemma SamplesKeepApart(r: Receivers)
    ensures OwnBytesOnly(r) <==> r <= NUM_CHANNELS
  {
    if r <= NUM_CHANNELS {
      forall a: seq<byte>, b: seq<byte>, off: nat
        | off + SAMPLE + SPARE <= |a| && off + SAMPLE + SPARE <= |b| && a[off..off + SAMPLE] == b[off..off + SAMPLE]
        ensures Sample(a, off, r) == Sample(b, off, r)
      {
        assert Sample(a, off, r) == a[off..off + SAMPLE][..6 * r];
        assert Sample(b, off, r) == b[off..off + SAMPLE][..6 * r];
      }
    } else {
      var a, b := Zeros(SAMPLE + SPARE), Zeros(SAMPLE) + [1] + Zeros(SPARE - 1);
      assert a[0..0 + SAMPLE] == b[0..0 + SAMPLE];
      assert Sample(a, 0, r)[SAMPLE] == 0 && Sample(b, 0, r)[SAMPLE] == 1;
    }
  }

  /** For more, what is sent as the seventh and eighth channel of a sample are the first
      channels of the next. */
  lemma NextSampleShows(data: seq<byte>, off: nat, r: Receivers)
    requires r > NUM_CHANNELS && off + 2 * SAMPLE + SPARE <= |data|
    ensures Sample(data, off, r) == Sample(data, off, NUM_CHANNELS) + Sample(data, off + SAMPLE, r - NUM_CHANNELS)
  {
  }

  // ------------------------------------------------------------- runs of the handler

  function PerFrame(r: Receivers): nat { PAYLOAD / Size(r) }

  function PerBlock(r: Receivers): nat
    requires PerFrame(r) > 0
  {
    128 / PerFrame(r)
  }

  lemma SamplesPerFrame(r: Receivers, n: nat)
    requires (r, n) in {(1, 63), (2, 36), (3, 25), (4, 19), (5, 15), (6, 13), (7, 11), (8, 10)}
    ensures n == PerFrame(r) && n * Size(r) <= PAYLOAD < n * Size(r) + Size(r)
  {
  }

  lemma DatagramsPerBlock(n: nat, m: nat)
    requires (n, m) in {(63, 2), (36, 3), (25, 5), (19, 6), (15, 8), (13, 9), (11, 11), (10, 12)}
    ensures m == 128 / n && 0 < m <= ROOM && 2 * m * n <= 682
  {
  }

  lemma ShapeFor(r: Receivers, n: nat, m: nat)
    requires (r, n) in {(1, 63), (2, 36), (3, 25), (4, 19), (5, 15), (6, 13), (7, 11), (8, 10)}
    requires (n, m) in {(63, 2), (36, 3), (25, 5), (19, 6), (15, 8), (13, 9), (11, 11), (10, 12)}
    ensures
      && n == PerFrame(r) && m == PerBlock(r) && m <= ROOM
      && Times(n, Size(r)) <= PAYLOAD < Times(n, Size(r)) + Size(r)
      && SAMPLE * Times(2 * m, n) + SPARE <= ARRAY
  {
    TimesIsProduct(n, Size(r));
    TimesIsProduct(2 * m, n);
    SamplesPerFrame(r, n);
    DatagramsPerBlock(n, m);
  }

  /** What the handler computes for any number of receivers fits the frame, the datagrams and
      the array, and leaves no room in a frame for a further sample. */
  lemma Shape(r: Receivers)
    ensures
      && 0 < PerFrame(r) && 0 < PerBlock(r) <= ROOM
      && Times(PerFrame(r), Size(r)) <= PAYLOAD < Times(PerFrame(r), Size(r)) + Size(r)
      && SAMPLE * Times(2 * PerBlock(r), PerFrame(r)) + SPARE <= ARRAY
  {
    if
    case r == 1 => ShapeFor(1, 63, 2);
    case r == 2 => ShapeFor(2, 36, 3);
    case r == 3 => ShapeFor(3, 25, 5);
    case r == 4 => ShapeFor(4, 19, 6);
    case r == 5 => ShapeFor(5, 15, 8);
    case r == 6 => ShapeFor(6, 13, 9);
    case r == 7 => ShapeFor(7, 11, 11);
    case r == 8 => ShapeFor(8, 10, 12);
  }

  /** The array after the handler has read a block into it when r receivers are set. */
  datatype Block = Block(r: Receivers, data: seq<byte>) {
    predicate Valid() { |data| == ARRAY }

    function From(counter: nat, header: nat): (p: Pass)
      requires Valid() && counter < 0x1_0000_0000 && header < 5
      ensures p.Valid()
    {
      Shape(r);
      Pass(counter, header, data, PerFrame(r), PerBlock(r), r)
    }
  }

  predicate Blocks(blocks: seq<Block>) {
    forall b :: 0 <= b < |blocks| ==> blocks[b].Valid()
  }

  /** All datagrams sent for these blocks: each pass goes on where the last one stopped. */
  function Sent(counter: nat, header: nat, blocks: seq<Block>): (ds: seq<seq<byte>>)
    requires Blocks(blocks) && counter < 0x1_0000_0000 && header < 5
    ensures forall k :: 0 <= k < |ds| ==> |ds[k]| == DATAGRAM
    decreases |blocks|
  {
    if blocks == [] then []
    else
      var p := blocks[0].From(counter, header);
      p.Datagrams() + Sent(Later(counter, p.m), Rotated(header, 2 * p.m), blocks[1..])
  }

  lemma LaterAdds(counter: nat, a: nat, b: nat)
    ensures Later(Later(counter, a), b) == Later(counter, a + b)
  {
  }

  lemma RotatedAdds(h: nat, a: nat, b: nat)
    ensures Rotated(Rotated(h, a), b) == Rotated(h, a + b)
  {
  }

  lemma ContinuedAt(counter: nat, header: nat, m: nat, l: nat, k: nat)
    requires k == m + l
    ensures Later(Later(counter, m), l) == Later(counter, k)
    ensures Rotated(Rotated(header, 2 * m), 2 * l) == Rotated(header, 2 * k)
  {
    LaterAdds(counter, m, l);
    RotatedAdds(header, 2 * m, 2 * l);
  }

  /** However the number of receivers changes from block to block, the datagrams sent are
      numbered consecutively and the headers rotate without a break. */
  lemma {:induction false} SequenceIsContinuous(counter: nat, header: nat, blocks: seq<Block>, k: nat)
    requires Blocks(blocks) && counter < 0x1_0000_0000 && header < 5
    requires k < |Sent(counter, header, blocks)|
    ensures Carries(Sent(counter, header, blocks)[k], Later(counter, k), Rotated(header, 2 * k))
    decreases |blocks|
  {
    var p := blocks[0].From(counter, header);
    var ds, rest := p.Datagrams(), Sent(Later(counter, p.m), Rotated(header, 2 * p.m), blocks[1..]);
    if k < p.m {
      assert (ds + rest)[k] == p.DatagramAt(k);
      DatagramCarries(p, k);
    } else {
      var l := k - p.m;
      assert (ds + rest)[k] == rest[l];
      SequenceIsContinuous(Later(counter, p.m), Rotated(header, 2 * p.m), blocks[1..], l);
      ContinuedAt(counter, header, p.m, l, k);
    }
  }
}
