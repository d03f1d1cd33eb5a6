/** The main loop of projects/sdr_transceiver_ft8/app/upload-to-pskreporter.c: the spots of a
    file in batches of ten, written into one buffer of 512 bytes through moving pointers. */
module PskReporter {
  import opened Bytes
  import opened Lists
  import opened PskMessages
  import Ipfix

  const ROOM: nat := 512
  const BATCH: nat := 10

  /** A line of the file: a spot, or nothing if it cannot be parsed. */
  type Line = Ipfix.Option<Spot>

  /** The spots of the file. */
  function SpotsOf(lines: seq<Line>): seq<Spot> {
    if lines == [] then []
    else (if lines[0].Some? then [lines[0].value] else []) + SpotsOf(lines[1..])
  }

  /** The spots of each datagram, `pending` being those of the first one already read. */
  function Batches(pending: seq<Spot>, lines: seq<Line>): seq<seq<Spot>>
    decreases |lines|
  {
    if lines == [] then if pending == [] then [] else [pending]
    else if lines[0].None? then Batches(pending, lines[1..])
    else if |pending| + 1 < BATCH then Batches(pending + [lines[0].value], lines[1..])
    else [pending + [lines[0].value]] + Batches([], lines[1..])
  }

  /** The batches are the spots of the file in order ... */
  lemma {:induction false} BatchesPartition(pending: seq<Spot>, lines: seq<Line>)
    ensures Flatten(Batches(pending, lines)) == pending + SpotsOf(lines)
    decreases |lines|
  {
    if lines == [] {
      FlattenCons(pending, []);
      assert [pending] + [] == [pending];
    } else if lines[0].None? {
      BatchesPartition(pending, lines[1..]);
      assert [] + SpotsOf(lines[1..]) == SpotsOf(lines[1..]);
    } else {
      var s, rest := lines[0].value, lines[1..];
      assert pending + ([s] + SpotsOf(rest)) == pending + [s] + SpotsOf(rest);
      if |pending| + 1 < BATCH {
        BatchesPartition(pending + [s], rest);
      } else {
        BatchesPartition([], rest);
        assert [] + SpotsOf(rest) == SpotsOf(rest);
        FlattenCons(pending + [s], Batches([], rest));
      }
    }
  }

  /** ... ten in each, but for the last one, which has one to ten. */
  lemma {:induction false} BatchSizes(pending: seq<Spot>, lines: seq<Line>, b: nat)
    requires |pending| < BATCH && b < |Batches(pending, lines)|
    ensures 0 < |Batches(pending, lines)[b]| <= 10
    ensures b + 1 < |Batches(pending, lines)| ==> |Batches(pending, lines)[b]| == 10
    decreases |lines|
  {
    if lines != [] {
      if lines[0].None? {
        BatchSizes(pending, lines[1..], b);
      } else if |pending| + 1 < BATCH {
        BatchSizes(pending + [lines[0].value], lines[1..], b);
      } else if b > 0 {
        BatchSizes([], lines[1..], b - 1);
      }
    }
  }

  /** The datagrams sent for the batches from number k on; clock(k) is what time() tells when
      datagram k is sent. */
  function Sent(st: Station, domain: int, clock: nat -> int, k: nat, batches: seq<seq<Spot>>): seq<seq<byte>>
    decreases |batches|
  {
    if batches == [] then []
    else [Datagram(st, domain, clock(k), k, batches[0])] + Sent(st, domain, clock, k + 1, batches[1..])
  }

  function CollectedFrom(strict: bool, d: seq<byte>): seq<seq<Ipfix.Datum>> {
    match Ipfix.Parse(d)
    case None => []
    case Some(m) =>
      match Ipfix.Described(strict, m.sets, SENDER)
      case None => []
      case Some(records) => records
  }

  /** What a collector makes of the datagrams: the records of their data sets of spots. */
  function Collected(strict: bool, ds: seq<seq<byte>>): seq<seq<Ipfix.Datum>> {
    if ds == [] then [] else CollectedFrom(strict, ds[0]) + Collected(strict, ds[1..])
  }

  predicate AllFit(st: Station, batches: seq<seq<Spot>>) {
    forall b :: 0 <= b < |batches| ==> MessageSize(st, batches[b]) <= ROOM
  }

  lemma CollectedCons(strict: bool, d: seq<byte>, ds: seq<seq<byte>>)
    ensures Collected(strict, [d] + ds) == CollectedFrom(strict, d) + Collected(strict, ds)
  {
    assert ([d] + ds)[1..] == ds;
  }

  lemma DatagramArrives(strict: bool, st: Station, domain: int, now: int, k: nat, batch: seq<Spot>)
    requires MessageSize(st, batch) <= ROOM
    ensures AllTold(CollectedFrom(strict, Datagram(st, domain, now, k, batch)), batch)
  {
    CollectorReads(strict, st, domain, now, k, batch);
  }

  lemma ToldAppend(r: seq<seq<Ipfix.Datum>>, a: seq<Spot>, q: seq<seq<Ipfix.Datum>>, b: seq<Spot>)
    requires AllTold(r, a) && AllTold(q, b)
    ensures AllTold(r + q, a + b)
  {
    forall k | 0 <= k < |a + b| ensures Tells((r + q)[k], (a + b)[k]) {
      if k < |a| {
        assert Tells(r[k], a[k]);
      } else {
        assert Tells(q[k - |a|], b[k - |a|]);
      }
    }
  }

  lemma {:induction false} BatchesArrive(strict: bool, st: Station, domain: int, clock: nat -> int, k: nat,
                                         batches: seq<seq<Spot>>)
    requires AllFit(st, batches)
    ensures AllTold(Collected(strict, Sent(st, domain, clock, k, batches)), Flatten(batches))
    decreases |batches|
  {
    if batches != [] {
      var first, rest := batches[0], batches[1..];
      BatchesArrive(strict, st, domain, clock, k + 1, rest);
      DatagramArrives(strict, st, domain, clock(k), k, first);
      CollectedCons(strict, Datagram(st, domain, clock(k), k, first), Sent(st, domain, clock, k + 1, rest));
      FlattenCons(first, rest);
      assert batches == [first] + rest;
      ToldAppend(CollectedFrom(strict, Datagram(st, domain, clock(k), k, first)), first,
                 Collected(strict, Sent(st, domain, clock, k + 1, rest)), Flatten(rest));
    }
  }

  /** For every file whose datagrams fit the buffer, the collector ends up with exactly the
      spots of the file, in order. */
  lemma EverySpotArrives(strict: bool, st: Station, domain: int, clock: nat -> int, lines: seq<Line>)
    requires AllFit(st, Batches([], lines))
    ensures AllTold(Collected(strict, Sent(st, domain, clock, 0, Batches([], lines))), SpotsOf(lines))
  {
    BatchesPartition([], lines);
    assert [] + SpotsOf(lines) == SpotsOf(lines);
    BatchesArrive(strict, st, domain, clock, 0, Batches([], lines));
  }

  // Which stations the buffer is large enough for.

  /** What the program does not check of its first three arguments. */
  predicate Short(st: Station) { |st.0| + |st.1| + |st.2| <= 29 }

  function Repeat<T>(n: nat, x: T): seq<T> { seq(n, _ => x) }

  /** A spot with the longest call sign and locator: of As only. */
  const LONGEST: Spot := Reading(Repeat(13, 0x41), Repeat(4, 0x41), 0, 0, 0)

  lemma ReportSize(s: Spot)
    ensures |Report(s)| == 16 + |s.call| + |s.grid|
  {
  }

  lemma {:induction false} ReportsAtMost(spots: seq<Spot>)
    ensures |Reports(spots)| <= 33 * |spots|
    decreases |spots|
  {
    if spots != [] {
      ReportSize(spots[0]);
      ReportsAtMost(spots[1..]);
    }
  }

  lemma {:induction false} ReportsOfLongest(n: nat)
    ensures |Reports(Repeat(n, LONGEST))| == 33 * n
  {
    if n > 0 {
      ReportSize(LONGEST);
      ReportsOfLongest(n - 1);
      assert Repeat(n, LONGEST)[1..] == Repeat(n - 1, LONGEST);
    }
  }

  lemma {:induction false} BatchOfLongest(pending: seq<Spot>, n: nat)
    requires 0 < n && |pending| + n == BATCH
    ensures Batches(pending, Repeat(n, Ipfix.Some(LONGEST))) == [pending + Repeat(n, LONGEST)]
    decreases n
  {
    var lines := Repeat(n, Ipfix.Some(LONGEST));
    assert lines[1..] == Repeat(n - 1, Ipfix.Some(LONGEST));
    if n == 1 {
      assert Repeat(1, LONGEST) == [LONGEST];
      assert Batches([], lines[1..]) == [];
    } else {
      BatchOfLongest(pending + [LONGEST], n - 1);
      assert pending + [LONGEST] + Repeat(n - 1, LONGEST) == pending + Repeat(n, LONGEST);
    }
  }

  lemma ReceiverSize(st: Station)
    ensures |Receiver(st)| == 23 + |st.0| + |st.1| + |st.2| <= 109
  {
  }

  lemma SizeOf(st: Station, spots: seq<Spot>)
    ensures MessageSize(st, spots) == 120 + SetSize(23 + |st.0| + |st.1| + |st.2|) + SetSize(|Reports(spots)|)
  {
    ReceiverSize(st);
  }

  lemma SetSizeGrows(n: nat, m: nat)
    requires n <= m
    ensures SetSize(n) <= SetSize(m)
  {
  }

  lemma BatchFits(st: Station, spots: seq<Spot>)
    requires Short(st) && |spots| <= BATCH
    ensures MessageSize(st, spots) <= ROOM
  {
    SizeOf(st, spots);
    ReportsAtMost(spots);
    SetSizeGrows(23 + |st.0| + |st.1| + |st.2|, 52);
    SetSizeGrows(|Reports(spots)|, 330);
  }

  lemma FileFits(st: Station, lines: seq<Line>)
    requires Short(st)
    ensures AllFit(st, Batches([], lines))
  {
    forall b | 0 <= b < |Batches([], lines)| ensures MessageSize(st, Batches([], lines)[b]) <= ROOM {
      BatchSizes([], lines, b);
      BatchFits(st, Batches([], lines)[b]);
    }
  }

  lemma TenLongestSize(st: Station)
    requires !Short(st)
    ensures MessageSize(st, Repeat(BATCH, LONGEST)) > ROOM
  {
    SizeOf(st, Repeat(BATCH, LONGEST));
    ReportsOfLongest(BATCH);
    SetSizeGrows(53, 23 + |st.0| + |st.1| + |st.2|);
  }

  lemma TenLongestOverflow(st: Station)
    requires !Short(st)
    ensures !AllFit(st, Batches([], Repeat(BATCH, Ipfix.Some(LONGEST))))
  {
    var batches, ten := Batches([], Repeat(BATCH, Ipfix.Some(LONGEST))), Repeat(BATCH, LONGEST);
    BatchOfLongest([], BATCH);
    assert [] + ten == ten;
    TenLongestSize(st);
    assert MessageSize(st, batches[0]) > ROOM;
  }

  ghost predicate EveryFileFits(st: Station) {
    forall lines: seq<Line> :: AllFit(st, Batches([], lines))
  }

  /** The buffer holds every datagram of every file exactly for the stations whose call sign,
      locator and antenna have at most 29 characters together; for any other, ten spots with the
      longest call signs and locators overrun it. */
  lemma StationsThatFit(st: Station)
    ensures EveryFileFits(st) <==> Short(st)
  {
    if Short(st) {
      forall lines: seq<Line> ensures AllFit(st, Batches([], lines)) {
        FileFits(st, lines);
      }
    } else {
      TenLongestOverflow(st);
    }
  }

  // What the loop does to the batches still to come.

  lemma LineSkipped(pending: seq<Spot>, lines: seq<Line>)
    requires lines != [] && lines[0].None?
    ensures Batches(pending, lines) == Batches(pending, lines[1..])
  {
  }

  lemma SpotTaken(pending: seq<Spot>, lines: seq<Line>)
    requires lines != [] && lines[0].Some?
    ensures
      var more := pending + [lines[0].value];
      Batches(pending, lines) == if |more| < BATCH then Batches(more, lines[1..]) else [more] + Batches([], lines[1..])
  {
  }

  lemma {:induction false} FirstBatchHoldsPending(pending: seq<Spot>, lines: seq<Line>)
    requires pending != []
    ensures Batches(pending, lines) != [] && pending <= Batches(pending, lines)[0]
    decreases |lines|
  {
    if lines != [] {
      if lines[0].None? {
        FirstBatchHoldsPending(pending, lines[1..]);
      } else if |pending| + 1 < BATCH {
        FirstBatchHoldsPending(pending + [lines[0].value], lines[1..]);
      }
    }
  }

  lemma {:induction false} ReportsGrow(a: seq<Spot>, b: seq<Spot>)
    requires a <= b
    ensures |Reports(a)| <= |Reports(b)|
    decreases |b|
  {
    if a == b {
    } else {
      var front := b[..|b| - 1];
      ReportsGrow(a, front);
      ReportsSnoc(front, b[|b| - 1]);
      assert b == front + [b[|b| - 1]];
    }
  }

  lemma SizeGrows(st: Station, a: seq<Spot>, b: seq<Spot>)
    requires a <= b
    ensures MessageSize(st, a) <= MessageSize(st, b)
  {
    ReportsGrow(a, b);
    SetSizeGrows(|Reports(a)|, |Reports(b)|);
  }

  /** A spot that is read still fits, if all datagrams do. */
  lemma NextSpotFits(st: Station, pending: seq<Spot>, lines: seq<Line>)
    requires lines != [] && lines[0].Some? && AllFit(st, Batches(pending, lines))
    ensures MessageSize(st, pending + [lines[0].value]) <= ROOM
  {
    var more := pending + [lines[0].value];
    if |pending| + 1 < BATCH {
      FirstBatchHoldsPending(more, lines[1..]);
      SizeGrows(st, more, Batches(pending, lines)[0]);
    } else {
      assert Batches(pending, lines)[0] == more;
    }
  }

  // ------------------------------------------------------------------ the buffer

  /** `header`, with the observation domain filled in. */
  function Template(domain: int): (t: seq<byte>)
    ensures |t| == 120
  {
    [0x00, 0x0A] + Zeros(10) + Int4(domain) + Templates()
  }

  /** Bytes 12 up to the set of spots, which never change. */
  function Fixed(st: Station, domain: int): (f: seq<byte>)
    ensures |f| == 108 + SetSize(|Receiver(st)|) <= 224
  {
    Int4(domain) + Templates() + DataSet(RECEIVER, Receiver(st))
  }

  /** The bytes in use, the reports behind the place of the last set header. */
  predicate Holds(p: seq<byte>, fixed: seq<byte>, reports: seq<byte>) {
    && |p| == 16 + |fixed| + |reports|
    && p[..2] == [0x00, 0x0A]
    && p[12..12 + |fixed|] == fixed
    && p[16 + |fixed|..] == reports
  }

  lemma AddKeeps(p: seq<byte>, fixed: seq<byte>, reports: seq<byte>, report: seq<byte>)
    requires Holds(p, fixed, reports)
    ensures Holds(p + report, fixed, reports + report)
  {
    var start := 12 + |fixed|;
    assert (p + report)[..2] == p[..2];
    assert (p + report)[12..start] == p[12..start];
    assert (p + report)[start + 4..] == p[start + 4..] + report;
  }

  /** The header of the set is written in front of it. */
  lemma SetHeaderKeeps(p: seq<byte>, fixed: seq<byte>, reports: seq<byte>, h: seq<byte>)
    requires Holds(p, fixed, reports) && |h| == 4
    ensures
      var p' := Patch(p, 12 + |fixed|, h);
      Holds(p', fixed, reports) && p'[12 + |fixed|..16 + |fixed|] == h
  {
    PatchHits(p, 12 + |fixed|, h);
    PatchKeeps(p, 12 + |fixed|, h, 0, 2);
    PatchKeeps(p, 12 + |fixed|, h, 12, 12 + |fixed|);
    PatchKeeps(p, 12 + |fixed|, h, 16 + |fixed|, |p|);
  }

  lemma FivePieces(p: seq<byte>, start: nat)
    requires 12 <= start && start + 4 <= |p|
    ensures p == p[..2] + p[2..12] + p[12..start] + p[start..start + 4] + p[start + 4..]
  {
  }

  /** Then the changing part of the message header, and the message is complete. */
  lemma HeaderCompletes(p: seq<byte>, fixed: seq<byte>, reports: seq<byte>, h: seq<byte>, m: seq<byte>)
    requires Holds(p, fixed, reports) && |h| == 4 && |m| == 10 && p[12 + |fixed|..16 + |fixed|] == h
    ensures
      var p' := Patch(p, 2, m);
      p' == [0x00, 0x0A] + m + fixed + h + reports && Holds(p', fixed, reports)
  {
    var start, end := 12 + |fixed|, |p|;
    PatchHits(p, 2, m);
    PatchKeeps(p, 2, m, 0, 2);
    PatchKeeps(p, 2, m, 12, start);
    PatchKeeps(p, 2, m, start, start + 4);
    PatchKeeps(p, 2, m, start + 4, end);
    FivePieces(Patch(p, 2, m), start);
  }

  lemma HoldsNone(p: seq<byte>, fixed: seq<byte>, reports: seq<byte>)
    requires Holds(p, fixed, reports)
    ensures Holds(p[..16 + |fixed|], fixed, [])
  {
    var q := p[..16 + |fixed|];
    assert q[..2] == p[..2] && q[12..12 + |fixed|] == p[12..12 + |fixed|];
  }

  lemma TemplateParts(t: seq<byte>, domain: int, rest: seq<byte>)
    requires t == Template(domain)
    ensures (t + rest)[..2] == [0x00, 0x0A] && (t + rest)[12..] == Int4(domain) + Templates() + rest
  {
    assert t == [0x00, 0x0A] + Zeros(10) + (Int4(domain) + Templates());
    assert (t + rest)[..2] == t[..2] && (t + rest)[12..] == t[12..] + rest;
  }

  /** What the loop starts with: the receiver's set behind the header, and room for the header
      of the next set. */
  lemma StartHolds(p: seq<byte>, q: seq<byte>, st: Station, domain: int)
    requires |p| == 124 && p[..120] == Template(domain)
    requires q == Patch(p + Padded(Receiver(st)), 120, Int2(RECEIVER) + Int2(SetSize(|Receiver(st)|)))
    ensures |q| == 12 + |Fixed(st, domain)|
    ensures q[..2] == [0x00, 0x0A] && q[12..] == Fixed(st, domain)
  {
    var body, h := Padded(Receiver(st)), Int2(RECEIVER) + Int2(SetSize(|Receiver(st)|));
    assert q == Template(domain) + h + body;
    TemplateParts(Template(domain), domain, h + body);
    assert Template(domain) + h + body == Template(domain) + (h + body);
    assert Int4(domain) + Templates() + (h + body) == Fixed(st, domain);
  }

  lemma Further(s: seq<byte>, start: nat, end: nat)
    requires 12 <= start <= end <= |s|
    ensures s[..end][..2] == s[..start][..2] && s[..end][12..start] == s[..start][12..]
  {
  }

  lemma StartsEmpty(p: seq<byte>, fixed: seq<byte>)
    requires |p| == 16 + |fixed| && p[..2] == [0x00, 0x0A] && p[12..12 + |fixed|] == fixed
    ensures Holds(p, fixed, [])
  {
  }

  /** All the writes of a flush: padding, set header, message header. */
  lemma Sealed(p: seq<byte>, fixed: seq<byte>, reports: seq<byte>, pad: seq<byte>, h: seq<byte>, m: seq<byte>)
    requires Holds(p, fixed, reports) && |h| == 4 && |m| == 10
    ensures
      var q := Patch(Patch(p + pad, 12 + |fixed|, h), 2, m);
      q == [0x00, 0x0A] + m + fixed + h + (reports + pad) && Holds(q[..16 + |fixed|], fixed, [])
  {
    AddKeeps(p, fixed, reports, pad);
    SetHeaderKeeps(p + pad, fixed, reports + pad, h);
    HeaderCompletes(Patch(p + pad, 12 + |fixed|, h), fixed, reports + pad, h, m);
    HoldsNone(Patch(Patch(p + pad, 12 + |fixed|, h), 2, m), fixed, reports + pad);
  }

  /** A datagram as its parts lie in the buffer. */
  function Assembled(fixed: seq<byte>, reports: seq<byte>, now: int, sequence: nat): seq<byte> {
    [0x00, 0x0A] + (Int2(12 + |fixed| + SetSize(|reports|)) + Int4(now) + Int4(sequence)) + fixed
    + (Int2(SENDER) + Int2(SetSize(|reports|))) + Padded(reports)
  }

  /** All the writes of a flush make that datagram. */
  lemma SealedIsAssembled(p: seq<byte>, fixed: seq<byte>, reports: seq<byte>, now: int, sequence: nat)
    requires Holds(p, fixed, reports)
    ensures
      var (start, size) := (12 + |fixed|, SetSize(|reports|));
      var q := Patch(Patch(p + Zeros(Padding(4 + |reports|)), start, Int2(SENDER) + Int2(size)),
                     2, Int2(start + size) + Int4(now) + Int4(sequence));
      q == Assembled(fixed, reports, now, sequence) && Holds(q[..start + 4], fixed, [])
  {
    var start, size := 12 + |fixed|, SetSize(|reports|);
    Sealed(p, fixed, reports, Zeros(Padding(4 + |reports|)), Int2(SENDER) + Int2(size),
           Int2(start + size) + Int4(now) + Int4(sequence));
  }

  lemma AssembledIsDatagram(st: Station, domain: int, now: int, sequence: nat, spots: seq<Spot>)
    ensures Assembled(Fixed(st, domain), Reports(spots), now, sequence) == Datagram(st, domain, now, sequence, spots)
    ensures 12 + |Fixed(st, domain)| + SetSize(|Reports(spots)|) == MessageSize(st, spots)
  {
  }

  // ------------------------------------------------------------------ the program

  lemma SentCons(sent: seq<seq<byte>>, more: seq<seq<byte>>, goal: seq<seq<byte>>,
                 st: Station, domain: int, clock: nat -> int, k: nat, batch: seq<Spot>, rest: seq<seq<Spot>>)
    requires more == sent + [Datagram(st, domain, clock(k), k, batch)]
    requires sent + Sent(st, domain, clock, k, [batch] + rest) == goal
    ensures more + Sent(st, domain, clock, k + 1, rest) == goal
  {
    assert ([batch] + rest)[1..] == rest;
  }

  lemma SpotFits(st: Station, domain: int, pending: seq<Spot>, s: Spot)
    requires MessageSize(st, pending + [s]) <= ROOM
    ensures 16 + |Fixed(st, domain)| + |Reports(pending)| + |Report(s)| <= ROOM
  {
    ReportsSnoc(pending, s);
  }

  lemma Append4(s: seq<byte>, a: seq<byte>, b: seq<byte>, c: seq<byte>, d: seq<byte>)
    ensures s + a + b + c + d == s + (a + b + c + d)
  {
  }

  lemma Append7(s: seq<byte>, a: seq<byte>, b: seq<byte>, c: seq<byte>, d: seq<byte>,
                e: seq<byte>, f: seq<byte>, g: seq<byte>)
    ensures s + a + b + c + d + e + f + g == s + (a + b + c + d + e + f + g)
  {
  }

  class Uploader {
    const buffer: array<byte>
    var start: nat
    var dst: nat
    var counter: nat
    var sequence: nat

    /** The datagrams given to sendto, oldest first. */
    var sent: seq<seq<byte>>

    /** What never changes in the buffer, and the spots waiting there. */
    ghost const fixed: seq<byte>
    ghost var pending: seq<Spot>

    ghost predicate Valid()
      reads this, buffer
    {
      && buffer.Length == ROOM && dst <= ROOM
      && start == 12 + |fixed|
      && Holds(buffer[..dst], fixed, Reports(pending))
      && counter == |pending|
    }

    /** memcpy to *dst, which then moves on. */
    method Copy(bytes: seq<byte>)
      requires dst + |bytes| <= buffer.Length
      modifies this`dst, buffer
      ensures dst == old(dst) + |bytes|
      ensures buffer[..dst] == old(buffer[..dst]) + bytes
      ensures forall k :: dst <= k < buffer.Length ==> buffer[k] == old(buffer[k])
    {
      forall k | 0 <= k < |bytes| {
        buffer[dst + k] := bytes[k];
      }
      dst := dst + |bytes|;
    }

    /** copy_int2 twice, at start: the header of a set. */
    method WriteSetHeader(id: nat, size: nat, ghost end: nat)
      requires start + 4 <= end <= buffer.Length
      modifies this`dst, buffer
      ensures dst == start + 4
      ensures buffer[..end] == Patch(old(buffer[..end]), start, Int2(id) + Int2(size))
      ensures forall k :: end <= k < buffer.Length ==> buffer[k] == old(buffer[k])
    {
      dst := start;
      Copy(Int2(id));
      Copy(Int2(size));
      assert buffer[..end][..start + 4] == buffer[..start + 4] && old(buffer[..end])[..start] == old(buffer[..start]);
      Associates(old(buffer[..start]), Int2(id), Int2(size));
      PatchFromPrefix(buffer[..end], old(buffer[..end]), start, Int2(id) + Int2(size));
    }

    /** copy_char, of what strlen counts. */
    method CopyChar(value: seq<byte>)
      requires IsString(value) && |value| < 128 && dst + 1 + |value| <= buffer.Length
      modifies this`dst, buffer
      ensures dst == old(dst) + 1 + |value|
      ensures buffer[..dst] == old(buffer[..dst]) + Text(value)
      ensures forall k :: dst <= k < buffer.Length ==> buffer[k] == old(buffer[k])
    {
      Copy([|value|]);
      Copy(value);
    }

    /** The fields of the receiver. */
    method CopyReceiver(st: Station)
      requires dst + |Receiver(st)| <= buffer.Length
      modifies this`dst, buffer
      ensures dst == old(dst) + |Receiver(st)|
      ensures buffer[..dst] == old(buffer[..dst]) + Receiver(st)
      ensures forall k :: dst <= k < buffer.Length ==> buffer[k] == old(buffer[k])
    {
      ghost var was := buffer[..dst];
      ReceiverSize(st);
      CopyChar(st.0);
      CopyChar(st.1);
      CopyChar(SOFT);
      CopyChar(st.2);
      Append4(was, Text(st.0), Text(st.1), Text(SOFT), Text(st.2));
    }

    /** The header, and the set of the receiver behind the room for its header. */
    method CopyHead(st: Station, domain: int) returns (ghost p: seq<byte>)
      requires start == 120 && dst == 0 && buffer.Length == ROOM
      modifies this`dst, buffer
      ensures dst == 120 + SetSize(|Receiver(st)|) <= 236
      ensures |p| == 124 && p[..120] == Template(domain) && buffer[..dst] == p + Padded(Receiver(st))
    {
      ReceiverSize(st);
      Copy(Template(domain));
      dst := start + 4;
      p := buffer[..dst];
      assert p[..120] == buffer[..120];
      CopyReceiver(st);
      var size := dst - start;
      var padding := (4 - size % 4) % 4;
      Copy(Zeros(padding));
      assert p + Receiver(st) + Zeros(padding) == p + Padded(Receiver(st));
    }

    /** Everything before the loop. */
    constructor (st: Station, domain: int)
      ensures Valid() && fresh(buffer)
      ensures fixed == Fixed(st, domain) && pending == [] && sequence == 0 && sent == []
    {
      fixed := Fixed(st, domain);
      buffer := new byte[ROOM];
      start, dst, counter, sequence, sent, pending := 120, 0, 0, 0, [], [];
      new;
      ghost var p := CopyHead(st, domain);
      var size := dst - start;
      WriteSetHeader(RECEIVER, size, dst);
      StartHolds(p, buffer[..start + size], st, domain);
      start := start + size;
      dst := start + 4;
      Further(buffer[..], start, dst);
      StartsEmpty(buffer[..dst], fixed);
    }

    /** The first two fields of a spot. */
    method CopyNames(s: Spot)
      requires dst + 2 + |s.call| + |s.grid| <= buffer.Length
      modifies this`dst, buffer
      ensures dst == old(dst) + 2 + |s.call| + |s.grid|
      ensures buffer[..dst] == old(buffer[..dst]) + Text(s.call) + Text(s.grid)
      ensures forall k :: dst <= k < buffer.Length ==> buffer[k] == old(buffer[k])
    {
      CopyChar(s.call);
      CopyChar(s.grid);
    }

    /** The fields of one spot. */
    method CopySpot(s: Spot)
      requires dst + |Report(s)| <= buffer.Length
      modifies this`dst, buffer
      ensures dst == old(dst) + |Report(s)|
      ensures buffer[..dst] == old(buffer[..dst]) + Report(s)
      ensures forall k :: dst <= k < buffer.Length ==> buffer[k] == old(buffer[k])
    {
      ghost var was := buffer[..dst];
      ReportSize(s);
      CopyNames(s);
      Copy(Int4(s.freq));
      Copy(Int1(s.snr));
      CopyChar(FT8);
      Copy(Int1(1));
      Copy(Int4(s.time + 15));
      Append7(was, Text(s.call), Text(s.grid), Int4(s.freq), Int1(s.snr), Text(FT8), Int1(1), Int4(s.time + 15));
    }

    /** The rest of the loop body for a line that is a spot. */
    method AddSpot(s: Spot)
      requires Valid() && dst + |Report(s)| <= ROOM
      modifies this`dst, this`counter, this`pending, buffer
      ensures Valid() && pending == old(pending) + [s]
    {
      ReportsSnoc(pending, s);
      AddKeeps(buffer[..dst], fixed, Reports(pending), Report(s));
      CopySpot(s);
      counter := counter + 1;
      pending := pending + [s];
    }

    /** Padding and set header. */
    method PadSet(ghost n: nat) returns (size: nat)
      requires dst == start + 4 + n && start + SetSize(n) <= buffer.Length
      modifies this`dst, buffer
      ensures size == SetSize(n)
      ensures buffer[..start + size]
           == Patch(old(buffer[..dst]) + Zeros(Padding(4 + n)), start, Int2(SENDER) + Int2(size))
    {
      size := dst - start;
      var padding := (4 - size % 4) % 4;
      size := size + padding;
      Copy(Zeros(padding));
      WriteSetHeader(SENDER, size, start + size);
    }

    /** The changing part of the message header. */
    method WriteMessageHeader(size: nat, now: int, ghost end: nat)
      requires 12 <= end <= buffer.Length
      modifies this`dst, buffer
      ensures dst == 12
      ensures buffer[..end] == Patch(old(buffer[..end]), 2, Int2(size) + Int4(now) + Int4(sequence))
      ensures forall k :: end <= k < buffer.Length ==> buffer[k] == old(buffer[k])
    {
      dst := 2;
      Copy(Int2(size));
      Copy(Int4(now));
      Copy(Int4(sequence));
      assert buffer[..end][..12] == buffer[..12] && old(buffer[..end])[..2] == old(buffer[..2]);
      Associates(old(buffer[..2]), Int2(size), Int4(now));
      Associates(old(buffer[..2]), Int2(size) + Int4(now), Int4(sequence));
      PatchFromPrefix(buffer[..end], old(buffer[..end]), 2, Int2(size) + Int4(now) + Int4(sequence));
    }

    /** Padding and headers: the bytes of the datagram are complete. */
    method Seal(now: int, ghost reports: seq<byte>) returns (size: nat)
      requires buffer.Length == ROOM && dst <= ROOM && start == 12 + |fixed|
      requires Holds(buffer[..dst], fixed, reports) && start + SetSize(|reports|) <= ROOM
      modifies this`dst, buffer
      ensures size <= ROOM && buffer[..size] == Assembled(fixed, reports, now, sequence)
      ensures start + 4 <= size && Holds(buffer[..size][..start + 4], fixed, [])
    {
      SealedIsAssembled(buffer[..dst], fixed, reports, now, sequence);
      size := PadSet(|reports|);
      size := size + start;
      WriteMessageHeader(size, now, size);
    }

    /** The sending of a datagram. */
    method Flush(now: int)
      requires Valid() && start + SetSize(|Reports(pending)|) <= ROOM
      modifies this`dst, this`counter, this`sequence, this`sent, this`pending, buffer
      ensures Valid() && pending == [] && sequence == old(sequence) + 1
      ensures sent == old(sent) + [Assembled(fixed, Reports(old(pending)), now, old(sequence))]
    {
      var size := Seal(now, Reports(pending));
      sent := sent + [buffer[..size]];
      counter := 0;
      sequence := sequence + 1;
      dst := start + 4;
      pending := [];
      assert buffer[..dst] == buffer[..size][..dst];
    }

    /** What is sent and what the lines still to come will make are the datagrams of the file. */
    ghost predicate Remains(goal: seq<seq<byte>>, st: Station, domain: int, clock: nat -> int, lines: seq<Line>)
      reads this
    {
      && fixed == Fixed(st, domain) && counter == |pending| < BATCH
      && AllFit(st, Batches(pending, lines))
      && sent + Sent(st, domain, clock, sequence, Batches(pending, lines)) == goal
    }

    /** A flush when these are the pending spots of a whole batch. */
    method FlushBatch(now: int, ghost st: Station, ghost domain: int)
      requires Valid() && fixed == Fixed(st, domain) && MessageSize(st, pending) <= ROOM
      modifies this`dst, this`counter, this`sequence, this`sent, this`pending, buffer
      ensures Valid() && pending == [] && sequence == old(sequence) + 1
      ensures sent == old(sent) + [Datagram(st, domain, now, old(sequence), old(pending))]
    {
      AssembledIsDatagram(st, domain, now, sequence, pending);
      Flush(now);
    }

    /** A batch is complete. */
    method FlushFull(clock: nat -> int, ghost goal: seq<seq<byte>>, ghost st: Station, ghost domain: int,
                     ghost rest: seq<seq<Spot>>)
      requires Valid() && fixed == Fixed(st, domain) && pending != [] && MessageSize(st, pending) <= ROOM
      requires sent + Sent(st, domain, clock, sequence, [pending] + rest) == goal
      modifies this`dst, this`counter, this`sequence, this`sent, this`pending, buffer
      ensures Valid() && pending == [] && sent + Sent(st, domain, clock, sequence, rest) == goal
    {
      if counter > 0 {
        ghost var k, batch := sequence, pending;
        FlushBatch(clock(sequence), st, domain);
        SentCons(old(sent), sent, goal, st, domain, clock, k, batch, rest);
      }
    }

    /** The body of the loop for a line that fgets returns. */
    method TakeLine(line: Line, clock: nat -> int, ghost goal: seq<seq<byte>>, ghost st: Station, ghost domain: int,
                    ghost lines: seq<Line>)
      requires Valid() && lines != [] && lines[0] == line && Remains(goal, st, domain, clock, lines)
      modifies this`dst, this`counter, this`sequence, this`sent, this`pending, buffer
      ensures Valid() && Remains(goal, st, domain, clock, lines[1..])
    {
      if line.None? {
        LineSkipped(pending, lines);
        return;
      }
      NextSpotFits(st, pending, lines);
      SpotFits(st, domain, pending, line.value);
      AddSpot(line.value);
      SpotTaken(old(pending), lines);
      if counter < 10 {
        return;
      }
      FlushFull(clock, goal, st, domain, Batches([], lines[1..]));
    }

    /** And at the end of the file. */
    method Finish(clock: nat -> int, ghost goal: seq<seq<byte>>, ghost st: Station, ghost domain: int)
      requires Valid() && Remains(goal, st, domain, clock, [])
      modifies this`dst, this`counter, this`sequence, this`sent, this`pending, buffer
      ensures Valid() && pending == [] && sent == goal
    {
      if counter > 0 {
        ghost var k, batch := sequence, pending;
        assert Batches(batch, [])[0] == batch;
        FlushBatch(clock(sequence), st, domain);
        assert [batch] + [] == [batch];
        SentCons(old(sent), sent, goal, st, domain, clock, k, batch, []);
      }
    }

    /** The whole loop over the lines of the file. */
    method Run(lines: seq<Line>, clock: nat -> int, ghost st: Station, ghost domain: int)
      requires Valid() && fixed == Fixed(st, domain) && pending == [] && sequence == 0 && sent == []
      requires AllFit(st, Batches([], lines))
      modifies this, buffer
      ensures sent == Sent(st, domain, clock, 0, Batches([], lines))
    {
      ghost var goal := Sent(st, domain, clock, 0, Batches([], lines));
      var i := 0;
      assert lines[0..] == lines && [] + goal == goal;
      while i < |lines|
        invariant 0 <= i <= |lines|
        invariant Valid() && Remains(goal, st, domain, clock, lines[i..])
      {
        assert lines[i..][1..] == lines[i + 1..];
        TakeLine(lines[i], clock, goal, st, domain, lines[i..]);
        i := i + 1;
      }
      Finish(clock, goal, st, domain);
    }
  }
}
