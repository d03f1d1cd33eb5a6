/** struct client of projects/hfdl_receiver/server/hfdl-receiver.c: a byte ring that the
    demultiplexer writes whole chunks to and the sender drains, on top of the ledger. */
module HfdlClient {
  import opened Bytes
  import opened HfdlDemux
  import opened HfdlLedger
  import opened Lists

  /** What the socket does with a send: it takes up to `room` bytes, would block, or fails. */
  datatype Socket = Takes(room: nat) | WouldBlock | Fails

  /** The ring bytes from start up to end, which may have wrapped around. */
  function Ring(a: seq<byte>, start: nat, end: nat): seq<byte>
    requires start <= |a| && end <= |a|
  {
    if start <= end then a[start..end] else a[start..] + a[..end]
  }

  ghost predicate Holds(a: seq<byte>, start: nat, end: nat, queued: seq<byte>) {
    start <= |a| && end <= |a| && Ring(a, start, end) == queued
  }

  function Length(start: nat, end: nat, max: nat): nat
    requires start <= max
  {
    if start <= end then end - start else end + (max - start)
  }

  /** The end pointer moved back by `drop` bytes. */
  function Back(end: nat, drop: nat, max: nat): nat
    requires drop <= end + max
  {
    if end < drop then end - drop + max else end - drop
  }

  /** A pointer one past the last byte is the same as one at the first. */
  lemma RingWraps(a: seq<byte>, p: nat)
    requires p < |a|
    ensures p > 0 ==> Ring(a, p, |a|) == Ring(a, p, 0)
    ensures Ring(a, |a|, p) == Ring(a, 0, p)
  {
  }

  lemma RingDrops(a: seq<byte>, start: nat, end: nat, drop: nat)
    requires start < |a| && end < |a| && drop <= Length(start, end, |a|)
    ensures Ring(a, start, Back(end, drop, |a|)) == Ring(a, start, end)[..Length(start, end, |a|) - drop]
    ensures |Ring(a, start, end)| == Length(start, end, |a|)
  {
  }

  /** An offset on a boundary of the client's chunks. */
  predicate Aligned(offset: nat, format: Format) {
    if format.CS16? then offset % CHUNK == 0 else offset % (CHUNK / 2) == 0
  }

  lemma BackBy1024(e: nat, d: nat, m: nat)
    requires d <= m
    ensures Back(1024 * e, 1024 * d, 1024 * m) % 1024 == 0
  {
    var q := if e < d then e - d + m else e - d;
    assert Back(1024 * e, 1024 * d, 1024 * m) == 1024 * q;
  }

  lemma BackBy512(e: nat, d: nat, m: nat)
    requires d <= m
    ensures Back(512 * e, 512 * d, 512 * m) % 512 == 0
  {
    var q := if e < d then e - d + m else e - d;
    assert Back(512 * e, 512 * d, 512 * m) == 512 * q;
  }

  /** Dropping whole chunks keeps the end pointer on a chunk boundary. */
  lemma BackAligned(end: nat, max: nat, format: Format)
    requires Aligned(end, format) && max % CHUNK == 0 && end < max
    ensures DropBytes(max) <= max
    ensures Aligned(Back(end, DropBytes(max), max), format) && Back(end, DropBytes(max), max) < max
  {
    var m, d := max / 1024, max / 2 / 1024;
    assert max == 1024 * m && DropBytes(max) == 1024 * d && d <= m;
    if format.CS16? {
      BackBy1024(end / 1024, d, m);
    } else {
      BackBy512(end / 512, 2 * d, 2 * m);
    }
  }

  /** Moving the end pointer back is what the ledger calls dropping. */
  lemma RingFollowsLedger(a: seq<byte>, start: nat, end: nat, l: Ledger)
    requires start < |a| && end < |a| && |a| == l.max
    requires l.Valid() && Ring(a, start, end) == l.Queued() && Settled(|l.Queued()|, l.max) >= 0
    ensures |l.Queued()| == Length(start, end, |a|)
    ensures var n := l.Normalized();
      && n.Valid()
      && (if MustDrop(Length(start, end, |a|), |a|) then
            n.dropped == l.dropped + DropBytes(|a|) && Ring(a, start, Back(end, DropBytes(|a|), |a|)) == n.Queued()
          else n == l)
  {
    RingDrops(a, start, end, 0);
    NormalizedIsValid(l);
    if MustDrop(Length(start, end, |a|), |a|) {
      RingDrops(a, start, end, DropBytes(|a|));
    }
  }

  /** Bytes written at the end pointer extend the ring. */
  lemma RingGrows(a: seq<byte>, b: seq<byte>, start: nat, end: nat, block: seq<byte>)
    requires |a| == |b| && start < |a| && end + |block| <= |a| && Length(start, end, |a|) + |block| < |a|
    requires b == a[..end] + block + a[end + |block|..]
    ensures Ring(b, start, end + |block|) == Ring(a, start, end) + block
    ensures Length(start, end + |block|, |a|) == Length(start, end, |a|) + |block|
  {
  }

  /** Bytes taken at the start pointer, without passing the end of the array. */
  lemma RingSends(a: seq<byte>, start: nat, end: nat, n: nat)
    requires start < |a| && end < |a| && n <= Length(start, end, |a|) && start + n <= |a|
    ensures |Ring(a, start, end)| == Length(start, end, |a|)
    ensures a[start..start + n] == Ring(a, start, end)[..n]
    ensures Ring(a, start + n, end) == Ring(a, start, end)[n..]
    ensures Length(start + n, end, |a|) == Length(start, end, |a|) - n
  {
    if start <= end {
      assert a[start..end][..n] == a[start..start + n] && a[start..end][n..] == a[start + n..end];
    } else {
      assert a[start..] == a[start..start + n] + a[start + n..];
      Associates(a[start..start + n], a[start + n..], a[..end]);
      assert a[start + n..][..0] == [];
    }
  }

  lemma RoomFor1024(end: nat, max: nat)
    requires end % 1024 == 0 && max % 1024 == 0 && end < max
    ensures end + 1024 <= max && (end + 1024) % 1024 == 0
  {
  }

  lemma RoomFor512(end: nat, max: nat)
    requires end % 512 == 0 && max % 1024 == 0 && end < max
    ensures end + 512 <= max && (end + 512) % 512 == 0
  {
    assert max == 512 * (2 * (max / 1024));
  }

  /** A chunk written on a chunk boundary never passes the end of the array. */
  lemma RoomToWrite(end: nat, size: nat, max: nat, format: Format)
    requires Aligned(end, format) && max % CHUNK == 0 && end < max && size == format.Bytes(1)
    ensures end + size <= max && Aligned(end + size, format)
  {
    if format.CS16? {
      RoomFor1024(end, max);
    } else {
      RoomFor512(end, max);
    }
  }

  lemma WriteFollowsLedger(a: seq<byte>, b: seq<byte>, start: nat, end: nat, l: Ledger, block: seq<byte>)
    requires |a| == |b| == l.max && start < |a| && end + |block| <= |a|
    requires Settles(l) && Ring(a, start, end) == l.Queued() && |block| == l.format.Bytes(1)
    requires b == a[..end] + block + a[end + |block|..]
    ensures l.Written(block).Valid() && Settles(l.Written(block).Normalized())
    ensures Holds(b, start, end + |block|, l.Written(block).Queued())
    ensures Length(start, end + |block|, |a|) == |l.Written(block).Queued()| < |a|
    ensures Settled(|l.Written(block).Queued()|, |a|) >= 0
  {
    WriteSettles(l, block);
    WrittenIsValid(l, block);
    assert Length(start, end, |a|) == |Ring(a, start, end)|;
    RingGrows(a, b, start, end, block);
  }

  lemma SendFollowsLedger(a: seq<byte>, start: nat, end: nat, l: Ledger, n: nat)
    requires |a| == l.max && start < |a| && end < |a| && n <= Length(start, end, |a|) && start + n <= |a|
    requires Settles(l) && Ring(a, start, end) == l.Queued()
    ensures n <= |l.Queued()| && l.Taken(n).sent == l.sent + a[start..start + n]
    ensures l.Taken(n).Normalized() == l.Taken(n) && Settles(l.Taken(n))
    ensures Holds(a, start + n, end, l.Taken(n).Queued())
    ensures Length(start + n, end, |a|) == |l.Taken(n).Queued()| < |a|
  {
    RingSends(a, start, end, n);
    SendSettles(l, n);
    TakenIsValid(l, n);
  }

  lemma Spliced(a: seq<byte>, was: seq<byte>, at: nat, block: seq<byte>)
    requires |a| == |was| && at + |block| <= |a|
    requires forall n :: 0 <= n < |block| ==> a[at + n] == block[n]
    requires forall p :: 0 <= p < |a| && (p < at || p >= at + |block|) ==> a[p] == was[p]
    ensures a == was[..at] + block + was[at + |block|..]
  {
  }

  class Client {
    const sendq: array<byte>
    var start: nat
    var end: nat
    const sendqMax: nat
    var fd: int
    const format: Format
    const channel: nat
    var bytesDropped: nat
    var lastProgress: int
    ghost var ledger: Ledger

    /** The pointers stay inside the ring, the end pointer on a chunk boundary, and the bytes
        in the ring are those the ledger says are queued. */
    ghost predicate Consistent()
      reads this, sendq
    {
      && sendq.Length == sendqMax == ledger.max && format == ledger.format && channel < NUMCHANS
      && start <= sendqMax && end <= sendqMax && Aligned(end, format)
      && ledger.Valid() && bytesDropped == ledger.dropped
      && Ring(sendq[..], start, end) == ledger.Queued()
    }

    /** Between calls the pointers are strictly inside and the ring has room for two chunks. */
    ghost predicate Valid()
      reads this, sendq
    {
      Consistent() && start < sendqMax && end < sendqMax && Settles(ledger)
    }

    constructor Allocate(sendqMax: nat, format: Format, channel: nat)
      requires sendqMax >= 3 * CHUNK && channel < NUMCHANS
      ensures Valid() && fresh(sendq)
      ensures this.sendqMax == sendqMax / CHUNK * CHUNK && fd == -1
      ensures this.format == format && this.channel == channel
      ensures ledger == Opened(this.sendqMax, format)
    {
      var max := sendqMax / CHUNK * CHUNK;
      this.sendqMax, this.format, this.channel := max, format, channel;
      sendq := new byte[max];
      start, end, fd, bytesDropped, lastProgress := 0, 0, -1, 0, 0;
      ledger := Opened(max, format);
    }

    function SendqLen(): nat
      reads this
      requires start <= sendqMax
    {
      if start <= end then end - start else end + (sendqMax - start)
    }

    /** A new connection starts with an empty ring. */
    method Accept(accepted: int, now: int)
      requires Valid() && fd == -1
      modifies this
      ensures Valid() && fd == accepted
      ensures accepted >= 0 ==> ledger == Opened(sendqMax, format) && lastProgress == now
      ensures accepted < 0 ==> ledger == old(ledger) && lastProgress == old(lastProgress)
    {
      fd := accepted;
      if fd >= 0 {
        start, end := 0, 0;
        bytesDropped := 0;
        lastProgress := now;
        ledger := Opened(sendqMax, format);
      }
    }

    method Close()
      requires Valid()
      modifies this`fd
      ensures Valid() && fd == -1
    {
      fd := -1;
    }

    /** The first half of normalizeSendq: pointers at the very end wrap to the beginning, and
        neither of the two fatal exits is reachable. */
    method WrapPointers()
      requires Consistent() && SendqLen() < sendqMax
      modifies this`start, this`end
      ensures Consistent() && start < sendqMax && end < sendqMax
    {
      ghost var a := sendq[..];
      if end > sendqMax {
        assert false;
      }
      if end == sendqMax {
        if start < sendqMax {
          RingWraps(a, start);
        }
        end := 0;
      }
      if start > sendqMax {
        assert false;
      }
      if start == sendqMax {
        RingWraps(a, end);
        start := 0;
      }
    }

    /** The second half. */
    method DropHalf()
      requires Consistent() && start < sendqMax && end < sendqMax && Settled(|ledger.Queued()|, sendqMax) >= 0
      modifies this`end, this`bytesDropped, this`ledger
      ensures Consistent() && end < sendqMax
      ensures ledger == old(ledger).Normalized()
    {
      ghost var next := ledger.Normalized();
      RingFollowsLedger(sendq[..], start, end, ledger);
      BackAligned(end, sendqMax, format);
      if SendqLen() + 2 * CHUNK >= sendqMax {
        var dropBytes := sendqMax / 2 / CHUNK * CHUNK;
        bytesDropped := bytesDropped + dropBytes;
        end := Back(end, dropBytes, sendqMax);
      }
      ledger := next;
    }

    /** Wraps the pointers, then drops half the ring when it gets full. */
    method NormalizeSendq()
      requires Consistent() && SendqLen() < sendqMax && Settled(|ledger.Queued()|, sendqMax) >= 0
      modifies this`start, this`end, this`bytesDropped, this`ledger
      ensures Consistent() && start < sendqMax && end < sendqMax
      ensures ledger == old(ledger).Normalized()
    {
      WrapPointers();
      DropHalf();
    }

    /** The demultiplexing loop for CS16: every 13th sample of the chunk, copied as it is. */
    method CopyCs16(buffer: array<byte>)
      requires channel < NUMCHANS && buffer.Length == CHUNK_BYTES && buffer != sendq
      requires end + CHUNK <= sendq.Length
      modifies sendq
      ensures sendq[..] == old(sendq[..end]) + Block(buffer[..], CS16, channel) + old(sendq[end + CHUNK..])
    {
      ghost var block := Block(buffer[..], CS16, channel);
      var t, k := 0, channel;
      while k < NUMCHANS * 256
        invariant 0 <= t <= 256 && k == channel + NUMCHANS * t
        invariant forall n :: 0 <= n < 4 * t ==> sendq[end + n] == block[n]
        invariant forall p :: 0 <= p < sendq.Length && (p < end || p >= end + 4 * t) ==> sendq[p] == old(sendq[p])
      {
        Cs16Sample(buffer[..], channel, t);
        var target := end + 4 * t;
        sendq[target], sendq[target + 1], sendq[target + 2], sendq[target + 3]
          := buffer[4 * k], buffer[4 * k + 1], buffer[4 * k + 2], buffer[4 * k + 3];
        t, k := t + 1, k + NUMCHANS;
      }
      Spliced(sendq[..], old(sendq[..]), end, block);
    }

    /** One sample of the loop for CU8. */
    method StoreCu8(target: nat, i: byte, q: byte)
      requires target + 2 <= sendq.Length
      modifies sendq
      ensures sendq[target] == ToCu8(i) && sendq[target + 1] == ToCu8(q)
      ensures forall p :: 0 <= p < sendq.Length && p != target && p != target + 1 ==> sendq[p] == old(sendq[p])
    {
      sendq[target], sendq[target + 1] := ToCu8(i), ToCu8(q);
    }

    /** The demultiplexing loop for CU8: the high bytes of I and Q, shifted. */
    method CopyCu8(buffer: array<byte>)
      requires channel < NUMCHANS && buffer.Length == CHUNK_BYTES && buffer != sendq
      requires end + CHUNK / 2 <= sendq.Length
      modifies sendq
      ensures sendq[..] == old(sendq[..end]) + Block(buffer[..], CU8, channel) + old(sendq[end + CHUNK / 2..])
    {
      ghost var block := Block(buffer[..], CU8, channel);
      var t, k := 0, channel;
      while k < NUMCHANS * 256
        invariant 0 <= t <= 256 && k == channel + NUMCHANS * t
        invariant forall n :: 0 <= n < 2 * t ==> sendq[end + n] == block[n]
        invariant forall p :: 0 <= p < sendq.Length && (p < end || p >= end + 2 * t) ==> sendq[p] == old(sendq[p])
      {
        Cu8Sample(buffer[..], channel, t);
        StoreCu8(end + 2 * t, buffer[4 * k + 1], buffer[4 * k + 3]);
        t, k := t + 1, k + NUMCHANS;
      }
      Spliced(sendq[..], old(sendq[..]), end, block);
    }

    method Demultiplex(buffer: array<byte>)
      requires channel < NUMCHANS && buffer.Length == CHUNK_BYTES && buffer != sendq
      requires end + format.Bytes(1) <= sendq.Length
      modifies sendq
      ensures sendq[..] == old(sendq[..end]) + Block(buffer[..], format, channel) + old(sendq[end + format.Bytes(1)..])
    {
      if format == CU8 {
        CopyCu8(buffer);
      } else {
        CopyCs16(buffer);
      }
    }

    method MoveEnd(size: nat, ghost next: Ledger)
      requires sendq.Length == sendqMax == next.max && format == next.format && channel < NUMCHANS
      requires size == format.Bytes(1) && start <= sendqMax && end < sendqMax && Aligned(end, format)
      requires next.Valid() && bytesDropped == next.dropped
      requires Holds(sendq[..], start, end + size, next.Queued())
      modifies this`end, this`ledger
      ensures Consistent() && end == old(end) + size && ledger == next
    {
      RoomToWrite(end, size, sendqMax, format);
      end := end + size;
      ledger := next;
    }

    method Append(ghost before: seq<byte>, ghost block: seq<byte>)
      requires |before| == sendq.Length == sendqMax == ledger.max && format == ledger.format && channel < NUMCHANS
      requires start < sendqMax && end < sendqMax && Aligned(end, format) && bytesDropped == ledger.dropped
      requires Settles(ledger) && Ring(before, start, end) == ledger.Queued() && |block| == format.Bytes(1)
      requires end + |block| <= sendqMax && sendq[..] == before[..end] + block + before[end + |block|..]
      modifies this`end, this`ledger
      ensures Consistent() && SendqLen() < sendqMax && Settled(|ledger.Queued()|, sendqMax) >= 0
      ensures ledger == old(ledger).Written(block) && Settles(ledger.Normalized())
    {
      RoomToWrite(end, |block|, sendqMax, format);
      WriteFollowsLedger(before, sendq[..], start, end, ledger, block);
      MoveEnd(if format == CU8 then CHUNK / 2 else CHUNK, ledger.Written(block));
    }

    /** The block now behind the end pointer becomes part of the ring, which then settles. */
    method Extend(ghost before: seq<byte>, ghost block: seq<byte>)
      requires |before| == sendq.Length == sendqMax == ledger.max && format == ledger.format && channel < NUMCHANS
      requires start < sendqMax && end < sendqMax && Aligned(end, format) && bytesDropped == ledger.dropped
      requires Settles(ledger) && Ring(before, start, end) == ledger.Queued() && |block| == format.Bytes(1)
      requires end + |block| <= sendqMax && sendq[..] == before[..end] + block + before[end + |block|..]
      modifies this`start, this`end, this`bytesDropped, this`ledger
      ensures Valid()
      ensures ledger == old(ledger).Written(block).Normalized()
    {
      Append(before, block);
      NormalizeSendq();
    }

    /** What main does with each chunk for a connected client: demultiplexes its channel to the
        end of the ring and normalizes. */
    method WriteChunk(buffer: array<byte>)
      requires Valid() && fd >= 0 && buffer.Length == CHUNK_BYTES && buffer != sendq
      modifies this`start, this`end, this`bytesDropped, this`ledger, sendq
      ensures Valid()
      ensures ledger == old(ledger).Written(Block(buffer[..], format, channel)).Normalized()
    {
      ghost var before, block := sendq[..], Block(buffer[..], format, channel);
      RoomToWrite(end, format.Bytes(1), sendqMax, format);
      Demultiplex(buffer);
      Extend(before, block);
    }

    method MoveStart(n: nat, ghost next: Ledger)
      requires sendq.Length == sendqMax == next.max && format == next.format && channel < NUMCHANS
      requires start + n <= sendqMax && end <= sendqMax && Aligned(end, format)
      requires next.Valid() && bytesDropped == next.dropped
      requires Holds(sendq[..], start + n, end, next.Queued())
      modifies this`start, this`ledger
      ensures Consistent() && start == old(start) + n && ledger == next
    {
      start := start + n;
      ledger := next;
    }

    method Take(n: nat)
      requires Valid() && 0 < n <= SendqLen() && start + n <= sendqMax
      modifies this`start, this`ledger
      ensures n <= |old(ledger).Queued()| && ledger == old(ledger).Taken(n)
      ensures Consistent() && SendqLen() < sendqMax && Settled(|ledger.Queued()|, sendqMax) >= 0
      ensures ledger.Normalized() == ledger && Settles(ledger)
      ensures ledger.sent == old(ledger.sent) + old(sendq[start..start + n])
    {
      SendFollowsLedger(sendq[..], start, end, ledger, n);
      MoveStart(n, ledger.Taken(n));
    }

    /** The bytes a send has taken leave the ring. */
    method Advance(n: nat, now: int)
      requires Valid() && 0 < n <= SendqLen() && start + n <= sendqMax
      modifies this`start, this`end, this`bytesDropped, this`lastProgress, this`ledger
      ensures Valid() && n <= |old(ledger).Queued()|
      ensures ledger == old(ledger).Taken(n) && lastProgress == now && bytesDropped == old(bytesDropped)
      ensures ledger.sent == old(ledger.sent) + old(sendq[start..start + n])
    {
      Take(n);
      NormalizeSendq();
      lastProgress := now;
    }

    /** flushClient: sends what is contiguous and within the limit, if there is enough. Returns
        the bytes sent and how many, -2 if the send would block, -1 if it failed. */
    method FlushClient(min: nat, limit: nat, now: int, socket: Socket) returns (written: int, sent: seq<byte>)
      requires Valid() && fd >= 0
      modifies this`start, this`end, this`bytesDropped, this`lastProgress, this`ledger
      ensures Valid()
      ensures 0 <= written <= limit || (written == -1 && socket.Fails?) || (written == -2 && socket.WouldBlock?)
      ensures old(SendqLen()) < min || old(SendqLen()) == 0 ==> written == 0
      ensures old(SendqLen()) >= min && old(SendqLen()) > 0 && socket.WouldBlock? ==> written == -2
      ensures old(SendqLen()) >= min && old(SendqLen()) > 0 && socket.Fails? ==> written == -1
      ensures old(SendqLen()) >= min && old(SendqLen()) > 0 && socket.Takes? ==>
        && written <= socket.room && written <= old(SendqLen()) && written <= sendqMax - old(start)
        && (written == socket.room || written == limit
            || written == old(SendqLen()) || written == sendqMax - old(start))
      ensures written > 0 ==>
        && written <= |old(ledger).Queued()|
        && ledger == old(ledger).Taken(written) && ledger.sent == old(ledger.sent) + sent
        && lastProgress == now && bytesDropped == old(bytesDropped)
      ensures written <= 0 ==> ledger == old(ledger) && lastProgress == old(lastProgress)
    {
      sent := [];
      var toWrite := SendqLen();
      if toWrite < min || toWrite <= 0 {
        return 0, [];
      }
      if start + toWrite > sendqMax {
        toWrite := sendqMax - start;
      }
      if toWrite > limit {
        toWrite := limit;
      }
      if socket.WouldBlock? {
        return -2, [];
      }
      if socket.Fails? {
        return -1, [];
      }
      written := if socket.room < toWrite then socket.room else toWrite;
      if written > 0 {
        sent := sendq[start..start + written];
        Advance(written, now);
      }
    }
  }
}
