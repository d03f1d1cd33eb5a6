/** What a client of projects/hfdl_receiver/server/hfdl-receiver.c is owed: the accounting of
    whole channel chunks produced, kept, sent and dropped, without the ring that stores them. */
module HfdlLedger {
  import opened Bytes
  import opened Lists
  import Runs

  /** CHUNK_CHANNEL_BYTES: one channel's 256 samples of 4 bytes. */
  const CHUNK: nat := 1024

  datatype Format = CS16 | CU8 {
    /** n chunks as the client gets them: a CU8 sample takes 2 bytes instead of 4. */
    function Bytes(n: nat): nat { if CS16? then n * CHUNK else n * (CHUNK / 2) }

    /** How many chunks fit into this many bytes. */
    function Chunks(bytes: nat): nat { if CS16? then bytes / CHUNK else bytes / (CHUNK / 2) }
  }

  /** The bytes dropped at once: half the ring, in whole chunks. */
  function DropBytes(max: nat): nat {
    max / 2 / CHUNK * CHUNK
  }

  predicate MustDrop(queued: int, max: nat) {
    queued + 2 * CHUNK >= max
  }

  /** How much a ring that holds `queued` bytes holds after normalizeSendq. */
  function Settled(queued: int, max: nat): int {
    if MustDrop(queued, max) then queued - DropBytes(max) else queued
  }

  /** From an empty ring, or any fill level the policy leaves alone, a write of `size` bytes
      does not fill the ring, drops no more than is queued, and ends at such a level again. */
  predicate KeepsRoom(queued: int, size: nat, max: nat) {
    && queued + size < max
    && Settled(queued + size, max) >= 0
    && (Settled(queued + size, max) == 0 || !MustDrop(Settled(queued + size, max), max))
  }

  predicate IdleLevel(queued: int, max: nat) {
    queued == 0 || (queued > 0 && !MustDrop(queued, max))
  }

  lemma RoomIsKept(queued: int, size: nat, max: nat)
    requires max % CHUNK == 0 && IdleLevel(queued, max)
    requires (size == CHUNK / 2 && max >= 3 * CHUNK) || (size == CHUNK && max >= 2 * CHUNK)
    ensures KeepsRoom(queued, size, max)
  {
  }

  /** The drop policy works for exactly the rings of at least three chunks when the client
      takes CU8 samples, and of at least two when it takes CS16. */
  lemma RingsThatKeepRoom(max: nat)
    requires max % CHUNK == 0
    ensures (forall q :: IdleLevel(q, max) ==> KeepsRoom(q, CHUNK / 2, max)) <==> max >= 3 * CHUNK
    ensures (forall q :: IdleLevel(q, max) ==> KeepsRoom(q, CHUNK, max)) <==> max >= 2 * CHUNK
  {
    assert IdleLevel(0, max);
    assert max < 3 * CHUNK ==> !KeepsRoom(0, CHUNK / 2, max);
    assert max < 2 * CHUNK ==> !KeepsRoom(0, CHUNK, max);
    forall q | IdleLevel(q, max) && max >= 3 * CHUNK ensures KeepsRoom(q, CHUNK / 2, max) {
      RoomIsKept(q, CHUNK / 2, max);
    }
    forall q | IdleLevel(q, max) && max >= 2 * CHUNK ensures KeepsRoom(q, CHUNK, max) {
      RoomIsKept(q, CHUNK, max);
    }
  }

  // ---------------------------------------------------------------- the ledger

  type Chunk = seq<byte>

  predicate WholeChunks(chunks: seq<Chunk>, format: Format) {
    forall c :: c in chunks ==> |c| == format.Bytes(1)
  }

  datatype Ledger = Ledger(max: nat, format: Format,
                           produced: seq<Chunk>, kept: seq<Chunk>, sent: seq<byte>, dropped: nat) {

    /** The chunks kept are in order of production, what was sent is the beginning of them,
        and every chunk produced is kept or accounted as dropped. */
    ghost predicate Valid() {
      && max % CHUNK == 0 && max >= 3 * CHUNK
      && WholeChunks(kept, format)
      && Subsequence(kept, produced)
      && sent <= Flatten(kept)
      && |kept| <= |produced|
      && dropped == format.Bytes(|produced| - |kept|)
    }

    /** The bytes still to be sent. */
    function Queued(): seq<byte>
      requires |sent| <= |Flatten(kept)|
    {
      Flatten(kept)[|sent|..]
    }

    /** What normalizeSendq does: half the ring is dropped from the tail when it gets full. */
    function Normalized(): Ledger
      requires |sent| <= |Flatten(kept)|
    {
      var m := format.Chunks(DropBytes(max));
      if MustDrop(|Queued()|, max) && m <= |kept| then
        this.(kept := kept[..|kept| - m], dropped := dropped + DropBytes(max))
      else this
    }

    /** A chunk has been written to the ring. */
    function Written(c: Chunk): Ledger {
      this.(produced := produced + [c], kept := kept + [c])
    }

    /** A send has taken the next n queued bytes. */
    function Taken(n: nat): Ledger
      requires |sent| <= |Flatten(kept)| && n <= |Queued()|
    {
      this.(sent := sent + Queued()[..n])
    }
  }

  lemma BytesSucc(n: nat, format: Format)
    ensures format.Bytes(n + 1) == format.Bytes(n) + format.Bytes(1)
  {
  }

  lemma FrontIsWhole(chunks: seq<Chunk>, format: Format)
    requires WholeChunks(chunks, format) && chunks != []
    ensures WholeChunks(chunks[..|chunks| - 1], format) && |chunks[|chunks| - 1]| == format.Bytes(1)
  {
  }

  lemma {:induction false} FlattenLength(chunks: seq<Chunk>, format: Format)
    requires WholeChunks(chunks, format)
    ensures |Flatten(chunks)| == format.Bytes(|chunks|)
  {
    if chunks != [] {
      var front, last := chunks[..|chunks| - 1], chunks[|chunks| - 1];
      FrontIsWhole(chunks, format);
      FlattenLength(front, format);
      BytesSucc(|front|, format);
    }
  }

  lemma WholeFit(d: nat)
    ensures d * 1024 / 1024 == d && d * 1024 / 512 == 2 * d
  {
  }

  lemma DropChunks(max: nat, format: Format)
    ensures format.Bytes(format.Chunks(DropBytes(max))) == DropBytes(max)
  {
    WholeFit(max / 2 / CHUNK);
  }

  lemma BytesMinus(a: nat, b: nat, format: Format)
    ensures format.Bytes(b) <= format.Bytes(a) <==> b <= a
    ensures b <= a ==> format.Bytes(a - b) == format.Bytes(a) - format.Bytes(b)
  {
  }

  /** Half the ring is a whole number of chunks, and they are all kept ones. */
  lemma DropIsWhole(l: Ledger)
    requires l.Valid() && DropBytes(l.max) <= |Flatten(l.kept)|
    ensures
      var m := l.format.Chunks(DropBytes(l.max));
      && m <= |l.kept|
      && |Flatten(l.kept[..|l.kept| - m])| == |Flatten(l.kept)| - DropBytes(l.max)
      && l.format.Bytes(|l.produced| - (|l.kept| - m)) == l.dropped + DropBytes(l.max)
  {
    var m := l.format.Chunks(DropBytes(l.max));
    DropChunks(l.max, l.format);
    FlattenLength(l.kept, l.format);
    BytesMinus(|l.kept|, m, l.format);
    BytesMinus(|l.produced| - |l.kept| + m, m, l.format);
    FlattenLength(l.kept[..|l.kept| - m], l.format);
  }

  lemma ShorterTail(all: seq<byte>, short: seq<byte>, sent: seq<byte>)
    requires short <= all && sent <= all && |sent| <= |short|
    ensures sent <= short && short[|sent|..] <= all[|sent|..]
  {
    assert short == all[..|short|];
    assert short[|sent|..] == all[|sent|..][..|short| - |sent|];
  }

  /** Settling drops whole chunks from the tail and never a byte of what was sent: not even
      of a chunk that was sent in part. */
  lemma NormalizedIsValid(l: Ledger)
    requires l.Valid()
    requires Settled(|l.Queued()|, l.max) >= 0
    ensures
      var n := l.Normalized();
      && n.Valid()
      && n.max == l.max && n.format == l.format && n.produced == l.produced && n.sent == l.sent
      && |n.Queued()| == Settled(|l.Queued()|, l.max)
      && n.Queued() <= l.Queued()
      && n.dropped - l.dropped == |l.Queued()| - |n.Queued()|
  {
    if MustDrop(|l.Queued()|, l.max) {
      DropIsWhole(l);
      var k := |l.kept| - l.format.Chunks(DropBytes(l.max));
      FlattenPrefix(l.kept, k);
      SubsequenceTake(l.kept, l.produced, k);
      ShorterTail(Flatten(l.kept), Flatten(l.kept[..k]), l.sent);
    }
  }

  lemma WrittenIsValid(l: Ledger, c: Chunk)
    requires l.Valid() && |c| == l.format.Bytes(1)
    ensures l.Written(c).Valid() && l.Written(c).Queued() == l.Queued() + c
  {
    FlattenSnoc(l.kept, c);
    SubsequenceSnoc(l.kept, l.produced, c);
  }

  lemma TakenIsValid(l: Ledger, n: nat)
    requires l.Valid() && n <= |l.Queued()|
    ensures l.Taken(n).Valid() && l.Taken(n).Queued() == l.Queued()[n..]
  {
  }

  // ---------------------------------------------------------------- runs

  /** What happens to a connected client: a chunk of its channel is produced, or a send takes
      up to `room` bytes of what is queued. */
  datatype Event = Produce(c: Chunk) | Send(room: nat)

  ghost function Step(l: Ledger, e: Event): Ledger {
    if !l.Valid() then l
    else match e
      case Produce(c) => if |c| == l.format.Bytes(1) then l.Written(c).Normalized() else l
      case Send(room) => l.Taken(if room < |l.Queued()| then room else |l.Queued()|).Normalized()
  }

  /** Between events the ring is never so full that it would have to drop. */
  ghost predicate Settles(l: Ledger) {
    l.Valid() && !MustDrop(|l.Queued()|, l.max)
  }

  lemma WriteSettles(l: Ledger, c: Chunk)
    requires Settles(l) && |c| == l.format.Bytes(1)
    ensures Settles(l.Written(c).Normalized())
    ensures |l.Written(c).Queued()| < l.max && Settled(|l.Written(c).Queued()|, l.max) >= 0
  {
    WrittenIsValid(l, c);
    RoomIsKept(|l.Queued()|, l.format.Bytes(1), l.max);
    NormalizedIsValid(l.Written(c));
  }

  /** A flush never triggers a drop. */
  lemma SendSettles(l: Ledger, n: nat)
    requires Settles(l) && n <= |l.Queued()|
    ensures l.Taken(n).Normalized() == l.Taken(n) && Settles(l.Taken(n))
  {
    TakenIsValid(l, n);
  }

  ghost function Opened(max: nat, format: Format): Ledger { Ledger(max, format, [], [], [], 0) }

  lemma StepSettles(l: Ledger, e: Event)
    requires Settles(l)
    ensures Settles(Step(l, e)) && Step(l, e).max == l.max && Step(l, e).format == l.format
  {
    match e
    case Produce(c) =>
      if |c| == l.format.Bytes(1) {
        WriteSettles(l, c);
      }
    case Send(room) =>
      SendSettles(l, if room < |l.Queued()| then room else |l.Queued()|);
  }

  /** produced = sent + queued + dropped, in bytes. */
  lemma Conservation(l: Ledger)
    requires l.Valid()
    ensures l.format.Bytes(|l.produced|) == |l.sent| + |l.Queued()| + l.dropped
  {
    FlattenLength(l.kept, l.format);
  }

  /** Over every interleaving of chunk production and partial sends since a connection was
      accepted: the bytes sent are a prefix of whole chunks in order of production, some left
      out, and every byte produced is sent, queued or dropped. */
  lemma {:induction false} SentIsPrefixOfWholeChunks(max: nat, format: Format, events: seq<Event>)
    requires max % CHUNK == 0 && max >= 3 * CHUNK
    ensures
      var l := Runs.Run(Step, Opened(max, format), events);
      && l.max == max && l.format == format && Settles(l)
      && l.sent <= Flatten(l.kept) && Subsequence(l.kept, l.produced) && WholeChunks(l.kept, format)
      && format.Bytes(|l.produced|) == |l.sent| + |l.Queued()| + l.dropped
  {
    if events != [] {
      SentIsPrefixOfWholeChunks(max, format, events[..|events| - 1]);
      StepSettles(Runs.Run(Step, Opened(max, format), events[..|events| - 1]), events[|events| - 1]);
    }
    Conservation(Runs.Run(Step, Opened(max, format), events));
  }

  // ---------------------------------------------------------------- how much is dropped

  lemma HalfInChunks(max: nat)
    ensures DropBytes(max) % CHUNK == 0 && DropBytes(max) <= max / 2 < DropBytes(max) + CHUNK
  {
    var d := max / 2 / 1024;
    assert DropBytes(max) == 1024 * d;
  }

  /** Nothing is dropped while the ring has room for more than two chunks; otherwise it is half
      the ring, rounded down to whole chunks, and from the tail of the queue. */
  lemma HalfIsDropped(l: Ledger)
    requires l.Valid() && Settled(|l.Queued()|, l.max) >= 0
    ensures
      var n := l.Normalized();
      var d := n.dropped - l.dropped;
      && n.Valid() && n.max == l.max && n.format == l.format
      && n.Queued() <= l.Queued() && |n.Queued()| == |l.Queued()| - d
      && (if |l.Queued()| + 2 * CHUNK >= l.max then d % CHUNK == 0 && l.max / 2 - CHUNK < d <= l.max / 2
          else d == 0)
  {
    NormalizedIsValid(l);
    HalfInChunks(l.max);
  }

  /** The chunks these events produce. */
  function Produced(events: seq<Event>): nat {
    if events == [] then 0
    else Produced(events[..|events| - 1]) + if events[|events| - 1].Produce? then 1 else 0
  }

  lemma StepBelow(l: Ledger, e: Event, room: nat)
    requires Settles(l) && |l.Queued()| + room + 2 * CHUNK < l.max
    requires e.Produce? ==> room >= l.format.Bytes(1)
    ensures
      var n := Step(l, e);
      && Settles(n) && n.max == l.max && n.format == l.format && n.dropped == l.dropped
      && |n.Queued()| <= |l.Queued()| + if e.Produce? then l.format.Bytes(1) else 0
  {
    StepSettles(l, e);
    match e
    case Produce(c) =>
      if |c| == l.format.Bytes(1) {
        WriteSettles(l, c);
        WrittenIsValid(l, c);
        NormalizedIsValid(l.Written(c));
      }
    case Send(room) =>
      TakenIsValid(l, if room < |l.Queued()| then room else |l.Queued()|);
      SendSettles(l, if room < |l.Queued()| then room else |l.Queued()|);
  }

  /** As long as what is queued and what is produced leaves room for two more chunks, nothing is
      dropped. */
  lemma {:induction false} NothingDropped(l: Ledger, events: seq<Event>)
    requires Settles(l) && |l.Queued()| + l.format.Bytes(Produced(events)) + 2 * CHUNK < l.max
    ensures
      var n := Runs.Run(Step, l, events);
      && Settles(n) && n.max == l.max && n.format == l.format && n.dropped == l.dropped
      && |n.Queued()| <= |l.Queued()| + l.format.Bytes(Produced(events))
  {
    if events != [] {
      var front, e := events[..|events| - 1], events[|events| - 1];
      if e.Produce? {
        BytesSucc(Produced(front), l.format);
      }
      NothingDropped(l, front);
      StepBelow(Runs.Run(Step, l, front), e, if e.Produce? then l.format.Bytes(1) else 0);
    }
  }

  /** p more chunks fit into what a drop of d bytes has freed. */
  lemma Freed(format: Format, p: nat, d: int, max: nat)
    requires max % CHUNK == 0 && d % CHUNK == 0 && max / 2 - CHUNK < d <= max / 2
    requires format.Bytes(p) <= max / 2 - CHUNK
    ensures format.Bytes(p) + format.Bytes(1) <= d
  {
    var m, k := max / 1024, d / 1024;
    assert max == 1024 * m && d == 1024 * k;
    if format.CS16? {
      assert format.Bytes(p) == 1024 * p;
    } else {
      assert format.Bytes(p) == 512 * p;
    }
  }

  lemma RoomAfterDrop(format: Format, before: nat, queued: nat, after: nat, p: nat, d: int, max: nat)
    requires before + 2 * CHUNK < max && queued == before + format.Bytes(1) && after == queued - d
    requires format.Bytes(p) + format.Bytes(1) <= d
    ensures after + format.Bytes(p) + 2 * CHUNK < max
  {
  }

  lemma DropMakesRoom(before: nat, l: Ledger, p: nat)
    requires l.Valid() && Settled(|l.Queued()|, l.max) >= 0 && l.Normalized().dropped > l.dropped
    requires before + 2 * CHUNK < l.max && |l.Queued()| == before + l.format.Bytes(1)
    requires l.format.Bytes(p) <= l.max / 2 - CHUNK
    ensures
      var n := l.Normalized();
      && n.Valid() && n.max == l.max && n.format == l.format
      && |n.Queued()| + l.format.Bytes(p) + 2 * CHUNK < l.max
  {
    HalfIsDropped(l);
    var n := l.Normalized();
    var d := n.dropped - l.dropped;
    Freed(l.format, p, d, l.max);
    RoomAfterDrop(l.format, before, |l.Queued()|, |n.Queued()|, p, d, l.max);
  }

  /** A drop makes room for half the ring: until that much less one chunk is produced again, no
      chunk is lost, whatever the client takes meanwhile. */
  lemma DropsAreFarApart(l: Ledger, c: Chunk, events: seq<Event>)
    requires Settles(l) && |c| == l.format.Bytes(1) && l.Written(c).Normalized().dropped > l.dropped
    requires l.format.Bytes(Produced(events)) <= l.max / 2 - CHUNK
    ensures
      var n := l.Written(c).Normalized();
      Runs.Run(Step, n, events).dropped == n.dropped
  {
    WriteSettles(l, c);
    WrittenIsValid(l, c);
    DropMakesRoom(|l.Queued()|, l.Written(c), Produced(events));
    NothingDropped(l.Written(c).Normalized(), events);
  }
}
