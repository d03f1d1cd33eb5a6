/** The datagrams of projects/sdr_transceiver_ft8/app/upload-to-pskreporter.c, and what an
    IPFIX collector reads out of them. */
module PskMessages {
  import opened Bytes
  import opened Ipfix
  import opened Lists

  // ---------------------------------------------------------------- numbers and strings

  /** copy_int1. */
  function Int1(v: int): seq<byte> { [v % 0x100] }

  /** copy_int2. */
  function Int2(v: int): (b: seq<byte>)
    ensures |b| == 2
  {
    [v / 0x100 % 0x100, v % 0x100]
  }

  /** copy_int4. */
  function Int4(v: int): (b: seq<byte>)
    ensures |b| == 4
  {
    BigEndian(v % 0x1_0000_0000)
  }

  /** copy_char. */
  function Text(s: seq<byte>): (b: seq<byte>)
    requires |s| < 128
  {
    [|s|] + s
  }

  function Padding(n: nat): (p: nat)
    ensures p < 4 && (n + p) % 4 == 0
  {
    (4 - n % 4) % 4
  }

  // ---------------------------------------------------------------- what is reported

  /** What strlen counts whole, and what a %s of sscanf takes: no NUL, and no white space. */
  predicate IsString(s: seq<byte>) { forall c :: c in s ==> c != 0 }

  predicate IsToken(s: seq<byte>) { forall c :: c in s ==> c != 0 && !(9 <= c <= 13) && c != 32 }

  /** The first three arguments of the program, within the limits it checks. */
  type Station = s: (seq<byte>, seq<byte>, seq<byte>)
    | |s.0| <= 16 && |s.1| <= 6 && |s.2| <= 64 && IsString(s.0) && IsString(s.1) && IsString(s.2)
    witness ([], [], [])

  /** A line of the input file that the program takes: call sign and locator as sscanf cuts
      them, frequency, signal-to-noise ratio and time as parsed. */
  datatype Reading = Reading(call: seq<byte>, grid: seq<byte>, freq: int, snr: int, time: int)
  type Spot = s: Reading | |s.call| <= 13 && |s.grid| <= 4 && IsToken(s.call) && IsToken(s.grid)
    witness Reading([], [], 0, 0, 0)

  /** "Web-888 FT8 TRX 1.0" and "FT8". */
  const SOFT: seq<byte> := [0x57, 0x65, 0x62, 0x2D, 0x38, 0x38, 0x38, 0x20, 0x46, 0x54, 0x38, 0x20, 0x54, 0x52, 0x58,
                            0x20, 0x31, 0x2E, 0x30]
  const FT8: seq<byte> := [0x46, 0x54, 0x38]

  function ReceiverFields(st: Station): Record { [st.0, st.1, SOFT, st.2] }

  function SpotFields(s: Spot): Record {
    [s.call, s.grid, Int4(s.freq), Int1(s.snr), FT8, Int1(1), Int4(s.time + 15)]
  }

  /** What is written for the receiver, and for a spot. */
  function Receiver(st: Station): seq<byte> { Text(st.0) + Text(st.1) + Text(SOFT) + Text(st.2) }

  function Report(s: Spot): seq<byte> {
    Text(s.call) + Text(s.grid) + Int4(s.freq) + Int1(s.snr) + Text(FT8) + Int1(1) + Int4(s.time + 15)
  }

  function Reports(spots: seq<Spot>): seq<byte> {
    if spots == [] then [] else Report(spots[0]) + Reports(spots[1..])
  }

  function AllFields(spots: seq<Spot>): seq<Record> {
    seq(|spots|, k requires 0 <= k < |spots| => SpotFields(spots[k]))
  }

  // ---------------------------------------------------------------- the message

  const RECEIVER: nat := 0x9992
  const SENDER: nat := 0x9993

  /** A field of the PSKReporter enterprise. */
  function Specifier(id: byte, len: nat): (s: seq<byte>)
    requires len < 0x1_0000
    ensures |s| == 8
  {
    [0x80, id] + [len / 0x100, len % 0x100] + [0x00, 0x00, 0x76, 0x8F]
  }

  /** The options template and the template at the end of `header`. */
  function ReceiverTemplate(): (s: seq<byte>)
    ensures |s| == 40
  {
    [0x99, 0x92, 0x00, 0x04, 0x00, 0x00]
    + (Specifier(0x02, VARIABLE) + (Specifier(0x04, VARIABLE) + (Specifier(0x08, VARIABLE)
    + (Specifier(0x09, VARIABLE) + [0x00, 0x00]))))
  }

  function SenderTail(): (s: seq<byte>)
    ensures |s| == 28
  {
    Specifier(0x06, 1) + (Specifier(0x0A, VARIABLE) + (Specifier(0x0B, 1) + ([0x00, 0x96, 0x00, 0x04] + [])))
  }

  function SenderTemplate(): (s: seq<byte>)
    ensures |s| == 56
  {
    [0x99, 0x93, 0x00, 0x07]
    + (Specifier(0x01, VARIABLE) + (Specifier(0x03, VARIABLE) + (Specifier(0x05, 4) + SenderTail())))
  }

  function Templates(): (s: seq<byte>)
    ensures |s| == 104
  {
    [0x00, 0x03, 0x00, 0x2C] + ReceiverTemplate() + [0x00, 0x02, 0x00, 0x3C] + SenderTemplate()
  }

  /** Bytes of a data set with this much in it, padded to whole words. */
  function SetSize(n: nat): (size: nat)
    ensures size % 4 == 0 && n + 4 <= size < n + 8
  {
    4 + n + Padding(4 + n)
  }

  function Padded(body: seq<byte>): (s: seq<byte>)
    ensures |s| + 4 == SetSize(|body|)
  {
    body + Zeros(Padding(4 + |body|))
  }

  function DataSet(id: nat, body: seq<byte>): (s: seq<byte>)
    ensures |s| == SetSize(|body|)
  {
    Int2(id) + Int2(SetSize(|body|)) + Padded(body)
  }

  function MessageSize(st: Station, spots: seq<Spot>): nat {
    120 + SetSize(|Receiver(st)|) + SetSize(|Reports(spots)|)
  }

  function Head(size: nat, now: int, sequence: nat, domain: int): (s: seq<byte>)
    ensures |s| == 16
  {
    [0x00, 0x0A] + Int2(size) + Int4(now) + Int4(sequence) + Int4(domain)
  }

  function Datagram(st: Station, domain: int, now: int, sequence: nat, spots: seq<Spot>): (d: seq<byte>)
    ensures |d| == MessageSize(st, spots)
  {
    Head(MessageSize(st, spots), now, sequence, domain) + Templates()
    + DataSet(RECEIVER, Receiver(st)) + DataSet(SENDER, Reports(spots))
  }

  // ------------------------------------------------------------ what a collector reads

  const RECEIVER_LENGTHS: seq<nat> := [VARIABLE, VARIABLE, VARIABLE, VARIABLE]
  const SENDER_LENGTHS: seq<nat> := [VARIABLE, VARIABLE, 4, 1, VARIABLE, 1, 4]

  /** The information elements of PSKReporter, enterprise 30351, and those of IANA. */
  function Psk(id: nat): Element { Element(30351, id) }

  function Iana(id: nat): Element { Element(0, id) }

  const RECEIVER_SPECS: seq<Spec> :=
    [Spec(Psk(2), VARIABLE), Spec(Psk(4), VARIABLE), Spec(Psk(8), VARIABLE), Spec(Psk(9), VARIABLE)]
  const SENDER_SPECS: seq<Spec> :=
    [Spec(Psk(1), VARIABLE), Spec(Psk(3), VARIABLE), Spec(Psk(5), 4), Spec(Psk(6), 1), Spec(Psk(10), VARIABLE),
     Spec(Psk(11), 1), Spec(Iana(150), 4)]

  lemma SpecifierSpec(id: byte, len: nat)
    requires len < 0x1_0000
    ensures SpecOf(Specifier(id, len)) == Spec(Psk(id), len)
  {
    var s := Specifier(id, len);
    assert s[2..][0] == len / 0x100 && s[2..][1] == len % 0x100;
    assert s[4..8] == [0x00, 0x00, 0x76, 0x8F];
  }

  lemma SpecifierReads(specs: seq<Spec>, k: nat, id: byte, len: nat, rest: seq<byte>)
    requires k < |specs| && specs[k] == Spec(Psk(id), len) && len < 0x1_0000
    requires Specifiers(|specs| - k - 1, rest) == Some(specs[k + 1..])
    ensures Specifiers(|specs| - k, Specifier(id, len) + rest) == Some(specs[k..])
  {
    SpecifierSpec(id, len);
    SpecifiersCons(|specs| - k, Specifier(id, len), specs[k], rest, specs[k + 1..]);
    assert specs[k..] == [specs[k]] + specs[k + 1..];
  }

  lemma ReceiverTemplateParts(s: seq<byte>)
    requires ReceiverTemplate() == [0x99, 0x92, 0x00, 0x04, 0x00, 0x00] + s
    ensures var t := ReceiverTemplate(); t[6..] == s && Num2(t) == RECEIVER && Num2(t[2..]) == 4 && Num2(t[4..]) == 0
  {
    assert ReceiverTemplate()[2..][0] == 0 && ReceiverTemplate()[2..][1] == 4;
    assert ReceiverTemplate()[4..][0] == 0 && ReceiverTemplate()[4..][1] == 0;
  }

  /** The options template names no scope field: a strict collector does not take it, any other
      reads four variable-length fields: call sign, locator, software and antenna of the receiver. */
  lemma ReceiverTemplateReads(strict: bool)
    ensures TemplateIn(strict, Set(3, ReceiverTemplate()), RECEIVER) == if strict then None else Some(RECEIVER_SPECS)
  {
    var specs := RECEIVER_SPECS;
    var s3 := Specifier(0x09, VARIABLE) + [0x00, 0x00];
    var s2 := Specifier(0x08, VARIABLE) + s3;
    var s1 := Specifier(0x04, VARIABLE) + s2;
    assert specs[4..] == [];
    SpecifierReads(specs, 3, 0x09, VARIABLE, [0x00, 0x00]);
    SpecifierReads(specs, 2, 0x08, VARIABLE, s3);
    SpecifierReads(specs, 1, 0x04, VARIABLE, s2);
    SpecifierReads(specs, 0, 0x02, VARIABLE, s1);
    ReceiverTemplateParts(Specifier(0x02, VARIABLE) + s1);
    assert specs[0..] == specs;
  }

  lemma LastSpecifierReads()
    ensures Specifiers(1, [0x00, 0x96, 0x00, 0x04] + []) == Some(SENDER_SPECS[6..])
  {
    var s: seq<byte> := [0x00, 0x96, 0x00, 0x04];
    assert s[2..][0] == 0 && s[2..][1] == 4;
    SpecifiersCons(1, s, Spec(Iana(150), 4), [], []);
    assert SENDER_SPECS[6..] == [Spec(Iana(150), 4)] + [];
  }

  lemma SenderTailReads()
    ensures Specifiers(4, SenderTail()) == Some(SENDER_SPECS[3..])
  {
    var s6: seq<byte> := [0x00, 0x96, 0x00, 0x04] + [];
    var s5 := Specifier(0x0B, 1) + s6;
    LastSpecifierReads();
    SpecifierReads(SENDER_SPECS, 5, 0x0B, 1, s6);
    SpecifierReads(SENDER_SPECS, 4, 0x0A, VARIABLE, s5);
    SpecifierReads(SENDER_SPECS, 3, 0x06, 1, Specifier(0x0A, VARIABLE) + s5);
  }

  lemma SenderTemplateParts(s: seq<byte>)
    requires SenderTemplate() == [0x99, 0x93, 0x00, 0x07] + s
    ensures var t := SenderTemplate(); t[4..] == s && Num2(t) == SENDER && Num2(t[2..]) == 7
  {
    assert SenderTemplate()[2..][0] == 0 && SenderTemplate()[2..][1] == 7;
  }

  lemma SenderTemplateReads(strict: bool)
    ensures TemplateIn(strict, Set(2, SenderTemplate()), SENDER) == Some(SENDER_SPECS)
  {
    var specs := SENDER_SPECS;
    var s3 := SenderTail();
    var s2 := Specifier(0x05, 4) + s3;
    var s1 := Specifier(0x03, VARIABLE) + s2;
    SenderTailReads();
    SpecifierReads(specs, 2, 0x05, 4, s3);
    SpecifierReads(specs, 1, 0x03, VARIABLE, s2);
    SpecifierReads(specs, 0, 0x01, VARIABLE, s1);
    SenderTemplateParts(Specifier(0x01, VARIABLE) + s1);
    assert specs[0..] == specs;
  }

  // Records.

  predicate MatchesField(len: nat, value: seq<byte>) {
    if len == VARIABLE then |value| < 128 else |value| == len
  }

  /** A field value as it is written: behind its length, if that varies. */
  function Piece(len: nat, value: seq<byte>): seq<byte>
    requires MatchesField(len, value)
  {
    if len == VARIABLE then Text(value) else value
  }

  predicate Matches(lens: seq<nat>, fields: Record) {
    |fields| == |lens| && forall k :: 0 <= k < |lens| ==> MatchesField(lens[k], fields[k])
  }

  function Pieces(lens: seq<nat>, fields: Record): seq<byte>
    requires Matches(lens, fields)
  {
    if lens == [] then [] else Piece(lens[0], fields[0]) + Pieces(lens[1..], fields[1..])
  }

  lemma PieceReads(len: nat, value: seq<byte>, rest: seq<byte>)
    requires MatchesField(len, value)
    ensures Field(len, Piece(len, value) + rest) == Some((value, rest))
  {
    if len == VARIABLE {
      VariableField(value, rest);
    } else {
      FixedField(value, rest);
    }
  }

  lemma {:induction false} PiecesRead(lens: seq<nat>, fields: Record, end: seq<byte>)
    requires Matches(lens, fields)
    ensures DecodeRecord(lens, Pieces(lens, fields) + end) == Some((fields, end))
  {
    if lens == [] {
      assert fields == [] && [] + end == end;
    } else {
      var first, rest := Piece(lens[0], fields[0]), Pieces(lens[1..], fields[1..]);
      PiecesRead(lens[1..], fields[1..], end);
      PieceReads(lens[0], fields[0], rest + end);
      Associates(first, rest, end);
      RecordCons(lens, first + (rest + end), fields[0], rest + end, fields[1..], end);
      assert fields == [fields[0]] + fields[1..];
    }
  }

  lemma PiecesFrom(lens: seq<nat>, fields: Record, k: nat)
    requires Matches(lens, fields) && k < |lens|
    ensures Pieces(lens[k..], fields[k..]) == Piece(lens[k], fields[k]) + Pieces(lens[k + 1..], fields[k + 1..])
  {
    assert lens[k..][1..] == lens[k + 1..] && fields[k..][1..] == fields[k + 1..];
  }

  lemma Regroup(a: seq<byte>, b: seq<byte>, c: seq<byte>, d: seq<byte>, e: seq<byte>, f: seq<byte>, g: seq<byte>)
    ensures a + b + c + d + e + f + g == a + (b + (c + (d + (e + (f + (g + []))))))
  {
  }

  lemma SpotMatches(s: Spot)
    ensures Matches(SENDER_LENGTHS, SpotFields(s))
  {
  }

  lemma ThreePieces(lens: seq<nat>, fields: Record, k: nat)
    requires Matches(lens, fields) && k + 3 <= |lens|
    ensures Pieces(lens[k..], fields[k..])
         == Piece(lens[k], fields[k]) + (Piece(lens[k + 1], fields[k + 1]) + (Piece(lens[k + 2], fields[k + 2])
            + Pieces(lens[k + 3..], fields[k + 3..])))
  {
    PiecesFrom(lens, fields, k);
    PiecesFrom(lens, fields, k + 1);
    PiecesFrom(lens, fields, k + 2);
  }

  lemma WholeSlices(lens: seq<nat>, fields: Record)
    requires |lens| == |fields| && Matches(lens, fields)
    ensures lens[0..] == lens && fields[0..] == fields
    ensures Pieces(lens[|lens|..], fields[|lens|..]) == []
  {
  }

  lemma SevenPieces(lens: seq<nat>, fields: Record)
    requires Matches(lens, fields) && |lens| == 7
    ensures Pieces(lens, fields)
         == Piece(lens[0], fields[0]) + (Piece(lens[1], fields[1]) + (Piece(lens[2], fields[2])
            + (Piece(lens[3], fields[3]) + (Piece(lens[4], fields[4]) + (Piece(lens[5], fields[5])
               + (Piece(lens[6], fields[6]) + []))))))
  {
    ThreePieces(lens, fields, 0);
    ThreePieces(lens, fields, 3);
    PiecesFrom(lens, fields, 6);
    WholeSlices(lens, fields);
  }

  lemma SpotPiece(s: Spot)
    requires Matches(SENDER_LENGTHS, SpotFields(s))
    ensures
      var (lens, fields) := (SENDER_LENGTHS, SpotFields(s));
      && Piece(lens[0], fields[0]) == Text(s.call) && Piece(lens[1], fields[1]) == Text(s.grid)
      && Piece(lens[2], fields[2]) == Int4(s.freq) && Piece(lens[3], fields[3]) == Int1(s.snr)
      && Piece(lens[4], fields[4]) == Text(FT8) && Piece(lens[5], fields[5]) == Int1(1)
      && Piece(lens[6], fields[6]) == Int4(s.time + 15)
  {
  }

  lemma SpotPieces(s: Spot)
    requires Matches(SENDER_LENGTHS, SpotFields(s))
    ensures Pieces(SENDER_LENGTHS, SpotFields(s))
         == Text(s.call) + (Text(s.grid) + (Int4(s.freq) + (Int1(s.snr)
            + (Text(FT8) + (Int1(1) + (Int4(s.time + 15) + []))))))
  {
    SevenPieces(SENDER_LENGTHS, SpotFields(s));
    SpotPiece(s);
  }

  lemma ReportIsPieces(s: Spot)
    ensures Matches(SENDER_LENGTHS, SpotFields(s))
    ensures Report(s) == Pieces(SENDER_LENGTHS, SpotFields(s))
  {
    SpotMatches(s);
    SpotPieces(s);
    Regroup(Text(s.call), Text(s.grid), Int4(s.freq), Int1(s.snr), Text(FT8), Int1(1), Int4(s.time + 15));
  }

  /** A report is read as the fields of its spot, whatever follows it. */
  lemma ReportReads(s: Spot, end: seq<byte>)
    ensures DecodeRecord(SENDER_LENGTHS, Report(s) + end) == Some((SpotFields(s), end))
  {
    ReportIsPieces(s);
    PiecesRead(SENDER_LENGTHS, SpotFields(s), end);
  }

  lemma ReceiverMatches(st: Station)
    ensures Matches(RECEIVER_LENGTHS, ReceiverFields(st))
  {
  }

  lemma FourPieces(lens: seq<nat>, fields: Record)
    requires Matches(lens, fields) && |lens| == 4
    ensures Pieces(lens, fields)
         == Piece(lens[0], fields[0]) + (Piece(lens[1], fields[1]) + (Piece(lens[2], fields[2])
            + (Piece(lens[3], fields[3]) + [])))
  {
    ThreePieces(lens, fields, 0);
    PiecesFrom(lens, fields, 3);
    WholeSlices(lens, fields);
  }

  lemma Regroup4(a: seq<byte>, b: seq<byte>, c: seq<byte>, d: seq<byte>)
    ensures a + b + c + d == a + (b + (c + (d + [])))
  {
  }

  lemma ReceiverIsPieces(st: Station)
    ensures Matches(RECEIVER_LENGTHS, ReceiverFields(st))
    ensures Receiver(st) == Pieces(RECEIVER_LENGTHS, ReceiverFields(st))
  {
    var lens, fields := RECEIVER_LENGTHS, ReceiverFields(st);
    ReceiverMatches(st);
    FourPieces(lens, fields);
    Regroup4(Text(st.0), Text(st.1), Text(SOFT), Text(st.2));
  }

  lemma ReceiverReads(st: Station, end: seq<byte>)
    ensures DecodeRecord(RECEIVER_LENGTHS, Receiver(st) + end) == Some((ReceiverFields(st), end))
  {
    ReceiverIsPieces(st);
    PiecesRead(RECEIVER_LENGTHS, ReceiverFields(st), end);
  }

  lemma ShortestFrom(lens: seq<nat>, k: nat)
    requires k < |lens|
    ensures Shortest(lens[k..]) == Least(lens[k]) + Shortest(lens[k + 1..])
  {
    assert lens[k..][1..] == lens[k + 1..];
  }

  lemma ShortestOfFour(lens: seq<nat>, k: nat)
    requires k + 4 <= |lens|
    ensures Shortest(lens[k..])
         == Least(lens[k]) + Least(lens[k + 1]) + Least(lens[k + 2]) + Least(lens[k + 3]) + Shortest(lens[k + 4..])
  {
    ShortestFrom(lens, k);
    ShortestFrom(lens, k + 1);
    ShortestFrom(lens, k + 2);
    ShortestFrom(lens, k + 3);
  }

  /** Padding is shorter than any record. */
  lemma ShortestRecords()
    ensures Shortest(RECEIVER_LENGTHS) == 4 && Shortest(SENDER_LENGTHS) == 13
  {
    ShortestOfFour(RECEIVER_LENGTHS, 0);
    assert RECEIVER_LENGTHS[0..] == RECEIVER_LENGTHS;
    ShortestFrom(SENDER_LENGTHS, 0);
    ShortestFrom(SENDER_LENGTHS, 1);
    ShortestFrom(SENDER_LENGTHS, 2);
    ShortestOfFour(SENDER_LENGTHS, 3);
    assert SENDER_LENGTHS[0..] == SENDER_LENGTHS;
  }

  function AllPieces(lens: seq<nat>, records: seq<Record>): seq<byte>
    requires forall k :: 0 <= k < |records| ==> Matches(lens, records[k])
  {
    if records == [] then [] else Pieces(lens, records[0]) + AllPieces(lens, records[1..])
  }

  lemma {:induction false} AllPiecesRead(lens: seq<nat>, records: seq<Record>, pad: seq<byte>)
    requires |pad| < Shortest(lens) && forall k :: 0 <= k < |records| ==> Matches(lens, records[k])
    ensures DecodeRecords(lens, AllPieces(lens, records) + pad) == Some(records)
    decreases |records|
  {
    if records == [] {
      assert AllPieces(lens, records) + pad == pad;
    } else {
      var first, rest := Pieces(lens, records[0]), AllPieces(lens, records[1..]) + pad;
      AllPiecesRead(lens, records[1..], pad);
      PiecesRead(lens, records[0], rest);
      RecordsCons(lens, first + rest, records[0], rest, records[1..]);
      Associates(first, AllPieces(lens, records[1..]), pad);
      assert records == [records[0]] + records[1..];
    }
  }

  lemma {:induction false} PiecesInStep(lens: seq<nat>, records: seq<Record>, spots: seq<Spot>)
    requires |records| == |spots|
    requires forall k :: 0 <= k < |records| ==> Matches(lens, records[k])
    requires forall k :: 0 <= k < |records| ==> Report(spots[k]) == Pieces(lens, records[k])
    ensures Reports(spots) == AllPieces(lens, records)
    decreases |spots|
  {
    if spots != [] {
      PiecesInStep(lens, records[1..], spots[1..]);
    }
  }

  lemma ReportsArePieces(spots: seq<Spot>)
    ensures forall k :: 0 <= k < |spots| ==> Matches(SENDER_LENGTHS, AllFields(spots)[k])
    ensures Reports(spots) == AllPieces(SENDER_LENGTHS, AllFields(spots))
  {
    var records := AllFields(spots);
    forall k | 0 <= k < |spots|
      ensures Matches(SENDER_LENGTHS, records[k]) && Report(spots[k]) == Pieces(SENDER_LENGTHS, records[k])
    {
      ReportIsPieces(spots[k]);
    }
    PiecesInStep(SENDER_LENGTHS, records, spots);
  }

  /** The reports of a set are read as the spots they are of, in order, and the padding as no
      further one. */
  lemma ReportsRead(spots: seq<Spot>, pad: seq<byte>)
    requires |pad| < 4
    ensures DecodeRecords(SENDER_LENGTHS, Reports(spots) + pad) == Some(AllFields(spots))
  {
    ShortestRecords();
    ReportsArePieces(spots);
    AllPiecesRead(SENDER_LENGTHS, AllFields(spots), pad);
  }

  lemma {:induction false} ReportsSnoc(spots: seq<Spot>, s: Spot)
    ensures Reports(spots + [s]) == Reports(spots) + Report(s)
    decreases |spots|
  {
    if spots == [] {
      assert spots + [s] == [s] && Reports([s][1..]) == [];
    } else {
      ReportsSnoc(spots[1..], s);
      assert (spots + [s])[1..] == spots[1..] + [s];
    }
  }

  lemma ReceiverSetReads(st: Station, pad: seq<byte>)
    requires |pad| < 4
    ensures DecodeRecords(RECEIVER_LENGTHS, Receiver(st) + pad) == Some([ReceiverFields(st)])
  {
    ShortestRecords();
    ReceiverReads(st, pad);
    assert DecodeRecords(RECEIVER_LENGTHS, pad) == Some([]);
    RecordsCons(RECEIVER_LENGTHS, Receiver(st) + pad, ReceiverFields(st), pad, []);
    assert [ReceiverFields(st)] + [] == [ReceiverFields(st)];
  }

  // Sets and the message.

  function MessageSets(st: Station, spots: seq<Spot>): seq<Set> {
    [Set(3, ReceiverTemplate()), Set(2, SenderTemplate()), Set(RECEIVER, Padded(Receiver(st))),
     Set(SENDER, Padded(Reports(spots)))]
  }

  lemma Num2OfInt2(v: nat)
    requires v < 0x1_0000
    ensures Num2(Int2(v)) == v
  {
  }

  lemma DataSetReads(id: nat, body: seq<byte>, rest: seq<byte>, sets: seq<Set>)
    requires id < 0x1_0000 && SetSize(|body|) < 0x1_0000 && Sets(rest) == Some(sets)
    ensures Sets(DataSet(id, body) + rest) == Some([Set(id, Padded(body))] + sets)
  {
    var head := Int2(id) + Int2(SetSize(|body|));
    Num2OfInt2(id);
    Num2OfInt2(SetSize(|body|));
    assert head[2..] == Int2(SetSize(|body|));
    assert Num2(head) == Num2(Int2(id));
    SetsCons(id, Padded(body), head, rest, sets);
  }

  lemma Regroup5(a: seq<byte>, b: seq<byte>, c: seq<byte>, d: seq<byte>, e: seq<byte>)
    ensures a + b + c + d + e == a + b + (c + d + e)
  {
  }

  lemma TemplatesRead(rest: seq<byte>, sets: seq<Set>)
    requires Sets(rest) == Some(sets)
    ensures Sets(Templates() + rest)
         == Some([Set(3, ReceiverTemplate())] + ([Set(2, SenderTemplate())] + sets))
  {
    var h3: seq<byte>, h2: seq<byte> := [0x00, 0x03, 0x00, 0x2C], [0x00, 0x02, 0x00, 0x3C];
    assert h3[2..][0] == 0 && h3[2..][1] == 0x2C && h2[2..][0] == 0 && h2[2..][1] == 0x3C;
    SetsCons(2, SenderTemplate(), h2, rest, sets);
    SetsCons(3, ReceiverTemplate(), h3, h2 + SenderTemplate() + rest, [Set(2, SenderTemplate())] + sets);
    Regroup5(h3, ReceiverTemplate(), h2, SenderTemplate(), rest);
  }

  lemma FourSets(a: Set, b: Set, c: Set, d: Set)
    ensures [a] + ([b] + ([c] + ([d] + []))) == [a, b, c, d]
  {
  }

  lemma SetsRead(st: Station, spots: seq<Spot>)
    requires MessageSize(st, spots) < 0x1_0000
    ensures Sets(Templates() + DataSet(RECEIVER, Receiver(st)) + DataSet(SENDER, Reports(spots)))
         == Some(MessageSets(st, spots))
  {
    var r, s := DataSet(RECEIVER, Receiver(st)), DataSet(SENDER, Reports(spots));
    DataSetReads(SENDER, Reports(spots), [], []);
    assert s + [] == s;
    DataSetReads(RECEIVER, Receiver(st), s, [Set(SENDER, Padded(Reports(spots)))] + []);
    TemplatesRead(r + s, [Set(RECEIVER, Padded(Receiver(st)))] + ([Set(SENDER, Padded(Reports(spots)))] + []));
    assert Templates() + r + s == Templates() + (r + s);
    FourSets(Set(3, ReceiverTemplate()), Set(2, SenderTemplate()), Set(RECEIVER, Padded(Receiver(st))),
             Set(SENDER, Padded(Reports(spots))));
  }

  lemma NotTheSender(strict: bool, s: Set)
    requires s.id == 3 && s.body == ReceiverTemplate()
    ensures TemplateIn(strict, s, SENDER) == None
  {
    assert ReceiverTemplate()[0] == 0x99 && ReceiverTemplate()[1] == 0x92;
  }

  lemma NotTheReceiver(strict: bool, s: Set)
    requires s.id == 2 && s.body == SenderTemplate()
    ensures TemplateIn(strict, s, RECEIVER) == None
  {
    assert SenderTemplate()[0] == 0x99 && SenderTemplate()[1] == 0x93;
  }

  /** Which set of the message describes which. */
  lemma TemplatesFound(strict: bool, sets: seq<Set>)
    requires |sets| >= 2 && sets[0] == Set(3, ReceiverTemplate()) && sets[1] == Set(2, SenderTemplate())
    ensures TemplateIn(strict, sets[0], RECEIVER) == if strict then None else Some(RECEIVER_SPECS)
    ensures TemplateIn(strict, sets[1], RECEIVER) == None
    ensures TemplateIn(strict, sets[0], SENDER) == None && TemplateIn(strict, sets[1], SENDER) == Some(SENDER_SPECS)
  {
    ReceiverTemplateReads(strict);
    NotTheSender(strict, sets[0]);
    SenderTemplateReads(strict);
    NotTheReceiver(strict, sets[1]);
  }

  lemma DataDescribed(strict: bool, sets: seq<Set>, receiver: seq<Spec>, sender: seq<Spec>,
                      rs: seq<Record>, ss: seq<Record>)
    requires |sets| == 4 && sets[0].id == 3 && sets[1].id == 2 && sets[2].id == RECEIVER && sets[3].id == SENDER
    requires TemplateIn(strict, sets[0], RECEIVER) == if strict then None else Some(receiver)
    requires TemplateIn(strict, sets[1], RECEIVER) == None
    requires TemplateIn(strict, sets[0], SENDER) == None && TemplateIn(strict, sets[1], SENDER) == Some(sender)
    requires DecodeRecords(Lengths(receiver), sets[2].body) == Some(rs)
    requires DecodeRecords(Lengths(sender), sets[3].body) == Some(ss)
    ensures Described(strict, sets, RECEIVER) == if strict then None else Some(AllLabelled(receiver, rs))
    ensures Described(strict, sets, SENDER) == Some(AllLabelled(sender, ss))
  {
    if strict {
      NoTemplate(strict, sets, RECEIVER);
    } else {
      DescribedBy(strict, sets, 0, 2, receiver, RECEIVER, rs);
    }
    DescribedBy(strict, sets, 1, 3, sender, SENDER, ss);
  }

  /** The record of a spot, element by element. */
  predicate Tells(r: seq<Datum>, s: Spot) {
    && Lookup(r, Psk(1)) == Some(s.call)
    && Lookup(r, Psk(3)) == Some(s.grid)
    && Lookup(r, Psk(5)) == Some(Int4(s.freq))
    && Lookup(r, Psk(6)) == Some(Int1(s.snr))
    && Lookup(r, Psk(10)) == Some([0x46, 0x54, 0x38])
    && Lookup(r, Psk(11)) == Some([1])
    && Lookup(r, Iana(150)) == Some(Int4(s.time + 15))
  }

  /** The record of the receiver. */
  predicate TellsStation(r: seq<Datum>, st: Station) {
    && Lookup(r, Psk(2)) == Some(st.0)
    && Lookup(r, Psk(4)) == Some(st.1)
    && Lookup(r, Psk(8)) == Some([0x57, 0x65, 0x62, 0x2D, 0x38, 0x38, 0x38, 0x20, 0x46, 0x54, 0x38, 0x20,
                                  0x54, 0x52, 0x58, 0x20, 0x31, 0x2E, 0x30])
    && Lookup(r, Psk(9)) == Some(st.2)
  }

  /** These spots in this order and no others. */
  predicate AllTold(records: seq<seq<Datum>>, spots: seq<Spot>) {
    |records| == |spots| && forall k :: 0 <= k < |spots| ==> Tells(records[k], spots[k])
  }

  lemma SpotTold(s: Spot)
    ensures Tells(Labelled(SENDER_SPECS, SpotFields(s)), s)
  {
    var r := Labelled(SENDER_SPECS, SpotFields(s));
    forall k | 0 <= k < 7 ensures Lookup(r, r[k].element) == Some(r[k].value) {
      LookupAt(r, k);
    }
    assert r[0] == Datum(Psk(1), s.call) && r[1] == Datum(Psk(3), s.grid) && r[2] == Datum(Psk(5), Int4(s.freq));
    assert r[3] == Datum(Psk(6), Int1(s.snr)) && r[4] == Datum(Psk(10), FT8) && r[5] == Datum(Psk(11), Int1(1));
    assert r[6] == Datum(Iana(150), Int4(s.time + 15));
  }

  lemma StationTold(st: Station)
    ensures TellsStation(Labelled(RECEIVER_SPECS, ReceiverFields(st)), st)
  {
    var r := Labelled(RECEIVER_SPECS, ReceiverFields(st));
    forall k | 0 <= k < 4 ensures Lookup(r, r[k].element) == Some(r[k].value) {
      LookupAt(r, k);
    }
    assert r[0] == Datum(Psk(2), st.0) && r[1] == Datum(Psk(4), st.1);
    assert r[2] == Datum(Psk(8), SOFT) && r[3] == Datum(Psk(9), st.2);
  }

  lemma SpotsTold(spots: seq<Spot>)
    ensures AllTold(AllLabelled(SENDER_SPECS, AllFields(spots)), spots)
  {
    forall k | 0 <= k < |spots| ensures Tells(AllLabelled(SENDER_SPECS, AllFields(spots))[k], spots[k]) {
      SpotTold(spots[k]);
    }
  }

  lemma LengthsOfSpecs()
    ensures Lengths(RECEIVER_SPECS) == RECEIVER_LENGTHS && Lengths(SENDER_SPECS) == SENDER_LENGTHS
  {
  }

  lemma SetsDescribe(strict: bool, st: Station, spots: seq<Spot>)
    ensures
      var sets := MessageSets(st, spots);
      && Described(strict, sets, RECEIVER)
         == (if strict then None else Some(AllLabelled(RECEIVER_SPECS, [ReceiverFields(st)])))
      && Described(strict, sets, SENDER) == Some(AllLabelled(SENDER_SPECS, AllFields(spots)))
  {
    var sets := MessageSets(st, spots);
    TemplatesFound(strict, sets);
    ReceiverSetReads(st, Zeros(Padding(4 + |Receiver(st)|)));
    ReportsRead(spots, Zeros(Padding(4 + |Reports(spots)|)));
    LengthsOfSpecs();
    DataDescribed(strict, sets, RECEIVER_SPECS, SENDER_SPECS, [ReceiverFields(st)], AllFields(spots));
  }

  lemma HeadReads(size: nat, now: int, sequence: nat, domain: int, rest: seq<byte>)
    requires size < 0x1_0000
    ensures
      var d := Head(size, now, sequence, domain) + rest;
      && Num2(d) == 10 && Num2(d[2..]) == size && d[16..] == rest
      && Value(d[4..8]) == now % 0x1_0000_0000
      && Value(d[8..12]) == sequence % 0x1_0000_0000
      && Value(d[12..16]) == domain % 0x1_0000_0000
  {
    var d := Head(size, now, sequence, domain) + rest;
    ValueOfBigEndian(now % 0x1_0000_0000);
    ValueOfBigEndian(sequence % 0x1_0000_0000);
    ValueOfBigEndian(domain % 0x1_0000_0000);
    Num2OfInt2(size);
    assert d[2..][0] == Int2(size)[0] && d[2..][1] == Int2(size)[1];
    assert d[4..8] == Int4(now) && d[8..12] == Int4(sequence) && d[12..16] == Int4(domain);
  }

  /** A collector that gets a datagram finds it as long as its header says and made of whole
      sets, and reads out of it, by the templates it brings, exactly the spots put in, in order,
      and the receiver unless it is strict about the scope of options templates. */
  lemma CollectorReads(strict: bool, st: Station, domain: int, now: int, sequence: nat, spots: seq<Spot>)
    requires MessageSize(st, spots) < 0x1_0000
    ensures
      var m := Parse(Datagram(st, domain, now, sequence, spots));
      && m.Some?
      && m.value.time == now % 0x1_0000_0000 && m.value.domain == domain % 0x1_0000_0000
      && m.value.sequence == sequence % 0x1_0000_0000
      && var receiver, sender := Described(strict, m.value.sets, RECEIVER), Described(strict, m.value.sets, SENDER);
         && (if strict then receiver.None?
             else receiver.Some? && |receiver.value| == 1 && TellsStation(receiver.value[0], st))
         && sender.Some? && AllTold(sender.value, spots)
  {
    var rest := Templates() + DataSet(RECEIVER, Receiver(st)) + DataSet(SENDER, Reports(spots));
    var head := Head(MessageSize(st, spots), now, sequence, domain);
    HeadReads(MessageSize(st, spots), now, sequence, domain, rest);
    assert Datagram(st, domain, now, sequence, spots) == head + rest;
    SetsRead(st, spots);
    SetsDescribe(strict, st, spots);
    StationTold(st);
    SpotsTold(spots);
  }

  /** All its sets are whole words long. */
  lemma SetsAreWholeWords(st: Station, spots: seq<Spot>, k: nat)
    requires k < 4
    ensures (4 + |MessageSets(st, spots)[k].body|) % 4 == 0
  {
  }

  // ------------------------------------------------------------------ numbers back

  function SignedNumber(b: seq<byte>): int
    requires |b| == 4
  {
    if Value(b) < 0x8000_0000 then Value(b) else Value(b) - 0x1_0000_0000
  }

  function SignedByte(b: int): int { if b < 128 then b else b - 256 }

  /** What a record says about a spot, element by element. */
  function SpotOf(r: seq<Datum>): Option<Reading> {
    match (Lookup(r, Psk(1)), Lookup(r, Psk(3)), Lookup(r, Psk(5)), Lookup(r, Psk(6)), Lookup(r, Iana(150)))
    case (Some(call), Some(grid), Some(freq), Some(snr), Some(time)) =>
      if |freq| == 4 && |snr| == 1 && |time| == 4 then
        Some(Reading(call, grid, SignedNumber(freq), SignedByte(snr[0]), SignedNumber(time) - 15))
      else None
    case _ => None
  }

  lemma NumberBack(v: int)
    ensures SignedNumber(Int4(v)) == v <==> -0x8000_0000 <= v < 0x8000_0000
  {
    ValueOfBigEndian(v % 0x1_0000_0000);
    assert v % 0x1_0000_0000 == v - 0x1_0000_0000 * (v / 0x1_0000_0000);
  }

  predicate Fits(s: Spot) {
    -0x8000_0000 <= s.freq < 0x8000_0000 && -128 <= s.snr < 128 && -0x8000_0000 <= s.time + 15 < 0x8000_0000
  }

  /** The spot is told exactly when its frequency and the middle of its time slot fit 32 bits
      and its signal-to-noise ratio 8. */
  lemma SpotBack(s: Spot, r: seq<Datum>)
    requires Tells(r, s)
    ensures
      var reading: Reading := s;
      SpotOf(r) == Some(reading) <==> Fits(s)
  {
    NumberBack(s.freq);
    NumberBack(s.time + 15);
  }
}
