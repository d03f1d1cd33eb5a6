/** An IPFIX collecting process (RFC 7011), as far as the messages of
    projects/sdr_transceiver_ft8/app/upload-to-pskreporter.c need it. It knows nothing of that
    program: it finds the layout of the records in the templates of the message. */
module Ipfix {
  import opened Bytes

  datatype Option<T> = None | Some(value: T)

  /** The length that says a field has a variable length (section 7 of RFC 7011). */
  const VARIABLE: nat := 65535

  function Num2(s: seq<byte>): nat
    requires |s| >= 2
  {
    (s[0] as int) * 256 + s[1] as int
  }

  // ---------------------------------------------------------------- records

  function Cut(len: nat, s: seq<byte>): Option<(seq<byte>, seq<byte>)> {
    if |s| < len then None else Some((s[..len], s[len..]))
  }

  /** The fewest bytes a field can take. */
  function Least(len: nat): nat { if len == VARIABLE then 1 else len }

  /** The value of a field of this length, and what follows it. */
  function Field(len: nat, s: seq<byte>): (f: Option<(seq<byte>, seq<byte>)>)
    ensures f.Some? ==> |f.value.1| + Least(len) <= |s|
  {
    if len != VARIABLE then Cut(len, s)
    else if |s| == 0 then None
    else if s[0] < 255 then Cut(s[0], s[1..])
    else if |s| < 3 then None
    else Cut(Num2(s[1..]), s[3..])
  }

  function Shortest(lens: seq<nat>): nat {
    if lens == [] then 0 else Least(lens[0]) + Shortest(lens[1..])
  }

  type Record = seq<seq<byte>>

  /** The fields of a record with these lengths, and what follows it. */
  function DecodeRecord(lens: seq<nat>, s: seq<byte>): (r: Option<(Record, seq<byte>)>)
    ensures r.Some? ==> |r.value.1| + Shortest(lens) <= |s|
  {
    if lens == [] then Some(([], s))
    else
      match Field(lens[0], s)
      case None => None
      case Some((value, rest)) =>
        match DecodeRecord(lens[1..], rest)
        case None => None
        case Some((more, rest')) => Some(([value] + more, rest'))
  }

  /** The records of a data set: what is shorter than any record is padding (section 3.3.1). */
  function DecodeRecords(lens: seq<nat>, s: seq<byte>): Option<seq<Record>>
    decreases |s|
  {
    if Shortest(lens) == 0 || |s| < Shortest(lens) then Some([])
    else
      match DecodeRecord(lens, s)
      case None => None
      case Some((record, rest)) =>
        match DecodeRecords(lens, rest)
        case None => None
        case Some(more) => Some([record] + more)
  }

  // ---------------------------------------------------------------- templates and sets

  /** What a field is: an information element of an enterprise, 0 standing for IANA's own. */
  datatype Element = Element(enterprise: nat, id: nat)

  datatype Spec = Spec(element: Element, length: nat)

  /** A field specifier: 4 bytes, or 8 with an enterprise number if the first bit is set
      (section 3.2). */
  function SpecOf(s: seq<byte>): Spec
    requires |s| >= 8 || (|s| >= 4 && s[0] < 128)
  {
    if s[0] >= 128 then Spec(Element(Value(s[4..8]), Num2(s) - 0x8000), Num2(s[2..]))
    else Spec(Element(0, Num2(s)), Num2(s[2..]))
  }

  function Specifiers(count: nat, s: seq<byte>): Option<seq<Spec>>
    decreases count
  {
    if count == 0 then Some([])
    else if |s| < 4 then None
    else
      var size := if s[0] >= 128 then 8 else 4;
      if |s| < size then None
      else
        match Specifiers(count - 1, s[size..])
        case None => None
        case Some(more) => Some([SpecOf(s)] + more)
  }

  datatype Set = Set(id: nat, body: seq<byte>)

  /** The sets of a message behind its header. */
  function Sets(s: seq<byte>): Option<seq<Set>>
    decreases |s|
  {
    if s == [] then Some([])
    else if |s| < 4 || Num2(s[2..]) < 4 || Num2(s[2..]) > |s| then None
    else
      match Sets(s[Num2(s[2..])..])
      case None => None
      case Some(more) => Some([Set(Num2(s), s[4..Num2(s[2..])])] + more)
  }

  /** The template in this set, if it is one for these data sets: set 2 holds templates, set 3
      options templates, which have a scope field count. Section 3.4.2.2 does not allow that to
      be zero; a strict collector takes no options template where it is. */
  function TemplateIn(strict: bool, set_: Set, id: nat): Option<seq<Spec>> {
    if set_.id == 2 && |set_.body| >= 4 && Num2(set_.body) == id then Specifiers(Num2(set_.body[2..]), set_.body[4..])
    else if set_.id == 3 && |set_.body| >= 6 && Num2(set_.body) == id && (strict ==> Num2(set_.body[4..]) > 0) then
      Specifiers(Num2(set_.body[2..]), set_.body[6..])
    else None
  }

  function Template(strict: bool, sets: seq<Set>, id: nat): Option<seq<Spec>> {
    if sets == [] then None
    else if TemplateIn(strict, sets[0], id).Some? then TemplateIn(strict, sets[0], id)
    else Template(strict, sets[1..], id)
  }

  /** All records in the data sets with this id. */
  function Data(sets: seq<Set>, lens: seq<nat>, id: nat): Option<seq<Record>> {
    if sets == [] then Some([])
    else
      match Data(sets[1..], lens, id)
      case None => None
      case Some(more) =>
        if sets[0].id != id then Some(more)
        else
          match DecodeRecords(lens, sets[0].body)
          case None => None
          case Some(records) => Some(records + more)
  }

  function Lengths(specs: seq<Spec>): seq<nat> {
    seq(|specs|, k requires 0 <= k < |specs| => specs[k].length)
  }

  /** A value with the element it is of. */
  datatype Datum = Datum(element: Element, value: seq<byte>)

  function Labelled(specs: seq<Spec>, r: Record): seq<Datum> {
    if |r| != |specs| then []
    else seq(|r|, k requires 0 <= k < |r| => Datum(specs[k].element, r[k]))
  }

  function AllLabelled(specs: seq<Spec>, records: seq<Record>): seq<seq<Datum>> {
    seq(|records|, k requires 0 <= k < |records| => Labelled(specs, records[k]))
  }

  /** The value of an element in a record. */
  function Lookup(r: seq<Datum>, e: Element): Option<seq<byte>> {
    if r == [] then None else if r[0].element == e then Some(r[0].value) else Lookup(r[1..], e)
  }

  /** The records of these data sets, read with their template. */
  function Described(strict: bool, sets: seq<Set>, id: nat): Option<seq<seq<Datum>>> {
    match Template(strict, sets, id)
    case None => None
    case Some(specs) =>
      match Data(sets, Lengths(specs), id)
      case None => None
      case Some(records) => Some(AllLabelled(specs, records))
  }

  datatype Message = Message(time: nat, sequence: nat, domain: nat, sets: seq<Set>)

  /** A whole message: version 10 and its own length in the header (section 3.1). */
  function Parse(s: seq<byte>): Option<Message> {
    if |s| < 16 || Num2(s) != 10 || Num2(s[2..]) != |s| then None
    else
      match Sets(s[16..])
      case None => None
      case Some(sets) => Some(Message(Value(s[4..8]), Value(s[8..12]), Value(s[12..16]), sets))
  }

  // ---------------------------------------------------------------- facts about it

  lemma CutHere(s: seq<byte>, rest: seq<byte>)
    ensures Cut(|s|, s + rest) == Some((s, rest))
  {
  }

  lemma VariableField(s: seq<byte>, rest: seq<byte>)
    requires |s| < 255
    ensures Field(VARIABLE, [|s|] + s + rest) == Some((s, rest))
  {
    assert ([|s|] + s + rest)[1..] == s + rest;
    CutHere(s, rest);
  }

  lemma FixedField(s: seq<byte>, rest: seq<byte>)
    requires |s| != VARIABLE
    ensures Field(|s|, s + rest) == Some((s, rest))
  {
    CutHere(s, rest);
  }

  lemma RecordsCons(lens: seq<nat>, s: seq<byte>, record: Record, rest: seq<byte>, more: seq<Record>)
    requires Shortest(lens) > 0
    requires DecodeRecord(lens, s) == Some((record, rest)) && DecodeRecords(lens, rest) == Some(more)
    ensures DecodeRecords(lens, s) == Some([record] + more)
  {
  }

  lemma RecordCons(lens: seq<nat>, s: seq<byte>, value: seq<byte>, rest: seq<byte>, more: Record, end: seq<byte>)
    requires lens != [] && Field(lens[0], s) == Some((value, rest))
    requires DecodeRecord(lens[1..], rest) == Some((more, end))
    ensures DecodeRecord(lens, s) == Some(([value] + more, end))
  {
  }

  lemma SetsCons(id: nat, body: seq<byte>, head: seq<byte>, rest: seq<byte>, sets: seq<Set>)
    requires |head| == 4 && Num2(head) == id && Num2(head[2..]) == 4 + |body|
    requires Sets(rest) == Some(sets)
    ensures Sets(head + body + rest) == Some([Set(id, body)] + sets)
  {
    var s := head + body + rest;
    assert s[0] == head[0] && s[1] == head[1] && s[2..][0] == head[2..][0] && s[2..][1] == head[2..][1];
    assert Num2(s) == Num2(head) && Num2(s[2..]) == Num2(head[2..]);
    assert s[4..4 + |body|] == body && s[4 + |body|..] == rest;
  }

  lemma SpecifiersCons(count: nat, s: seq<byte>, spec: Spec, rest: seq<byte>, more: seq<Spec>)
    requires count > 0 && Specifiers(count - 1, rest) == Some(more)
    requires |s| == (if |s| > 0 && s[0] >= 128 then 8 else 4) && SpecOf(s) == spec
    ensures Specifiers(count, s + rest) == Some([spec] + more)
  {
    var t := s + rest;
    assert t[|s|..] == rest && t[0] == s[0] && t[1] == s[1];
    assert t[2..][0] == s[2..][0] && t[2..][1] == s[2..][1];
    assert |s| == 8 ==> t[4..8] == s[4..8];
  }

  lemma {:induction false} LookupAt(r: seq<Datum>, k: nat)
    requires k < |r| && forall j :: 0 <= j < k ==> r[j].element != r[k].element
    ensures Lookup(r, r[k].element) == Some(r[k].value)
  {
    if k > 0 {
      LookupAt(r[1..], k - 1);
    }
  }

  lemma {:induction false} FirstTemplate(strict: bool, sets: seq<Set>, k: nat, id: nat)
    requires k < |sets| && TemplateIn(strict, sets[k], id).Some?
    requires forall j :: 0 <= j < k ==> TemplateIn(strict, sets[j], id).None?
    ensures Template(strict, sets, id) == TemplateIn(strict, sets[k], id)
  {
    if k > 0 {
      FirstTemplate(strict, sets[1..], k - 1, id);
    }
  }

  lemma {:induction false} NoTemplate(strict: bool, sets: seq<Set>, id: nat)
    requires forall j :: 0 <= j < |sets| ==> TemplateIn(strict, sets[j], id).None?
    ensures Template(strict, sets, id) == None
  {
    if sets != [] {
      NoTemplate(strict, sets[1..], id);
    }
  }

  lemma {:induction false} NoDataSet(sets: seq<Set>, lens: seq<nat>, id: nat)
    requires forall j :: 0 <= j < |sets| ==> sets[j].id != id
    ensures Data(sets, lens, id) == Some([])
  {
    if sets != [] {
      NoDataSet(sets[1..], lens, id);
    }
  }

  lemma {:induction false} OnlyDataSet(sets: seq<Set>, k: nat, lens: seq<nat>, id: nat, records: seq<Record>)
    requires k < |sets| && sets[k].id == id && forall j :: 0 <= j < |sets| && j != k ==> sets[j].id != id
    requires DecodeRecords(lens, sets[k].body) == Some(records)
    ensures Data(sets, lens, id) == Some(records)
  {
    if k > 0 {
      OnlyDataSet(sets[1..], k - 1, lens, id, records);
    } else {
      NoDataSet(sets[1..], lens, id);
      assert records + [] == records;
    }
  }

  lemma DescribedBy(strict: bool, sets: seq<Set>, t: nat, d: nat, specs: seq<Spec>, id: nat, records: seq<Record>)
    requires t < |sets| && TemplateIn(strict, sets[t], id) == Some(specs)
    requires forall j :: 0 <= j < t ==> TemplateIn(strict, sets[j], id).None?
    requires d < |sets| && sets[d].id == id && forall j :: 0 <= j < |sets| && j != d ==> sets[j].id != id
    requires DecodeRecords(Lengths(specs), sets[d].body) == Some(records)
    ensures Described(strict, sets, id) == Some(AllLabelled(specs, records))
  {
    FirstTemplate(strict, sets, t, id);
    OnlyDataSet(sets, d, Lengths(specs), id, records);
  }
}
