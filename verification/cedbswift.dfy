/** The Swift packer: payloads, offsets, entries and payload section are computed in separate passes. */
module CedbSwift {
  import opened Wrappers
  import opened Sequences
  import opened Bytes
  import Cedb
  import CedbLayout

  type Int16U = x: int | 0 <= x < TWO16
  type Int32S = x: int | -0x8000_0000 <= x < 0x8000_0000
  type Int32U = x: int | 0 <= x < TWO32
  type Int64U = x: int | 0 <= x < TWO32 * TWO32

  datatype Kind = I2 | I4 | R8 | Bool | UI2 | UI4 | String | Filetime | Blob | Unknown(code: Int16U)

  /** A double is its bit pattern, a string its UTF-16 code units. */
  datatype Value =
    | IntValue(i: Int32S)
    | UIntValue(u: Int32U)
    | BoolValue(b: bool)
    | DoubleValue(bits: Int64U)
    | FiletimeValue(ticks: Int64U)
    | StringValue(units: seq<Cedb.Unit>)
    | BlobValue(octets: seq<Byte>)
    | RawValue(octets: seq<Byte>)
    | MissingValue

  datatype PropVal = PropVal(propId: Int16U, kind: Kind, value: Value, flags: Int16U)

  datatype Error = ValueMismatch(propId: Int16U, kind: Kind) | UnsupportedType(propId: Int16U, kind: Kind)

  function Code(kind: Kind): Int16U {
    match kind
    case I2 => Cedb.CEVT_I2
    case I4 => Cedb.CEVT_I4
    case R8 => Cedb.CEVT_R8
    case Bool => Cedb.CEVT_BOOL
    case UI2 => Cedb.CEVT_UI2
    case UI4 => Cedb.CEVT_UI4
    case String => Cedb.CEVT_LPWSTR
    case Filetime => Cedb.CEVT_FILETIME
    case Blob => Cedb.CEVT_BLOB
    case Unknown(code) => code
  }

  function PayloadOf(p: PropVal): seq<Byte> {
    match (p.kind, p.value)
    case (String, StringValue(units)) => Cedb.Wstr(units)
    case (Blob, BlobValue(octets)) => octets
    case _ => []
  }

  function Pair(low: Int32U, high: Int32U): (r: seq<Byte>)
    ensures |r| == 8
  {
    U32(low) + U32(high)
  }

  function PackValue(p: PropVal, payloadOffset: nat): (r: Result<seq<Byte>, Error>)
    ensures r.Success? ==> |r.value| == 8
  {
    var offset := payloadOffset % TWO32;
    match (p.kind, p.value)
    case (String, StringValue(_)) => Success(Pair(offset, 0))
    case (Blob, BlobValue(octets)) => Success(Pair(|octets| % TWO32, offset))
    case (I2, IntValue(i)) => Success(Pair(i % TWO32, 0))
    case (I4, IntValue(i)) => Success(Pair(i % TWO32, 0))
    case (UI2, UIntValue(u)) => Success(Pair(u, 0))
    case (UI4, UIntValue(u)) => Success(Pair(u, 0))
    case (Bool, BoolValue(b)) => Success(Pair(if b then 1 else 0, 0))
    case (Filetime, FiletimeValue(ticks)) => Success(Pair(ticks % TWO32, ticks / TWO32))
    case (R8, DoubleValue(bits)) => Success(Pair(bits % TWO32, bits / TWO32))
    case (Unknown(_), _) => Failure(UnsupportedType(p.propId, p.kind))
    case _ => Failure(ValueMismatch(p.propId, p.kind))
  }

  function Entry(p: PropVal, payloadOffset: nat): (r: Result<seq<Byte>, Error>)
    ensures r.Success? ==> |r.value| == 16
  {
    match PackValue(p, payloadOffset)
    case Failure(e) => Failure(e)
    case Success(value) => Success(U32(p.propId * TWO16 + Code(p.kind)) + U16(0) + U16(p.flags) + value)
  }

  function Payloads(props: seq<PropVal>): (r: seq<seq<Byte>>)
    ensures |r| == |props|
  {
    if props == [] then [] else [PayloadOf(props[0])] + Payloads(props[1..])
  }

  function Sizes(payloads: seq<seq<Byte>>): (r: seq<nat>)
    ensures |r| == |payloads|
  {
    if payloads == [] then [] else [|payloads[0]|] + Sizes(payloads[1..])
  }

  function OffsetsFrom(sizes: seq<nat>, next: nat): (r: seq<nat>)
    ensures |r| == |sizes|
  {
    if sizes == [] then []
    else [if sizes[0] == 0 then 0 else next] + OffsetsFrom(sizes[1..], Align(next + sizes[0]))
  }

  method PayloadOffsets(sizes: seq<nat>, start: nat) returns (offsets: seq<nat>)
    ensures offsets == OffsetsFrom(sizes, start)
  {
    var next := start;
    offsets := [];
    for i := 0 to |sizes|
      invariant OffsetsFrom(sizes, start) == offsets + OffsetsFrom(sizes[i..], next)
    {
      assert sizes[i..][0] == sizes[i] && sizes[i..][1..] == sizes[i + 1..];
      offsets := offsets + [if sizes[i] == 0 then 0 else next];
      next := Align(next + sizes[i]);
    }
  }

  /** The section grows in place: each payload, then zeros up to a multiple of four of what is there already. */
  function SectionAfter(section: seq<Byte>, payloads: seq<seq<Byte>>): seq<Byte>
    decreases |payloads|
  {
    if payloads == [] then section
    else
      var longer := section + payloads[0];
      SectionAfter(longer + Zeros(Align(|longer|) - |longer|), payloads[1..])
  }

  method PayloadSection(payloads: seq<seq<Byte>>) returns (section: seq<Byte>)
    ensures section == SectionAfter([], payloads)
  {
    section := [];
    for i := 0 to |payloads|
      invariant SectionAfter([], payloads) == SectionAfter(section, payloads[i..])
    {
      assert payloads[i..][0] == payloads[i] && payloads[i..][1..] == payloads[i + 1..];
      section := section + payloads[i];
      section := section + Zeros(Align(|section|) - |section|);
    }
  }

  function Header(props: seq<PropVal>, offsets: seq<nat>): Result<seq<Byte>, Error>
    requires |props| == |offsets|
  {
    if props == [] then Success([])
    else
      match Entry(props[0], offsets[0])
      case Failure(e) => Failure(e)
      case Success(entry) =>
        match Header(props[1..], offsets[1..])
        case Failure(e) => Failure(e)
        case Success(rest) => Success(entry + rest)
  }

  function Packed(props: seq<PropVal>): Result<seq<Byte>, Error> {
    var payloads := Payloads(props);
    match Header(props, OffsetsFrom(Sizes(payloads), Align(|props| * Cedb.PROPVAL_SIZE)))
    case Failure(e) => Failure(e)
    case Success(header) => Success(header + SectionAfter([], payloads))
  }

  method Pack(props: seq<PropVal>) returns (r: Result<seq<Byte>, Error>)
    ensures r == Packed(props)
  {
    var payloads := Payloads(props);
    var offsets := PayloadOffsets(Sizes(payloads), Align(|props| * Cedb.PROPVAL_SIZE));
    var header := Header(props, offsets);
    if header.Failure? {
      return Failure(header.error);
    }
    var section := PayloadSection(payloads);
    return Success(header.value + section);
  }

  // ----- the same records on the Python side -----

  function ToPythonValue(value: Value): Cedb.Value {
    match value
    case IntValue(i) => Cedb.Number(i)
    case UIntValue(u) => Cedb.Number(u)
    case BoolValue(b) => Cedb.Flag(b)
    case DoubleValue(bits) => Cedb.Eight(Le(bits, 8))
    case FiletimeValue(ticks) => Cedb.Number(ticks)
    case StringValue(units) => Cedb.Text(units)
    case BlobValue(octets) => Cedb.Blob(octets)
    case RawValue(octets) => Cedb.Eight(octets)
    case MissingValue => Cedb.Missing
  }

  function ToPython(p: PropVal): Cedb.PropVal {
    Cedb.PropVal(p.propId, Code(p.kind), ToPythonValue(p.value), p.flags)
  }

  function AllToPython(props: seq<PropVal>): (r: seq<Cedb.PropVal>)
    ensures |r| == |props|
  {
    if props == [] then [] else [ToPython(props[0])] + AllToPython(props[1..])
  }

  lemma {:induction false} LeSplit(low: nat, high: nat, j: nat, k: nat)
    requires low < Power256(j)
    ensures Le(low + Power256(j) * high, j + k) == Le(low, j) + Le(high, k)
  {
    if j > 0 {
      var m := Power256(j - 1) * high;
      assert Power256(j) * high == 256 * m;
      LowHigh(low, m);
      LeSplit(low / 256, high, j - 1, k);
      LeStep(low + 256 * m, j - 1 + k);
      LeStep(low, j - 1);
      Assoc([low % 256], Le(low / 256, j - 1), Le(high, k));
    } else {
      assert Le(low, 0) + Le(high, k) == Le(high, k);
    }
  }

  lemma {:induction false} LeStep(n: nat, k: nat)
    ensures Le(n, k + 1) == [n % 256] + Le(n / 256, k)
  {
  }

  lemma {:induction false} FourOctets(low: nat)
    ensures Power256(4) == TWO32
    ensures low < TWO32 ==> Le(low, 4) == U32(low)
  {
    Powers();
  }

  lemma {:induction false} WordsOf(n: Int64U)
    ensures Le(n, 8) == Pair(n % TWO32, n / TWO32)
  {
    var low, high := n % TWO32, n / TWO32;
    FourOctets(low);
    FourOctets(high);
    LeSplit(low, high, 4, 4);
  }

  lemma {:induction false} ValuesAgree(p: PropVal, at: nat)
    requires PackValue(p, at).Success?
    ensures Cedb.PackValue(ToPython(p), at) == Success(PackValue(p, at).value)
  {
    if p.value.DoubleValue? {
      WordsOf(p.value.bits);
    }
  }

  lemma {:induction false} EntriesAgree(p: PropVal, at: nat)
    requires Entry(p, at).Success?
    ensures Cedb.Entry(ToPython(p), at) == Success(Entry(p, at).value)
    ensures PayloadOf(p) == Cedb.Payload(ToPython(p))
  {
    ValuesAgree(p, at);
    PropIdsAgree(p.propId, Code(p.kind));
    PayloadsOfAgree(p, at);
  }

  lemma {:induction false} PropIdsAgree(propId: Int16U, code: Int16U)
    ensures Cedb.PropId(propId, code) == propId * TWO16 + code
  {
  }

  lemma {:induction false} PayloadsOfAgree(p: PropVal, at: nat)
    requires PackValue(p, at).Success?
    ensures PayloadOf(p) == Cedb.Payload(ToPython(p))
  {
  }

  function Offsets(props: seq<PropVal>, start: nat): (r: seq<nat>)
    ensures |r| == |props|
  {
    OffsetsFrom(Sizes(Payloads(props)), start)
  }

  lemma {:induction false} OffsetsStep(props: seq<PropVal>, start: nat)
    requires props != []
    ensures Offsets(props, start)[0] == if PayloadOf(props[0]) == [] then 0 else start
    ensures Offsets(props, start)[1..] == Offsets(props[1..], Align(start + |PayloadOf(props[0])|))
  {
    assert Payloads(props)[1..] == Payloads(props[1..]);
    assert Sizes(Payloads(props))[1..] == Sizes(Payloads(props[1..]));
  }

  lemma {:induction false} HeaderStep(props: seq<PropVal>, offsets: seq<nat>)
    requires |props| == |offsets| && props != [] && Header(props, offsets).Success?
    ensures Entry(props[0], offsets[0]).Success? && Header(props[1..], offsets[1..]).Success?
    ensures Header(props, offsets).value == Entry(props[0], offsets[0]).value + Header(props[1..], offsets[1..]).value
  {
  }

  lemma {:induction false} PackFromStep(qs: seq<Cedb.PropVal>, start: nat)
    requires qs != [] && Cedb.Entry(qs[0], Cedb.Pointer(qs[0], start)).Success?
    requires Cedb.PackFrom(qs[1..], Cedb.NextOffset(|Cedb.Payload(qs[0])|, start)).Success?
    ensures Cedb.PackFrom(qs, start).Success?
    ensures Cedb.PackFrom(qs, start).value.header
         == Cedb.Entry(qs[0], Cedb.Pointer(qs[0], start)).value
          + Cedb.PackFrom(qs[1..], Cedb.NextOffset(|Cedb.Payload(qs[0])|, start)).value.header
  {
  }

  /** `Cedb.PackFrom` writes this header. */
  ghost predicate PythonHeader(qs: seq<Cedb.PropVal>, start: nat, header: seq<Byte>) {
    Cedb.PackFrom(qs, start).Success? && Cedb.PackFrom(qs, start).value.header == header
  }

  lemma {:induction false} HeadersAgree(props: seq<PropVal>, start: nat)
    requires Header(props, Offsets(props, start)).Success?
    ensures PythonHeader(AllToPython(props), start, Header(props, Offsets(props, start)).value)
  {
    if props != [] {
      var next := Align(start + |PayloadOf(props[0])|);
      OffsetsStep(props, start);
      HeaderStep(props, Offsets(props, start));
      HeadersAgree(props[1..], next);
      HeadersJoin(props, start, Header(props[1..], Offsets(props[1..], next)).value);
    }
  }

  lemma {:induction false} HeadersJoin(props: seq<PropVal>, start: nat, rest: seq<Byte>)
    requires props != []
    requires Entry(props[0], if PayloadOf(props[0]) == [] then 0 else start).Success?
    requires PythonHeader(AllToPython(props[1..]), Align(start + |PayloadOf(props[0])|), rest)
    ensures PythonHeader(AllToPython(props), start,
                         Entry(props[0], if PayloadOf(props[0]) == [] then 0 else start).value + rest)
  {
    EntriesAgree(props[0], if PayloadOf(props[0]) == [] then 0 else start);
    assert AllToPython(props)[1..] == AllToPython(props[1..]);
    PackFromStep(AllToPython(props), start);
  }

  lemma {:induction false} FillsAgree(grown: nat, start: nat, size: nat)
    requires grown % 4 == 0 && start % 4 == 0
    ensures Align(grown + size) - (grown + size) == Align(start + size) - (start + size)
  {
    CedbLayout.AlignShift(grown, size);
    CedbLayout.AlignShift(start, size);
  }

  /** Growing the section in place pads as running offsets do. */
  lemma {:induction false} SectionsAgree(section: seq<Byte>, payloads: seq<seq<Byte>>, start: nat)
    requires |section| % 4 == 0 && start % 4 == 0
    ensures SectionAfter(section, payloads) == section + CedbLayout.Section(payloads, start)
    decreases |payloads|
  {
    if payloads == [] {
      assert section + [] == section;
    } else {
      var payload, next := payloads[0], Cedb.NextOffset(|payloads[0]|, start);
      FillsAgree(|section|, start, |payload|);
      Assoc(section, payload, Zeros(next - start - |payload|));
      SectionsAgree(section + Cedb.Padded(payload, start), payloads[1..], next);
      Assoc(section, Cedb.Padded(payload, start), CedbLayout.Section(payloads[1..], next));
    }
  }

  lemma {:induction false} PayloadsAgree(props: seq<PropVal>)
    requires forall p | p in props :: WellTyped(p)
    ensures CedbLayout.Payloads(AllToPython(props)) == Payloads(props)
  {
    if props != [] {
      var python := AllToPython(props);
      assert python[0] == ToPython(props[0]) && python[1..] == AllToPython(props[1..]);
      PayloadsAgree(props[1..]);
      assert WellTyped(props[0]);
      TypedAnywhere(props[0], 0);
      EntriesAgree(props[0], 0);
    }
  }

  ghost predicate WellTyped(p: PropVal) { PackValue(p, 0).Success? }

  lemma {:induction false} TypedAnywhere(p: PropVal, at: nat)
    ensures Entry(p, at).Success? <==> WellTyped(p)
  {
  }

  /** The Swift packer accepts exactly the lists whose values have their properties' types. */
  lemma {:induction false} Accepts(props: seq<PropVal>, offsets: seq<nat>)
    requires |offsets| == |props|
    ensures Header(props, offsets).Success? <==> forall p | p in props :: WellTyped(p)
  {
    if props != [] {
      Accepts(props[1..], offsets[1..]);
      TypedAnywhere(props[0], offsets[0]);
      assert forall p :: p in props <==> p == props[0] || p in props[1..];
    }
  }

  /** Two passes or one, the octets are the same. */
  lemma {:induction false} SameOctets(props: seq<PropVal>)
    requires Packed(props).Success?
    ensures Cedb.Packed(AllToPython(props)) == Success(Packed(props).value)
  {
    var start := Align(|props| * Cedb.PROPVAL_SIZE);
    var section := CedbLayout.Section(Payloads(props), start);
    Accepts(props, Offsets(props, start));
    HeadersAgree(props, start);
    PayloadsAgree(props);
    SectionsAgree([], Payloads(props), start);
    assert [] + section == section;
    CedbLayout.PackFromPayloads(AllToPython(props), start);
  }

  /** A property of the Python side that a Swift property can hold. */
  ghost predicate Fits(q: Cedb.PropVal) {
    && 0 <= q.propId < TWO16
    && 0 <= q.flags < TWO16
    && Cedb.PackValue(q, 0).Success?
  }

  function KindOf(code: Int16U): Kind {
    if code == Cedb.CEVT_I2 then I2
    else if code == Cedb.CEVT_I4 then I4
    else if code == Cedb.CEVT_R8 then R8
    else if code == Cedb.CEVT_BOOL then Bool
    else if code == Cedb.CEVT_UI2 then UI2
    else if code == Cedb.CEVT_UI4 then UI4
    else if code == Cedb.CEVT_LPWSTR then String
    else if code == Cedb.CEVT_FILETIME then Filetime
    else if code == Cedb.CEVT_BLOB then Blob
    else Unknown(code)
  }

  ghost function FromPython(q: Cedb.PropVal): (p: PropVal)
    requires Fits(q)
    ensures ToPython(p) == q && WellTyped(p)
  {
    var value :=
      match q.value
      case Number(n) =>
        if q.kind == Cedb.CEVT_I2 || q.kind == Cedb.CEVT_I4 then IntValue(n)
        else if q.kind == Cedb.CEVT_FILETIME then FiletimeValue(n)
        else UIntValue(n)
      case Flag(b) => BoolValue(b)
      case Eight(octets) =>
        (Powers(); FromLeReads(octets); DoubleValue(FromLe(octets)))
      case Text(units) => StringValue(units)
      case Blob(octets) => BlobValue(octets)
      case Missing => MissingValue;
    PropVal(q.propId, KindOf(q.kind), value, q.flags)
  }

  ghost function AllFromPython(qs: seq<Cedb.PropVal>): (props: seq<PropVal>)
    requires forall q | q in qs :: Fits(q)
    ensures |props| == |qs| && AllToPython(props) == qs
    ensures forall p | p in props :: WellTyped(p)
  {
    if qs == [] then [] else [FromPython(qs[0])] + AllFromPython(qs[1..])
  }

  /** Whatever the Python packer accepts in 16-bit fields, the Swift packer packs to the same octets. */
  lemma {:induction false} SwiftFollowsPython(qs: seq<Cedb.PropVal>)
    requires forall q | q in qs :: Fits(q)
    ensures Packed(AllFromPython(qs)).Success?
    ensures Cedb.Packed(qs) == Success(Packed(AllFromPython(qs)).value)
  {
    var props := AllFromPython(qs);
    Accepts(props, OffsetsFrom(Sizes(Payloads(props)), Align(|props| * Cedb.PROPVAL_SIZE)));
    SameOctets(props);
  }
}
