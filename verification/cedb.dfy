/** Windows CE database records: an array of 16-byte property entries, then the payloads they point to. */
module Cedb {
  import opened Wrappers
  import opened Bytes

  /** A UTF-16 code unit. */
  type Unit = x: int | 0 <= x < 0x1_0000

  const CEVT_I2 := 2
  const CEVT_I4 := 3
  const CEVT_R8 := 5
  const CEVT_BOOL := 11
  const CEVT_UI2 := 18
  const CEVT_UI4 := 19
  const CEVT_LPWSTR := 31
  const CEVT_FILETIME := 64
  const CEVT_BLOB := 65

  const PROPVAL_SIZE := 16

  /** A property's value: r8 and unknown types keep their eight octets as they are. */
  datatype Value =
    | Number(n: int)
    | Flag(b: bool)
    | Eight(octets: seq<Byte>)
    | Text(units: seq<Unit>)
    | Blob(octets: seq<Byte>)
    | Missing

  datatype PropVal = PropVal(propId: int, kind: int, value: Value, flags: int)

  datatype CedbError =
    | OutOfRange(propId: int, value: int)
    | CannotPack(propId: int, kind: int)
    | Mistyped(propId: int, kind: int)
    | Truncated(count: int, recordSize: nat)
    | OutsideRecord(offset: int, size: int, recordSize: nat)

  function PropId(propId: int, kind: int): nat { propId % TWO16 * TWO16 + kind % TWO16 }

  /** CEDB_PROPNOTFOUND (0x0100) is set. */
  predicate NotFound(flags: int) { flags / 0x100 % 2 == 1 }

  // ----- packing -----

  function Units(units: seq<Unit>): (r: seq<Byte>)
    ensures |r| == 2 * |units|
  {
    if units == [] then [] else U16(units[0]) + Units(units[1..])
  }

  /** UTF-16LE with a terminating NUL. */
  function Wstr(units: seq<Unit>): (r: seq<Byte>)
    ensures |r| == 2 * |units| + 2
  {
    Units(units) + [0, 0]
  }

  /** What a property appends after the entries. */
  function Payload(p: PropVal): seq<Byte> {
    if p.kind == CEVT_LPWSTR && p.value.Text? then Wstr(p.value.units)
    else if p.kind == CEVT_BLOB && p.value.Blob? then p.value.octets
    else []
  }

  predicate InRange(n: int, low: int, high: int) { low <= n <= high }

  /** The eight octets of the value union; a pointer field holds the payload's offset. */
  function PackValue(p: PropVal, payloadOffset: nat): (r: Result<seq<Byte>, CedbError>)
    ensures r.Success? ==> |r.value| == 8
  {
    if p.kind == CEVT_LPWSTR then
      if p.value.Text? then Success(U32(payloadOffset) + U32(0)) else Failure(Mistyped(p.propId, p.kind))
    else if p.kind == CEVT_BLOB then
      if p.value.Blob? then Success(U32(|p.value.octets|) + U32(payloadOffset))
      else Failure(Mistyped(p.propId, p.kind))
    else if p.kind == CEVT_I2 || p.kind == CEVT_I4 then
      if !p.value.Number? then Failure(Mistyped(p.propId, p.kind))
      else if !InRange(p.value.n, -0x8000_0000, 0x7FFF_FFFF) then Failure(OutOfRange(p.propId, p.value.n))
      else Success(U32(p.value.n) + U32(0))
    else if p.kind == CEVT_UI2 || p.kind == CEVT_UI4 then
      if !p.value.Number? then Failure(Mistyped(p.propId, p.kind))
      else if !InRange(p.value.n, 0, 0xFFFF_FFFF) then Failure(OutOfRange(p.propId, p.value.n))
      else Success(U32(p.value.n) + U32(0))
    else if p.kind == CEVT_BOOL then
      if p.value.Flag? then Success(U32(if p.value.b then 1 else 0) + U32(0))
      else Failure(Mistyped(p.propId, p.kind))
    else if p.kind == CEVT_FILETIME then
      if !p.value.Number? then Failure(Mistyped(p.propId, p.kind))
      else if !InRange(p.value.n, 0, 0xFFFF_FFFF_FFFF_FFFF) then Failure(OutOfRange(p.propId, p.value.n))
      else Success(U32(p.value.n % TWO32) + U32(p.value.n / TWO32))
    else if p.kind == CEVT_R8 then
      if p.value.Eight? && |p.value.octets| == 8 then Success(p.value.octets) else Failure(Mistyped(p.propId, p.kind))
    else Failure(CannotPack(p.propId, p.kind))
  }

  function Entry(p: PropVal, payloadOffset: nat): (r: Result<seq<Byte>, CedbError>)
    ensures r.Success? ==> |r.value| == 16
  {
    match PackValue(p, payloadOffset)
    case Failure(e) => Failure(e)
    case Success(value) => Success(U32(PropId(p.propId, p.kind)) + U16(0) + U16(p.flags) + value)
  }

  datatype Parts = Parts(header: seq<Byte>, payloads: seq<Byte>)

  /** The offset written for a payload: nothing to point to means zero. */
  function Pointer(p: PropVal, offset: nat): nat { if Payload(p) == [] then 0 else offset }

  /** A payload and the zeros up to the next multiple of four. */
  function Padded(payload: seq<Byte>, offset: nat): (r: seq<Byte>)
    ensures |r| == NextOffset(|payload|, offset) - offset
  {
    payload + Zeros(NextOffset(|payload|, offset) - offset - |payload|)
  }

  function NextOffset(size: nat, offset: nat): (r: nat)
    ensures offset + size <= r < offset + size + 4 && r % 4 == 0
  {
    Align(offset + size)
  }

  /** What was packed already, in front of what is packed next. */
  function Before(header: seq<Byte>, payloads: seq<Byte>, r: Result<Parts, CedbError>): Result<Parts, CedbError> {
    match r
    case Failure(e) => Failure(e)
    case Success(parts) => Success(Parts(header + parts.header, payloads + parts.payloads))
  }

  lemma {:induction false} BeforeNothing(r: Result<Parts, CedbError>)
    ensures Before([], [], r) == r
  {
    if r.Success? {
      assert [] + r.value.header == r.value.header && [] + r.value.payloads == r.value.payloads;
    }
  }

  lemma {:induction false} BeforeTwice(h: seq<Byte>, b: seq<Byte>, entry: seq<Byte>, padded: seq<Byte>,
                                       r: Result<Parts, CedbError>)
    ensures Before(h, b, Before(entry, padded, r)) == Before(h + entry, b + padded, r)
  {
    if r.Success? {
      assert h + (entry + r.value.header) == h + entry + r.value.header;
      assert b + (padded + r.value.payloads) == b + padded + r.value.payloads;
    }
  }

  /** One fused pass: each property's entry, then its payload padded up to the next offset. */
  function PackFrom(props: seq<PropVal>, offset: nat): (r: Result<Parts, CedbError>)
    ensures r.Success? ==> |r.value.header| == PROPVAL_SIZE * |props|
  {
    if props == [] then Success(Parts([], []))
    else
      match Entry(props[0], Pointer(props[0], offset))
      case Failure(e) => Failure(e)
      case Success(entry) =>
        Before(entry, Padded(Payload(props[0]), offset), PackFrom(props[1..], NextOffset(|Payload(props[0])|, offset)))
  }

  function Packed(props: seq<PropVal>): Result<seq<Byte>, CedbError> {
    match PackFrom(props, Align(|props| * PROPVAL_SIZE))
    case Failure(e) => Failure(e)
    case Success(parts) => Success(parts.header + parts.payloads)
  }

  /** One round of the loop of `PackRecord`. */
  lemma {:induction false} PackStep(h: seq<Byte>, b: seq<Byte>, props: seq<PropVal>, i: nat, offset: nat,
                                    whole: Result<Parts, CedbError>)
    requires i < |props| && whole == Before(h, b, PackFrom(props[i..], offset))
    ensures var entry := Entry(props[i], Pointer(props[i], offset));
      if entry.Failure? then whole == Failure(entry.error)
      else whole == Before(h + entry.value, b + Padded(Payload(props[i]), offset),
                           PackFrom(props[i + 1..], NextOffset(|Payload(props[i])|, offset)))
  {
    assert props[i..][0] == props[i] && props[i..][1..] == props[i + 1..];
    var entry := Entry(props[i], Pointer(props[i], offset));
    if entry.Success? {
      var payload := Payload(props[i]);
      BeforeTwice(h, b, entry.value, Padded(payload, offset), PackFrom(props[i + 1..], NextOffset(|payload|, offset)));
    }
  }

  method PackRecord(props: seq<PropVal>) returns (r: Result<seq<Byte>, CedbError>)
    ensures r == Packed(props)
  {
    var header, payloads: seq<Byte> := [], [];
    var start := Align(|props| * PROPVAL_SIZE);
    var offset: nat := start;
    ghost var whole := PackFrom(props, start);
    BeforeNothing(whole);
    assert props[0..] == props;
    for i := 0 to |props|
      invariant whole == Before(header, payloads, PackFrom(props[i..], offset))
    {
      var p := props[i];
      PackStep(header, payloads, props, i, offset, whole);
      var entry := Entry(p, Pointer(p, offset));
      if entry.Failure? {
        return Failure(entry.error);
      }
      header := header + entry.value;
      payloads := payloads + Padded(Payload(p), offset);
      offset := NextOffset(|Payload(p)|, offset);
    }
    assert header + [] == header && payloads + [] == payloads;
    return Success(header + payloads);
  }

  // ----- unpacking -----

  function Slice(data: seq<Byte>, offset: int, size: int): Result<seq<Byte>, CedbError> {
    if offset < 0 || size < 0 || offset + size > |data| then Failure(OutsideRecord(offset, size, |data|))
    else Success(data[offset..offset + size])
  }

  function CodeUnit(low: Byte, high: Byte): Unit { (low as int) + 256 * (high as int) }

  /** Code units up to a NUL or the end of the data. */
  function UnitsAt(data: seq<Byte>, offset: nat): seq<Unit>
    requires offset <= |data|
    decreases |data| - offset
  {
    if offset + 1 < |data| && (data[offset] != 0 || data[offset + 1] != 0) then
      [CodeUnit(data[offset], data[offset + 1])] + UnitsAt(data, offset + 2)
    else []
  }

  method ReadWstrAt(data: seq<Byte>, offset: int) returns (r: Result<seq<Unit>, CedbError>)
    ensures r == ReadText(data, offset)
  {
    if offset < 0 || offset >= |data| {
      return Failure(OutsideRecord(offset, 0, |data|));
    }
    var units: seq<Unit> := [];
    var end := offset;
    while end + 1 < |data| && (data[end] != 0 || data[end + 1] != 0)
      invariant offset <= end <= |data|
      invariant units + UnitsAt(data, end) == UnitsAt(data, offset)
    {
      units := units + [CodeUnit(data[end], data[end + 1])];
      end := end + 2;
    }
    assert units + UnitsAt(data, end) == units;
    return Success(units);
  }

  function ReadText(data: seq<Byte>, offset: int): Result<seq<Unit>, CedbError> {
    if offset < 0 || offset >= |data| then Failure(OutsideRecord(offset, 0, |data|))
    else Success(UnitsAt(data, offset))
  }

  function Signed(n: nat, bound: nat): int { if n < bound / 2 then n else n - bound }

  function UnpackValue(kind: int, union: seq<Byte>, data: seq<Byte>): Result<Value, CedbError>
    requires |union| == 8
  {
    if kind == CEVT_LPWSTR then
      match ReadText(data, FromLe(union[..4]))
      case Failure(e) => Failure(e)
      case Success(units) => Success(Text(units))
    else if kind == CEVT_BLOB then
      match Slice(data, FromLe(union[4..]), FromLe(union[..4]))
      case Failure(e) => Failure(e)
      case Success(octets) => Success(Blob(octets))
    else if kind == CEVT_I2 then Success(Number(Signed(FromLe(union[..2]), TWO16)))
    else if kind == CEVT_UI2 then Success(Number(FromLe(union[..2])))
    else if kind == CEVT_I4 then Success(Number(Signed(FromLe(union[..4]), TWO32)))
    else if kind == CEVT_UI4 then Success(Number(FromLe(union[..4])))
    else if kind == CEVT_BOOL then Success(Flag(FromLe(union[..4]) != 0))
    else if kind == CEVT_FILETIME then Success(Number(FromLe(union[4..]) * TWO32 + FromLe(union[..4])))
    else Success(Eight(union))
  }

  function UnpackEntry(entry: seq<Byte>, data: seq<Byte>): Result<PropVal, CedbError>
    requires |entry| == 16
  {
    var cepropid := FromLe(entry[..4]);
    var flags := FromLe(entry[6..8]);
    var (propId, kind) := (cepropid / TWO16, cepropid % TWO16);
    if NotFound(flags) then Success(PropVal(propId, kind, Missing, flags))
    else
      match UnpackValue(kind, entry[8..], data)
      case Failure(e) => Failure(e)
      case Success(value) => Success(PropVal(propId, kind, value, flags))
  }

  /** The properties of entries `index..count`, or the first one's error. */
  function UnpackFrom(data: seq<Byte>, index: nat, count: nat): Result<seq<PropVal>, CedbError>
    requires index <= count && count * PROPVAL_SIZE <= |data|
    decreases count - index
  {
    if index == count then Success([])
    else
      match UnpackEntry(data[index * PROPVAL_SIZE..(index + 1) * PROPVAL_SIZE], data)
      case Failure(e) => Failure(e)
      case Success(p) =>
        match UnpackFrom(data, index + 1, count)
        case Failure(e) => Failure(e)
        case Success(rest) => Success([p] + rest)
  }

  /** How many rounds `range(count)` gives: none for a negative count. */
  function Rounds(count: int): nat { if count < 0 then 0 else count }

  function Unpacked(data: seq<Byte>, count: int): Result<seq<PropVal>, CedbError> {
    if count * PROPVAL_SIZE > |data| then Failure(Truncated(count, |data|)) else UnpackFrom(data, 0, Rounds(count))
  }

  /** `props`, then what is still to be read. */
  function Following(props: seq<PropVal>, r: Result<seq<PropVal>, CedbError>): Result<seq<PropVal>, CedbError> {
    match r
    case Failure(e) => Failure(e)
    case Success(rest) => Success(props + rest)
  }

  method UnpackRecord(data: seq<Byte>, count: int) returns (r: Result<seq<PropVal>, CedbError>)
    ensures r == Unpacked(data, count)
  {
    if count * PROPVAL_SIZE > |data| {
      return Failure(Truncated(count, |data|));
    }
    var rounds := Rounds(count);
    var props: seq<PropVal> := [];
    assert UnpackFrom(data, 0, rounds).Success? ==>
        props + UnpackFrom(data, 0, rounds).value == UnpackFrom(data, 0, rounds).value;
    for index := 0 to rounds
      invariant UnpackFrom(data, 0, rounds) == Following(props, UnpackFrom(data, index, rounds))
    {
      var entry := UnpackEntry(data[index * PROPVAL_SIZE..(index + 1) * PROPVAL_SIZE], data);
      if entry.Failure? {
        return Failure(entry.error);
      }
      ghost var rest := UnpackFrom(data, index + 1, rounds);
      assert rest.Success? ==> props + ([entry.value] + rest.value) == props + [entry.value] + rest.value;
      props := props + [entry.value];
    }
    assert props + [] == props;
    return Success(props);
  }
}
