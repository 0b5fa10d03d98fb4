/** Reading a packed record back. */
module CedbRoundTrip {
  import opened Wrappers
  import opened Bytes
  import opened Cedb
  import opened CedbLayout

  // ----- what a property reads back as -----

  function BeforeNul(units: seq<Unit>): seq<Unit> {
    if units == [] || units[0] == 0 then [] else [units[0]] + BeforeNul(units[1..])
  }

  function StoredValue(p: PropVal): Value {
    if p.kind == CEVT_LPWSTR && p.value.Text? then Text(BeforeNul(p.value.units))
    else if p.kind == CEVT_I2 && p.value.Number? then Number(Signed(p.value.n % TWO16, TWO16))
    else if p.kind == CEVT_UI2 && p.value.Number? then Number(p.value.n % TWO16)
    else p.value
  }

  /** Identifier and flags keep 16 bits, and a record that says "not found" has no value. */
  function Stored(p: PropVal): PropVal {
    PropVal(p.propId % TWO16, p.kind, if NotFound(p.flags) then Missing else StoredValue(p), p.flags % TWO16)
  }

  function StoredAll(props: seq<PropVal>): seq<PropVal> {
    seq(|props|, i requires 0 <= i < |props| => Stored(props[i]))
  }

  // ----- one value -----

  lemma {:induction false} UnitOctets(u: Unit)
    ensures U16(u) == [u % 256, u / 256]
    ensures CodeUnit(U16(u)[0], U16(u)[1]) == u
    ensures u == 0 <==> U16(u)[0] == 0 && U16(u)[1] == 0
  {
    TwoOctets(u, 0);
  }

  lemma {:induction false} WstrCons(u: Unit, rest: seq<Unit>)
    ensures Wstr([u] + rest) == U16(u) + Wstr(rest)
  {
    assert ([u] + rest)[1..] == rest;
    assert Units([u] + rest) == U16(u) + Units(rest);
  }

  lemma {:induction false} UnitHere(data: seq<Byte>, at: nat, u: Unit, rest: seq<Byte>)
    requires Holds(data, at, U16(u) + rest)
    ensures CodeUnit(data[at], data[at + 1]) == u
    ensures u == 0 <==> data[at] == 0 && data[at + 1] == 0
    ensures Holds(data, at + 2, rest)
  {
    UnitOctets(u);
    var part := data[at..at + 2 + |rest|];
    assert data[at] == part[0] && data[at + 1] == part[1];
    assert data[at + 2..at + 2 + |rest|] == part[2..] == rest;
  }

  lemma {:induction false} NulHere(data: seq<Byte>, at: nat)
    requires Holds(data, at, Wstr([]))
    ensures UnitsAt(data, at) == []
  {
    var part := data[at..at + 2];
    assert data[at] == part[0] && data[at + 1] == part[1];
  }

  lemma {:induction false} TextReads(units: seq<Unit>, data: seq<Byte>, at: nat)
    requires Holds(data, at, Wstr(units))
    ensures UnitsAt(data, at) == BeforeNul(units)
  {
    if units == [] {
      NulHere(data, at);
    } else {
      var u, rest := units[0], units[1..];
      assert units == [u] + rest;
      WstrCons(u, rest);
      UnitHere(data, at, u, Wstr(rest));
      if u != 0 {
        TextReads(rest, data, at + 2);
      }
    }
  }

  lemma {:induction false} SignedReads(n: int)
    requires -0x8000_0000 <= n <= 0x7FFF_FFFF
    ensures Signed(n % TWO32, TWO32) == n
  {
  }

  /** The octets of a value's two words. */
  lemma {:induction false} Words(low: int, high: int)
    ensures var w := U32(low) + U32(high);
      && FromLe(w[..2]) == low % TWO16
      && FromLe(w[..4]) == low % TWO32
      && FromLe(w[4..]) == high % TWO32
  {
    U32Reads(low);
    U32Reads(high);
    var w := U32(low) + U32(high);
    assert w[..2] == U32(low)[..2] && w[..4] == U32(low) && w[4..] == U32(high);
  }

  lemma {:induction false} NumberReads(p: PropVal, at: nat, data: seq<Byte>)
    requires PackValue(p, at).Success? && p.value.Number?
    ensures UnpackValue(p.kind, PackValue(p, at).value, data) == Success(StoredValue(p))
  {
    if p.kind == CEVT_FILETIME {
      FiletimeReads(p, at, data);
    } else {
      IntegerReads(p, at, data);
    }
  }

  lemma {:induction false} FiletimeReads(p: PropVal, at: nat, data: seq<Byte>)
    requires PackValue(p, at).Success? && p.value.Number? && p.kind == CEVT_FILETIME
    ensures UnpackValue(p.kind, PackValue(p, at).value, data) == Success(StoredValue(p))
  {
    var lo, hi := HalvesJoin(p.value.n);
    FiletimePacked(p, at, lo, hi);
    Words(lo, hi);
    FiletimeUnpacked(U32(lo) + U32(hi), data, lo, hi);
  }

  lemma {:induction false} FiletimePacked(p: PropVal, at: nat, lo: nat, hi: nat)
    requires PackValue(p, at).Success? && p.value.Number? && p.kind == CEVT_FILETIME
    requires lo == p.value.n % TWO32 && hi == p.value.n / TWO32
    ensures PackValue(p, at) == Success(U32(lo) + U32(hi)) && StoredValue(p) == p.value
  {
  }

  lemma {:induction false} FiletimeUnpacked(union: seq<Byte>, data: seq<Byte>, lo: nat, hi: nat)
    requires |union| == 8 && FromLe(union[..4]) == lo && FromLe(union[4..]) == hi
    ensures UnpackValue(CEVT_FILETIME, union, data) == Success(Number(hi * TWO32 + lo))
  {
  }

  lemma {:induction false} HalvesJoin(n: nat) returns (lo: nat, hi: nat)
    requires n <= 0xFFFF_FFFF_FFFF_FFFF
    ensures lo == n % TWO32 && hi == n / TWO32 && hi * TWO32 + lo == n
    ensures lo % TWO32 == lo && hi % TWO32 == hi
  {
    lo, hi := n % TWO32, n / TWO32;
  }

  lemma {:induction false} IntegerReads(p: PropVal, at: nat, data: seq<Byte>)
    requires PackValue(p, at).Success? && p.value.Number? && p.kind != CEVT_FILETIME
    ensures UnpackValue(p.kind, PackValue(p, at).value, data) == Success(StoredValue(p))
  {
    Words(p.value.n, 0);
    if p.kind == CEVT_I4 {
      SignedReads(p.value.n);
    }
  }

  lemma {:induction false} TextValueReads(units: seq<Unit>, at: nat, data: seq<Byte>, union: seq<Byte>)
    requires |union| == 8 && FromLe(union[..4]) == at && at < |data|
    requires UnitsAt(data, at) == BeforeNul(units)
    ensures UnpackValue(CEVT_LPWSTR, union, data) == Success(Text(BeforeNul(units)))
  {
  }

  lemma {:induction false} BlobValueReads(octets: seq<Byte>, at: nat, data: seq<Byte>, union: seq<Byte>)
    requires |union| == 8 && FromLe(union[..4]) == |octets| && FromLe(union[4..]) == at
    requires Holds(data, at, octets)
    ensures UnpackValue(CEVT_BLOB, union, data) == Success(Blob(octets))
  {
  }

  lemma {:induction false} TextPropReads(p: PropVal, at: nat, data: seq<Byte>)
    requires p.kind == CEVT_LPWSTR && p.value.Text? && |data| < TWO32
    requires Holds(data, at, Payload(p))
    ensures PackValue(p, at).Success?
    ensures UnpackValue(p.kind, PackValue(p, at).value, data) == Success(StoredValue(p))
  {
    TextPacked(p, at);
    UnitsRead(p.value.units, at, data);
  }

  lemma {:induction false} UnitsRead(units: seq<Unit>, at: nat, data: seq<Byte>)
    requires |data| < TWO32 && Holds(data, at, Wstr(units))
    ensures UnpackValue(CEVT_LPWSTR, U32(at) + U32(0), data) == Success(Text(BeforeNul(units)))
  {
    Words(at, 0);
    TextReads(units, data, at);
    TextValueReads(units, at, data, U32(at) + U32(0));
  }

  lemma {:induction false} BlobPropReads(p: PropVal, at: nat, data: seq<Byte>)
    requires p.value.Blob? && PackValue(p, at).Success? && |data| < TWO32
    requires Holds(data, at, Payload(p))
    ensures UnpackValue(p.kind, PackValue(p, at).value, data) == Success(StoredValue(p))
  {
    BlobPacked(p, at);
    OctetsRead(p.value.octets, at, data);
  }

  lemma {:induction false} OctetsRead(octets: seq<Byte>, at: nat, data: seq<Byte>)
    requires |data| < TWO32 && Holds(data, at, octets)
    ensures UnpackValue(CEVT_BLOB, U32(|octets|) + U32(at), data) == Success(Blob(octets))
  {
    Words(|octets|, at);
    BlobValueReads(octets, at, data, U32(|octets|) + U32(at));
  }

  lemma {:induction false} BlobPacked(p: PropVal, at: nat)
    requires p.value.Blob? && PackValue(p, at).Success?
    ensures p.kind == CEVT_BLOB && PackValue(p, at) == Success(U32(|p.value.octets|) + U32(at))
    ensures Payload(p) == p.value.octets && StoredValue(p) == p.value
  {
  }

  lemma {:induction false} TextPacked(p: PropVal, at: nat)
    requires p.kind == CEVT_LPWSTR && p.value.Text?
    ensures PackValue(p, at) == Success(U32(at) + U32(0))
    ensures Payload(p) == Wstr(p.value.units) && StoredValue(p) == Text(BeforeNul(p.value.units))
  {
  }

  lemma {:induction false} ValueReads(p: PropVal, at: nat, data: seq<Byte>)
    requires PackValue(p, at).Success? && |data| < TWO32
    requires Holds(data, at, Payload(p))
    ensures UnpackValue(p.kind, PackValue(p, at).value, data) == Success(StoredValue(p))
  {
    if p.value.Number? {
      NumberReads(p, at, data);
    } else if p.value.Text? {
      TextPropReads(p, at, data);
    } else if p.value.Blob? {
      BlobPropReads(p, at, data);
    } else if p.value.Flag? {
      Words(if p.value.b then 1 else 0, 0);
    }
  }

  // ----- one entry -----

  lemma {:induction false} DivisionOf(n: int, q: int, r: int)
    requires n == 0x100 * q + r && 0 <= r < 0x100
    ensures n / 0x100 == q
  {
  }

  lemma {:induction false} EvenPart(k: int, n: int)
    ensures (2 * k + n) % 2 == n % 2
  {
  }

  lemma {:induction false} FlagsKeepNotFound(flags: int)
    ensures NotFound(flags % TWO16) == NotFound(flags)
  {
    var q, r := flags / TWO16, flags % TWO16;
    assert flags / 0x100 == 2 * (0x80 * q) + r / 0x100 by {
      assert flags == 0x100 * (2 * (0x80 * q) + r / 0x100) + r % 0x100;
      DivisionOf(flags, 2 * (0x80 * q) + r / 0x100, r % 0x100);
    }
    EvenPart(0x80 * q, r / 0x100);
  }

  lemma {:induction false} EntryFields(p: PropVal, at: nat)
    requires Entry(p, at).Success?
    ensures var e := Entry(p, at).value;
      && PackValue(p, at) == Success(e[8..])
      && FromLe(e[..4]) == PropId(p.propId, p.kind)
      && FromLe(e[6..8]) == p.flags % TWO16
  {
    var id, value := PropId(p.propId, p.kind), PackValue(p, at).value;
    var e := U32(id) + U16(0) + U16(p.flags) + value;
    assert e[..4] == U32(id) && e[6..8] == U16(p.flags) && e[8..] == value;
    U32Reads(id);
    U16Reads(p.flags);
  }

  lemma {:induction false} EntryReads(p: PropVal, at: nat, data: seq<Byte>)
    requires Entry(p, at).Success? && |data| < TWO32
    requires Holds(data, at, Payload(p))
    ensures UnpackEntry(Entry(p, at).value, data) == Success(Stored(p))
  {
    EntryFields(p, at);
    FlagsKeepNotFound(p.flags);
    PropIdParts(p.propId, p.kind);
    KindSmall(p, at);
    ValueReads(p, at, data);
    FieldsUnpack(Entry(p, at).value, data, p.propId % TWO16, p.kind, p.flags % TWO16, StoredValue(p));
  }

  lemma {:induction false} KindSmall(p: PropVal, at: nat)
    requires PackValue(p, at).Success?
    ensures p.kind % TWO16 == p.kind
  {
  }

  lemma {:induction false} FieldsUnpack(e: seq<Byte>, data: seq<Byte>, propId: int, kind: int, flags: int,
                                        value: Value)
    requires |e| == 16
    requires FromLe(e[..4]) / TWO16 == propId && FromLe(e[..4]) % TWO16 == kind && FromLe(e[6..8]) == flags
    requires UnpackValue(kind, e[8..], data) == Success(value)
    ensures UnpackEntry(e, data)
         == Success(PropVal(propId, kind, if NotFound(flags) then Missing else value, flags))
  {
  }

  lemma {:induction false} PropIdParts(propId: int, kind: int)
    ensures PropId(propId, kind) / TWO16 == propId % TWO16
    ensures PropId(propId, kind) % TWO16 == kind % TWO16
  {
  }

  // ----- the record -----

  /** Entry `i` of `data` reads back as property `i`. */
  ghost predicate ReadsAt(props: seq<PropVal>, data: seq<Byte>, i: nat)
    requires i < |props|
  {
    16 * i + 16 <= |data| && UnpackEntry(data[16 * i..16 * i + 16], data) == Success(Stored(props[i]))
  }

  lemma {:induction false} RecordEntryReads(props: seq<PropVal>, i: nat)
    requires Packed(props).Success? && |Packed(props).value| < TWO32 && i < |props|
    ensures ReadsAt(props, Packed(props).value, i)
  {
    RecordEntry(props, i);
    RecordPayload(props, i);
    EntryReads(props[i], Pointer(props[i], Start(props, i)), Packed(props).value);
  }

  lemma {:induction false} RecordSize(props: seq<PropVal>)
    requires Packed(props).Success?
    ensures |props| * PROPVAL_SIZE <= |Packed(props).value|
  {
    PackedParts(props);
  }

  lemma {:induction false} StoredFrom(props: seq<PropVal>, i: nat)
    requires i < |props|
    ensures StoredAll(props)[i..] == [Stored(props[i])] + StoredAll(props)[i + 1..]
  {
  }

  lemma {:induction false} EntryThenRest(data: seq<Byte>, i: nat, count: nat, p: PropVal, rest: seq<PropVal>)
    requires i < count && count * PROPVAL_SIZE <= |data|
    requires UnpackEntry(data[16 * i..16 * i + 16], data) == Success(p)
    requires UnpackFrom(data, i + 1, count) == Success(rest)
    ensures UnpackFrom(data, i, count) == Success([p] + rest)
  {
    assert i * PROPVAL_SIZE == 16 * i && (i + 1) * PROPVAL_SIZE == 16 * i + 16;
  }

  lemma {:induction false} EntriesRead(props: seq<PropVal>, data: seq<Byte>, i: nat)
    requires i <= |props| && |props| * PROPVAL_SIZE <= |data|
    requires forall k: nat | k < |props| :: ReadsAt(props, data, k)
    ensures UnpackFrom(data, i, |props|) == Success(StoredAll(props)[i..])
    decreases |props| - i
  {
    if i < |props| {
      EntriesRead(props, data, i + 1);
      assert ReadsAt(props, data, i);
      EntryThenRest(data, i, |props|, Stored(props[i]), StoredAll(props)[i + 1..]);
      StoredFrom(props, i);
    } else {
      assert StoredAll(props)[i..] == [];
    }
  }

  /** What `pack_record` accepts, `unpack_record` reads back as the device stores it. */
  lemma {:induction false} RecordReads(props: seq<PropVal>)
    requires Packed(props).Success? && |Packed(props).value| < TWO32
    ensures Unpacked(Packed(props).value, |props|) == Success(StoredAll(props))
  {
    var data := Packed(props).value;
    RecordSize(props);
    forall i: nat | i < |props|
      ensures ReadsAt(props, data, i)
    {
      RecordEntryReads(props, i);
    }
    EntriesRead(props, data, 0);
  }

  /** Nothing a record cannot hold: 16-bit fields, no NUL inside a string, no "not found" mark. */
  ghost predicate Faithful(p: PropVal) {
    && 0 <= p.propId < TWO16
    && 0 <= p.flags < TWO16
    && !NotFound(p.flags)
    && (p.value.Text? ==> 0 !in p.value.units)
    && (p.kind == CEVT_I2 && p.value.Number? ==> -0x8000 <= p.value.n < 0x8000)
    && (p.kind == CEVT_UI2 && p.value.Number? ==> 0 <= p.value.n < TWO16)
  }

  lemma {:induction false} BeforeNulExact(units: seq<Unit>)
    ensures BeforeNul(units) == units <==> 0 !in units
    ensures |BeforeNul(units)| <= |units|
  {
    if units != [] {
      BeforeNulExact(units[1..]);
      if units[0] != 0 {
        assert BeforeNul(units)[1..] == BeforeNul(units[1..]);
        assert units == [units[0]] + units[1..];
      }
    }
  }

  lemma {:induction false} StoredExact(p: PropVal)
    requires PackValue(p, 0).Success?
    ensures Stored(p) == p <==> Faithful(p)
  {
    if p.value.Text? {
      BeforeNulExact(p.value.units);
    }
  }

  /** `unpack_record(pack_record(ps), len(ps)) == ps` for exactly the lists that a record can hold. */
  lemma {:induction false} RoundTripsExactly(props: seq<PropVal>)
    requires Packed(props).Success? && |Packed(props).value| < TWO32
    ensures Unpacked(Packed(props).value, |props|) == Success(props) <==> forall p | p in props :: Faithful(p)
  {
    RecordReads(props);
    forall i | 0 <= i < |props|
      ensures StoredAll(props)[i] == props[i] <==> Faithful(props[i])
    {
      RecordEntry(props, i);
      EntryFields(props[i], Pointer(props[i], Start(props, i)));
      StoredExact(props[i]);
    }
    if forall p | p in props :: Faithful(p) {
      assert StoredAll(props) == props;
    }
    if StoredAll(props) == props {
      assert forall i | 0 <= i < |props| :: StoredAll(props)[i] == props[i];
    }
  }

  /** The packer takes 70000 for a 16-bit value; it comes back as 4464. */
  lemma {:induction false} WideValueIsCut(propId: int)
    ensures var props := [PropVal(propId, CEVT_I2, Number(70000), 0)];
      && Packed(props).Success? && |Packed(props).value| == 16
      && Unpacked(Packed(props).value, 1) == Success([PropVal(propId % TWO16, CEVT_I2, Number(4464), 0)])
  {
    var props := [PropVal(propId, CEVT_I2, Number(70000), 0)];
    assert PackValue(props[0], 0).Success? && props[1..] == [];
    assert PackFrom(props[1..], NextOffset(0, 16)).Success?;
    assert PackFrom(props, 16).Success?;
    RecordLength(props);
    RecordReads(props);
    assert 70000 % TWO16 == 4464 && Signed(4464, TWO16) == 4464 && !NotFound(0);
    assert StoredAll(props) == [Stored(props[0])];
  }
}
