/** Where a packed record keeps each property. */
module CedbLayout {
  import opened Wrappers
  import opened Bytes
  import opened Cedb

  // ----- payloads one after the other -----

  function Payloads(props: seq<PropVal>): (r: seq<seq<Byte>>)
    ensures |r| == |props|
    ensures forall i :: 0 <= i < |r| ==> r[i] == Payload(props[i])
  {
    if props == [] then [] else [Payload(props[0])] + Payloads(props[1..])
  }

  /** The running offset in front of payload `i`. */
  function OffsetOf(payloads: seq<seq<Byte>>, start: nat, i: nat): (r: nat)
    requires i <= |payloads|
    ensures r >= start
    decreases i
  {
    if i == 0 then start else OffsetOf(payloads[1..], NextOffset(|payloads[0]|, start), i - 1)
  }

  function SizesOf(payloads: seq<seq<Byte>>): nat {
    if payloads == [] then 0 else Align(|payloads[0]|) + SizesOf(payloads[1..])
  }

  /** Each payload padded to the next offset. */
  function Section(payloads: seq<seq<Byte>>, start: nat): (r: seq<Byte>)
    ensures |r| == OffsetOf(payloads, start, |payloads|) - start
  {
    if payloads == [] then []
    else Padded(payloads[0], start) + Section(payloads[1..], NextOffset(|payloads[0]|, start))
  }

  lemma {:induction false} AlignShift(offset: nat, size: nat)
    requires offset % 4 == 0
    ensures Align(offset + size) == offset + Align(size)
  {
    var q := offset / 4;
    assert (offset + size + 3) / 4 == q + (size + 3) / 4;
  }

  lemma {:induction false} OffsetsAligned(payloads: seq<seq<Byte>>, start: nat, i: nat)
    requires i <= |payloads| && start % 4 == 0
    ensures OffsetOf(payloads, start, i) % 4 == 0
    ensures OffsetOf(payloads, start, |payloads|) == start + SizesOf(payloads)
    decreases |payloads|
  {
    if payloads != [] {
      AlignShift(start, |payloads[0]|);
      OffsetsAligned(payloads[1..], NextOffset(|payloads[0]|, start), if i == 0 then 0 else i - 1);
    }
  }

  lemma {:induction false} OffsetsGrow(payloads: seq<seq<Byte>>, start: nat, i: nat, j: nat)
    requires i < j <= |payloads|
    ensures OffsetOf(payloads, start, i) + |payloads[i]| <= OffsetOf(payloads, start, j)
    decreases i
  {
    var rest, next := payloads[1..], NextOffset(|payloads[0]|, start);
    if i == 0 {
      assert OffsetOf(payloads, start, j) == OffsetOf(rest, next, j - 1);
    } else {
      assert rest[i - 1] == payloads[i];
      OffsetsGrow(rest, next, i - 1, j - 1);
    }
  }

  /** `part` is in `data` from `at` on. */
  ghost predicate Holds(data: seq<Byte>, at: nat, part: seq<Byte>) {
    at + |part| <= |data| && data[at..at + |part|] == part
  }

  lemma {:induction false} Skips(front: seq<Byte>, rest: seq<Byte>, lo: nat, hi: nat)
    requires lo <= hi <= |rest|
    ensures (front + rest)[|front| + lo..|front| + hi] == rest[lo..hi]
  {
  }

  lemma {:induction false} HoldsFirst(part: seq<Byte>, fill: seq<Byte>, rest: seq<Byte>)
    ensures Holds(part + fill + rest, 0, part)
  {
    assert (part + fill + rest)[0..|part|] == part;
  }

  lemma {:induction false} HoldsLater(front: seq<Byte>, rest: seq<Byte>, at: nat, part: seq<Byte>)
    requires Holds(rest, at, part)
    ensures Holds(front + rest, |front| + at, part)
  {
    Skips(front, rest, at, at + |part|);
  }

  /** Payload `i` lies at the running offset. */
  lemma {:induction false} PayloadPlaced(payloads: seq<seq<Byte>>, start: nat, i: nat)
    requires i < |payloads|
    ensures Holds(Section(payloads, start), OffsetOf(payloads, start, i) - start, payloads[i])
    decreases i
  {
    var padded, next := Padded(payloads[0], start), NextOffset(|payloads[0]|, start);
    var rest := Section(payloads[1..], next);
    if i == 0 {
      HoldsFirst(payloads[0], Zeros(|padded| - |payloads[0]|), rest);
    } else {
      assert payloads[1..][i - 1] == payloads[i];
      PayloadPlaced(payloads[1..], next, i - 1);
      HoldsLater(padded, rest, OffsetOf(payloads, start, i) - next, payloads[i]);
    }
  }

  // ----- the record -----

  function TotalSize(props: seq<PropVal>): nat {
    OffsetOf(Payloads(props), PROPVAL_SIZE * |props|, |props|)
  }

  function Start(props: seq<PropVal>, i: nat): nat
    requires i <= |props|
  {
    OffsetOf(Payloads(props), PROPVAL_SIZE * |props|, i)
  }

  lemma {:induction false} PackFromPayloads(props: seq<PropVal>, start: nat)
    requires PackFrom(props, start).Success?
    ensures PackFrom(props, start).value.payloads == Section(Payloads(props), start)
  {
    if props != [] {
      PackFromPayloads(props[1..], NextOffset(|Payload(props[0])|, start));
      assert Payloads(props)[0] == Payload(props[0]) && Payloads(props)[1..] == Payloads(props[1..]);
    }
  }

  /** Property `i`'s entry; its pointer is the running offset. */
  function EntryOf(props: seq<PropVal>, start: nat, i: nat): Result<seq<Byte>, CedbError>
    requires i < |props|
  {
    Entry(props[i], Pointer(props[i], OffsetOf(Payloads(props), start, i)))
  }

  /** Sixteen-octet entries one after the other. */
  function Flat(entries: seq<seq<Byte>>): seq<Byte> {
    if entries == [] then [] else entries[0] + Flat(entries[1..])
  }

  ghost predicate IsEntry(data: seq<Byte>, i: nat, entry: seq<Byte>) {
    16 * i + 16 <= |data| && data[16 * i..16 * i + 16] == entry
  }

  lemma {:induction false} FlatAt(entries: seq<seq<Byte>>, i: nat)
    requires i < |entries| && forall e | e in entries :: |e| == 16
    ensures IsEntry(Flat(entries), i, entries[i])
    decreases i
  {
    var first, rest := entries[0], Flat(entries[1..]);
    assert first in entries;
    if i == 0 {
      assert (first + rest)[0..16] == first;
    } else {
      FlatAt(entries[1..], i - 1);
      Skips(first, rest, 16 * (i - 1), 16 * i);
    }
  }

  function EntriesOf(props: seq<PropVal>, start: nat): (r: seq<seq<Byte>>)
    requires PackFrom(props, start).Success?
    ensures |r| == |props| && forall e | e in r :: |e| == 16
  {
    if props == [] then []
    else
      HeaderSplits(props, start);
      [EntryOf(props, start, 0).value] + EntriesOf(props[1..], NextOffset(|Payload(props[0])|, start))
  }

  lemma {:induction false} HeaderIsFlat(props: seq<PropVal>, start: nat)
    requires PackFrom(props, start).Success?
    ensures PackFrom(props, start).value.header == Flat(EntriesOf(props, start))
  {
    if props != [] {
      HeaderSplits(props, start);
      HeaderIsFlat(props[1..], NextOffset(|Payload(props[0])|, start));
      assert EntriesOf(props, start)[1..] == EntriesOf(props[1..], NextOffset(|Payload(props[0])|, start));
    }
  }

  lemma {:induction false} EntriesAre(props: seq<PropVal>, start: nat, i: nat)
    requires i < |props| && PackFrom(props, start).Success?
    ensures EntryOf(props, start, i) == Success(EntriesOf(props, start)[i])
    decreases i
  {
    HeaderSplits(props, start);
    if i > 0 {
      EntrySteps(props, start, i);
      EntriesAre(props[1..], NextOffset(|Payload(props[0])|, start), i - 1);
    }
  }

  lemma {:induction false} EntrySteps(props: seq<PropVal>, start: nat, i: nat)
    requires 0 < i < |props|
    ensures EntryOf(props, start, i) == EntryOf(props[1..], NextOffset(|Payload(props[0])|, start), i - 1)
  {
    OffsetSteps(props, start, i);
  }

  lemma {:induction false} HeaderSplits(props: seq<PropVal>, start: nat)
    requires props != [] && PackFrom(props, start).Success?
    ensures EntryOf(props, start, 0).Success?
    ensures PackFrom(props[1..], NextOffset(|Payload(props[0])|, start)).Success?
    ensures PackFrom(props, start).value.header ==
        EntryOf(props, start, 0).value
        + PackFrom(props[1..], NextOffset(|Payload(props[0])|, start)).value.header
  {
  }

  lemma {:induction false} OffsetSteps(props: seq<PropVal>, start: nat, i: nat)
    requires 0 < i < |props|
    ensures props[1..][i - 1] == props[i]
    ensures OffsetOf(Payloads(props), start, i)
         == OffsetOf(Payloads(props[1..]), NextOffset(|Payload(props[0])|, start), i - 1)
  {
    assert Payloads(props)[0] == Payload(props[0]) && Payloads(props)[1..] == Payloads(props[1..]);
  }

  lemma {:induction false} PackedParts(props: seq<PropVal>)
    requires Packed(props).Success?
    ensures PackFrom(props, PROPVAL_SIZE * |props|).Success?
    ensures Packed(props).value ==
            PackFrom(props, PROPVAL_SIZE * |props|).value.header + Section(Payloads(props), PROPVAL_SIZE * |props|)
  {
    var start := PROPVAL_SIZE * |props|;
    assert Align(start) == start;
    PackFromPayloads(props, start);
  }

  lemma {:induction false} RecordPayload(props: seq<PropVal>, i: nat)
    requires Packed(props).Success? && i < |props|
    ensures |Packed(props).value| == TotalSize(props)
    ensures Holds(Packed(props).value, Start(props, i), Payload(props[i]))
  {
    SizeIsTotal(props);
    PayloadAfter(props, i);
  }

  lemma {:induction false} SizeIsTotal(props: seq<PropVal>)
    requires Packed(props).Success?
    ensures |Packed(props).value| == TotalSize(props)
  {
    PackedParts(props);
  }

  lemma {:induction false} PayloadAfter(props: seq<PropVal>, i: nat)
    requires Packed(props).Success? && i < |props|
    ensures Holds(Packed(props).value, Start(props, i), Payload(props[i]))
  {
    var start, payloads := PROPVAL_SIZE * |props|, Payloads(props);
    PackedParts(props);
    PayloadPlaced(payloads, start, i);
    HoldsAfter(PackFrom(props, start).value.header, Section(payloads, start), Start(props, i), payloads[i]);
  }

  lemma {:induction false} HoldsAfter(front: seq<Byte>, rest: seq<Byte>, at: nat, part: seq<Byte>)
    requires at >= |front| && Holds(rest, at - |front|, part)
    ensures Holds(front + rest, at, part)
  {
    HoldsLater(front, rest, at - |front|, part);
  }

  /** The `i`th entry of the record is property `i`'s. */
  lemma {:induction false} RecordEntry(props: seq<PropVal>, i: nat)
    requires Packed(props).Success? && i < |props|
    ensures EntryOf(props, PROPVAL_SIZE * |props|, i).Success?
    ensures IsEntry(Packed(props).value, i, EntryOf(props, PROPVAL_SIZE * |props|, i).value)
  {
    var start := PROPVAL_SIZE * |props|;
    PackedParts(props);
    EntriesAre(props, start, i);
    HeaderIsFlat(props, start);
    FlatAt(EntriesOf(props, start), i);
    EntryKept(Flat(EntriesOf(props, start)), Section(Payloads(props), start), i, EntriesOf(props, start)[i]);
  }

  lemma {:induction false} EntryKept(header: seq<Byte>, section: seq<Byte>, i: nat, entry: seq<Byte>)
    requires IsEntry(header, i, entry)
    ensures IsEntry(header + section, i, entry)
  {
    assert (header + section)[16 * i..16 * i + 16] == header[16 * i..16 * i + 16];
  }

  /**
   * In a packed record the entries come first; every non-empty payload lies after them, inside the record, on a
   * multiple of four, clear of every other payload, and its octets are the property's own.
   */
  lemma {:induction false} Layout(props: seq<PropVal>, i: nat)
    requires Packed(props).Success? && i < |props|
    ensures Start(props, i) % 4 == 0 && PROPVAL_SIZE * |props| <= Start(props, i)
    ensures Holds(Packed(props).value, Start(props, i), Payload(props[i]))
    ensures forall j | 0 <= j < |props| && i != j ::
      || Start(props, i) + |Payload(props[i])| <= Start(props, j)
      || Start(props, j) + |Payload(props[j])| <= Start(props, i)
  {
    OffsetsAligned(Payloads(props), PROPVAL_SIZE * |props|, i);
    RecordPayload(props, i);
    forall j | 0 <= j < |props| && i != j
      ensures Start(props, i) + |Payload(props[i])| <= Start(props, j)
        || Start(props, j) + |Payload(props[j])| <= Start(props, i)
    {
      if i < j {
        OffsetsGrow(Payloads(props), PROPVAL_SIZE * |props|, i, j);
      } else {
        OffsetsGrow(Payloads(props), PROPVAL_SIZE * |props|, j, i);
      }
    }
  }

  lemma {:induction false} EntriesAligned(n: nat)
    ensures PROPVAL_SIZE * n % 4 == 0
  {
  }

  lemma {:induction false} SectionSize(payloads: seq<seq<Byte>>, start: nat)
    requires start % 4 == 0
    ensures |Section(payloads, start)| == SizesOf(payloads)
  {
    OffsetsAligned(payloads, start, 0);
  }

  /** The length of every packed record, the empty one included. */
  lemma {:induction false} RecordLength(props: seq<PropVal>)
    requires Packed(props).Success?
    ensures |Packed(props).value| == PROPVAL_SIZE * |props| + SizesOf(Payloads(props))
  {
    var start, payloads := PROPVAL_SIZE * |props|, Payloads(props);
    PackedParts(props);
    EntriesAligned(|props|);
    SectionSize(payloads, start);
    var header := PackFrom(props, start).value.header;
    assert |header + Section(payloads, start)| == |header| + |Section(payloads, start)|;
  }
}
