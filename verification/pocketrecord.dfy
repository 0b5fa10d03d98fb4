/** Pocket Outlook records: properties, the device's replace-or-delete write, and what a merge-write leaves. */
module PocketRecord {
  import opened Wrappers
  import opened Bytes
  import opened Cedb
  import opened Text

  datatype Held = Words(text: string) | Count(number: int) | Truth(b: bool) | Raw(octets: seq<Byte>)

  datatype Prop = Prop(id: int, kind: int, held: Held, deleted: bool)

  type Record = seq<Prop>

  /** `Record.get`: the first property with this identifier. */
  function Get(record: Record, id: int): Option<Prop> {
    if record == [] then None
    else if record[0].id == id then Some(record[0])
    else Get(record[1..], id)
  }

  function StringOf(record: Record, id: int): string {
    match Get(record, id)
    case Some(Prop(_, _, Words(text), _)) => text
    case _ => ""
  }

  function IntOf(record: Record, id: int, default: int): int {
    match Get(record, id)
    case Some(Prop(_, _, Count(n), _)) => n
    case Some(Prop(_, _, Truth(b), _)) => if b then 1 else 0
    case _ => default
  }

  predicate HasProp(existing: Record, id: int) { Get(existing, id).Some? }

  // ----- the device's write -----

  predicate SameKey(p: Prop, q: Prop) { p.id == q.id && p.kind == q.kind }

  function Others(record: Record, p: Prop): Record {
    if record == [] then []
    else if SameKey(record[0], p) then Others(record[1..], p)
    else [record[0]] + Others(record[1..], p)
  }

  /** A listed property replaces the one of the same identifier and type; a deleted one only removes it. */
  function WriteOne(record: Record, p: Prop): Record {
    Others(record, p) + if p.deleted then [] else [p]
  }

  function Write(record: Record, props: seq<Prop>): Record
    decreases |props|
  {
    if props == [] then record else Write(WriteOne(record, props[0]), props[1..])
  }

  /** The device may list a record's properties in any order. */
  ghost predicate Lists(after: Record, record: Record) { forall q :: q in after <==> q in record }

  // ----- encoding a field -----

  /** What the codec has for one property: a value, or nothing. */
  datatype Slot = Slot(id: int, kind: int, held: Option<Held>)

  function Empty(kind: int): Held {
    if kind == CEVT_LPWSTR then Words("") else if kind == CEVT_BLOB then Raw([]) else Count(0)
  }

  function Deleted(id: int, kind: int): Prop { Prop(id, kind, Empty(kind), true) }

  /** A value is written; nothing deletes what was there. */
  function Emitted(slot: Slot, existing: Record): seq<Prop> {
    match slot.held
    case Some(held) => [Prop(slot.id, slot.kind, held, false)]
    case None => if HasProp(existing, slot.id) then [Deleted(slot.id, slot.kind)] else []
  }

  function Emit(slots: seq<Slot>, existing: Record): seq<Prop> {
    if slots == [] then [] else Emitted(slots[0], existing) + Emit(slots[1..], existing)
  }

  function Always(id: int, kind: int, held: Held): Slot { Slot(id, kind, Some(held)) }

  function TextSlot(id: int, value: string): Slot {
    Slot(id, CEVT_LPWSTR, if Strip(value) == "" then None else Some(Words(Strip(value))))
  }

  method PutString(props: seq<Prop>, id: int, value: string, existing: Record) returns (longer: seq<Prop>)
    ensures longer == props + Emitted(TextSlot(id, value), existing)
  {
    var cleaned := Strip(value);
    longer := props;
    if cleaned != "" {
      longer := longer + [Prop(id, CEVT_LPWSTR, Words(cleaned), false)];
    } else if HasProp(existing, id) {
      longer := longer + [Deleted(id, CEVT_LPWSTR)];
    }
  }

  // ----- what a write leaves -----

  ghost predicate Distinct(slots: seq<Slot>) {
    forall i, j :: 0 <= i < j < |slots| ==> slots[i].id != slots[j].id
  }

  /** Slots that each have their own place. */
  lemma {:induction false} DistinctByPlace(slots: seq<Slot>, place: int -> int)
    requires forall i :: 0 <= i < |slots| ==> place(slots[i].id) == i
    ensures Distinct(slots)
    ensures forall id :: place(id) < 0 ==> !Named(id, slots)
  {
  }

  /** The record's properties of this identifier have the type the codec writes. */
  ghost predicate KindMatches(existing: Record, slot: Slot) {
    forall q :: q in existing && q.id == slot.id ==> q.kind == slot.kind
  }

  /** The record's properties have the types the codec writes. */
  ghost predicate KindsMatch(existing: Record, slots: seq<Slot>) {
    forall q, s :: q in existing && s in slots && q.id == s.id ==> q.kind == s.kind
  }

  lemma {:induction false} OthersMembers(record: Record, p: Prop, q: Prop)
    ensures q in Others(record, p) <==> q in record && !SameKey(q, p)
  {
    if record != [] {
      OthersMembers(record[1..], p, q);
      assert record == [record[0]] + record[1..];
    }
  }

  lemma {:induction false} WriteConcat(record: Record, a: seq<Prop>, b: seq<Prop>)
    ensures Write(record, a + b) == Write(Write(record, a), b)
    decreases |a|
  {
    if a == [] {
      assert a + b == b;
    } else {
      assert (a + b)[0] == a[0] && (a + b)[1..] == a[1..] + b;
      WriteConcat(WriteOne(record, a[0]), a[1..], b);
    }
  }

  lemma {:induction false} EmitSnoc(slots: seq<Slot>, slot: Slot, existing: Record)
    ensures Emit(slots + [slot], existing) == Emit(slots, existing) + Emitted(slot, existing)
  {
    if slots == [] {
      assert [] + [slot] == [slot] && [slot][1..] == [];
      assert Emit([], existing) == [];
      assert Emitted(slot, existing) + [] == Emitted(slot, existing) == [] + Emitted(slot, existing);
    } else {
      assert (slots + [slot])[0] == slots[0] && (slots + [slot])[1..] == slots[1..] + [slot];
      EmitSnoc(slots[1..], slot, existing);
      assert Emitted(slots[0], existing) + (Emit(slots[1..], existing) + Emitted(slot, existing))
          == Emitted(slots[0], existing) + Emit(slots[1..], existing) + Emitted(slot, existing);
    }
  }

  lemma {:induction false} EmitConcat(a: seq<Slot>, b: seq<Slot>, existing: Record)
    ensures Emit(a + b, existing) == Emit(a, existing) + Emit(b, existing)
  {
    if b == [] {
      assert a + b == a;
      assert Emit(a, existing) + [] == Emit(a, existing);
    } else {
      var last := |b| - 1;
      assert b == b[..last] + [b[last]];
      assert a + b == a + b[..last] + [b[last]];
      EmitConcat(a, b[..last], existing);
      EmitSnoc(a + b[..last], b[last], existing);
      EmitSnoc(b[..last], b[last], existing);
      assert Emit(a, existing) + (Emit(b[..last], existing) + Emitted(b[last], existing))
          == Emit(a, existing) + Emit(b[..last], existing) + Emitted(b[last], existing);
    }
  }

  lemma {:induction false} EmitTwo(a: Slot, b: Slot, existing: Record)
    ensures Emit([a, b], existing) == Emitted(a, existing) + Emitted(b, existing)
  {
    EmitSnoc([], a, existing);
    EmitSnoc([a], b, existing);
    assert [] + [a] == [a] && [a] + [b] == [a, b];
    assert [] + Emitted(a, existing) == Emitted(a, existing);
  }

  lemma {:induction false} EmitThree(a: Slot, b: Slot, c: Slot, existing: Record)
    ensures Emit([a, b, c], existing) == Emitted(a, existing) + Emitted(b, existing) + Emitted(c, existing)
  {
    EmitTwo(a, b, existing);
    EmitSnoc([a, b], c, existing);
    assert [a, b] + [c] == [a, b, c];
  }

  /** Slots that have a value. */
  lemma {:induction false} EmitValues(slots: seq<Slot>, existing: Record, props: seq<Prop>)
    requires |props| == |slots|
    requires forall k :: 0 <= k < |slots| ==> Some(props[k]) == SlotProp(slots[k])
    ensures Emit(slots, existing) == props
  {
    if slots != [] {
      EmitValues(slots[1..], existing, props[1..]);
      assert Some(props[0]) == SlotProp(slots[0]);
      assert props == [props[0]] + props[1..];
    }
  }

  lemma {:induction false} GetFinds(record: Record, id: int)
    ensures Get(record, id).Some? ==> Get(record, id).value in record && Get(record, id).value.id == id
    ensures Get(record, id).None? ==> forall q :: q in record ==> q.id != id
  {
    if record != [] {
      GetFinds(record[1..], id);
      assert record == [record[0]] + record[1..];
    }
  }

  predicate Named(id: int, slots: seq<Slot>) { exists s :: s in slots && s.id == id }

  /** A property a slot wrote. */
  predicate IsValue(q: Prop, slots: seq<Slot>) {
    exists s :: s in slots && s.id == q.id && q.kind == s.kind && s.held == Some(q.held) && !q.deleted
  }

  /** A property of a slot's identifier but of another type: a write neither replaces nor deletes it. */
  predicate IsLeft(q: Prop, slots: seq<Slot>, existing: Record) {
    q in existing && exists s :: s in slots && s.id == q.id && s.kind != q.kind
  }

  lemma {:induction false} WriteOneMembers(record: Record, p: Prop, q: Prop)
    ensures q in WriteOne(record, p) <==> (q in record && !SameKey(q, p)) || (q == p && !p.deleted)
  {
    OthersMembers(record, p, q);
  }

  /** Whether `q` is in the record once these slots are written. */
  ghost predicate Stands(q: Prop, record: Record, slots: seq<Slot>, existing: Record) {
    q in record <==> if Named(q.id, slots) then IsValue(q, slots) || IsLeft(q, slots, existing) else q in existing
  }

  /** One more slot. */
  lemma {:induction false} SlotMembers(existing: Record, before: Record, slots: seq<Slot>, slot: Slot, q: Prop)
    requires forall s :: s in slots ==> s.id != slot.id
    requires Stands(q, before, slots, existing)
    ensures Stands(q, Write(before, Emitted(slot, existing)), slots + [slot], existing)
  {
    var written := Emitted(slot, existing);
    var more := slots + [slot];
    assert forall s :: s in more <==> s in slots || s == slot;
    GetFinds(existing, slot.id);
    if written == [] {
      assert Write(before, written) == before;
    } else {
      assert Write(before, written) == WriteOne(before, written[0]);
      WriteOneMembers(before, written[0], q);
    }
    if q.id == slot.id {
      assert Named(q.id, more) && !Named(q.id, slots);
      assert slot in more;
      assert IsLeft(q, more, existing) <==> q in existing && q.kind != slot.kind;
      assert IsValue(q, more) <==> q.kind == slot.kind && slot.held == Some(q.held) && !q.deleted;
    } else {
      assert Named(q.id, more) == Named(q.id, slots);
      assert IsValue(q, more) == IsValue(q, slots);
      assert IsLeft(q, more, existing) == IsLeft(q, slots, existing);
    }
  }

  /**
   * After the write the properties the slots name are exactly the slots' values and the old ones of other types,
   * and every other property is untouched.
   */
  lemma {:induction false} WriteLeaves(existing: Record, slots: seq<Slot>, q: Prop)
    requires Distinct(slots)
    ensures q in Write(existing, Emit(slots, existing)) <==>
        if Named(q.id, slots) then IsValue(q, slots) || IsLeft(q, slots, existing) else q in existing
    ensures KindsMatch(existing, slots) ==> !IsLeft(q, slots, existing)
  {
    if slots == [] {
      assert !Named(q.id, slots);
    } else {
      var last := |slots| - 1;
      var init, slot := slots[..last], slots[last];
      assert slots == init + [slot];
      WriteLeaves(existing, init, q);
      EmitSnoc(init, slot, existing);
      WriteConcat(existing, Emit(init, existing), Emitted(slot, existing));
      forall s | s in init
        ensures s.id != slot.id
      {
        var i :| 0 <= i < last && init[i] == s;
        assert slots[i] == s;
      }
      SlotMembers(existing, Write(existing, Emit(init, existing)), init, slot, q);
    }
  }

  function SlotProp(slot: Slot): Option<Prop> {
    match slot.held
    case Some(held) => Some(Prop(slot.id, slot.kind, held, false))
    case None => None
  }

  /** Reading a written field gives the slot's value, whatever the record held of that type before. */
  lemma {:induction false} SlotReads(existing: Record, slots: seq<Slot>, after: Record, k: nat)
    requires Distinct(slots) && k < |slots| && KindMatches(existing, slots[k])
    requires Lists(after, Write(existing, Emit(slots, existing)))
    ensures Get(after, slots[k].id) == SlotProp(slots[k])
  {
    var slot := slots[k];
    assert slot in slots;
    GetFinds(after, slot.id);
    assert forall s :: s in slots && s.id == slot.id ==> s == slot;
    match slot.held
    case None =>
      if Get(after, slot.id).Some? {
        WriteLeaves(existing, slots, Get(after, slot.id).value);
      }
    case Some(held) =>
      var p := Prop(slot.id, slot.kind, held, false);
      WriteLeaves(existing, slots, p);
      assert slot in slots && IsValue(p, slots);
      if Get(after, slot.id).Some? {
        WriteLeaves(existing, slots, Get(after, slot.id).value);
      }
  }

  /** A field no slot names reads as it did. */
  lemma {:induction false} OthersStay(existing: Record, slots: seq<Slot>, after: Record, id: int)
    requires Distinct(slots) && !Named(id, slots)
    requires Lists(after, Write(existing, Emit(slots, existing)))
    ensures HasProp(after, id) == HasProp(existing, id)
  {
    GetFinds(after, id);
    GetFinds(existing, id);
    if HasProp(after, id) {
      WriteLeaves(existing, slots, Get(after, id).value);
    }
    if HasProp(existing, id) {
      WriteLeaves(existing, slots, Get(existing, id).value);
    }
  }

  /** Reading gives each slot's value. */
  ghost predicate Reads(after: Record, slots: seq<Slot>) {
    forall k: nat | k < |slots| :: Get(after, slots[k].id) == SlotProp(slots[k])
  }

  lemma {:induction false} AllRead(existing: Record, slots: seq<Slot>, after: Record)
    requires Distinct(slots) && KindsMatch(existing, slots)
    requires Lists(after, Write(existing, Emit(slots, existing)))
    ensures Reads(after, slots)
  {
    forall k: nat | k < |slots|
      ensures Get(after, slots[k].id) == SlotProp(slots[k])
    {
      SlotReads(existing, slots, after, k);
    }
  }

  /** Slots whose own types match read back, whatever the others' do. */
  lemma {:induction false} PartReads(existing: Record, slots: seq<Slot>, after: Record, part: seq<Slot>)
    requires Distinct(slots) && Lists(after, Write(existing, Emit(slots, existing)))
    requires forall k :: 0 <= k < |part| ==> part[k] in slots && KindMatches(existing, part[k])
    ensures Reads(after, part)
  {
    forall k: nat | k < |part|
      ensures Get(after, part[k].id) == SlotProp(part[k])
    {
      var i :| 0 <= i < |slots| && slots[i] == part[k];
      SlotReads(existing, slots, after, i);
    }
  }

  lemma {:induction false} ReadsConcat(after: Record, a: seq<Slot>, b: seq<Slot>)
    requires Reads(after, a + b)
    ensures Reads(after, a) && Reads(after, b)
  {
    forall k: nat | k < |a|
      ensures Get(after, a[k].id) == SlotProp(a[k])
    {
      assert (a + b)[k] == a[k];
    }
    forall k: nat | k < |b|
      ensures Get(after, b[k].id) == SlotProp(b[k])
    {
      assert (a + b)[|a| + k] == b[k];
    }
  }
}
